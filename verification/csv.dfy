/** The quote-aware CSV field splitter `parseCSVLine`, identical in
    `FileUtil`, `FileAttendanceDao` and `FileEmployeeDao`: a double quote
    toggles a quoted section and is dropped, a comma outside quotes ends a
    field, every other character is kept. */
module Csv {
  import opened JavaLang

  /** The loop's state: the finished fields, the field being built, and whether a quote is open. */
  datatype ScanState = ScanState(tokens: seq<string>, current: string, inQuotes: bool)

  /** One iteration of the loop, on character `c`. */
  function Step(st: ScanState, c: char): ScanState
  {
    if c == '"' then st.(inQuotes := !st.inQuotes)
    else if c == ',' && !st.inQuotes then ScanState(st.tokens + [st.current], "", st.inQuotes)
    else st.(current := st.current + [c])
  }

  /** The state after the loop has read all of `s`. */
  function ScanPrefix(s: string): ScanState
    decreases |s|
  {
    if s == [] then ScanState([], "", false)
    else Step(ScanPrefix(s[..|s| - 1]), s[|s| - 1])
  }

  /** The fields `parseCSVLine` returns: the finished ones and the last one. */
  function CsvFields(line: string): seq<string>
  {
    FieldsOf(ScanPrefix(line))
  }

  // ----- independent descriptions of the result -----

  /** Whether a quote is open after `s`: an odd number of '"' in it. */
  predicate OpenQuote(s: string)
    decreases |s|
  {
    if s == [] then false
    else if s[|s| - 1] == '"' then !OpenQuote(s[..|s| - 1])
    else OpenQuote(s[..|s| - 1])
  }

  /** The commas of `s` that are not inside a quoted section. */
  function UnquotedCommas(s: string): nat
    decreases |s|
  {
    if s == [] then 0
    else UnquotedCommas(s[..|s| - 1]) + (if s[|s| - 1] == ',' && !OpenQuote(s[..|s| - 1]) then 1 else 0)
  }

  /** `s` with every '"' removed. */
  function RemoveQuotes(s: string): (r: string)
    ensures '"' !in r
    decreases |s|
  {
    if s == [] then []
    else RemoveQuotes(s[..|s| - 1]) + (if s[|s| - 1] == '"' then [] else [s[|s| - 1]])
  }

  /** `s` with every '"' and every unquoted ',' removed. */
  function RemoveSeparators(s: string): string
    decreases |s|
  {
    if s == [] then []
    else
      var c := s[|s| - 1];
      RemoveSeparators(s[..|s| - 1]) +
        (if c == '"' || (c == ',' && !OpenQuote(s[..|s| - 1])) then [] else [c])
  }

  /** The fields laid end to end. */
  function Concat(parts: seq<string>): string
    decreases |parts|
  {
    if parts == [] then [] else Concat(parts[..|parts| - 1]) + parts[|parts| - 1]
  }

  /** The fields with `sep` between consecutive ones. */
  function Join(parts: seq<string>, sep: char): string
    requires |parts| > 0
    decreases |parts|
  {
    if |parts| == 1 then parts[0] else parts[0] + [sep] + Join(parts[1..], sep)
  }

  lemma {:induction false} JoinSnoc(parts: seq<string>, p: string, sep: char)
    requires |parts| > 0
    ensures Join(parts + [p], sep) == Join(parts, sep) + [sep] + p
    decreases |parts|
  {
    if |parts| == 1 {
      assert parts + [p] == [parts[0], p];
    } else {
      assert (parts + [p])[1..] == parts[1..] + [p];
      JoinSnoc(parts[1..], p, sep);
    }
  }

  predicate NoQuotes(parts: seq<string>)
  {
    forall k :: 0 <= k < |parts| ==> '"' !in parts[k]
  }

  /** The state's fields: the finished ones and the one being built. */
  function FieldsOf(st: ScanState): (fs: seq<string>)
    ensures |fs| == |st.tokens| + 1
  {
    st.tokens + [st.current]
  }

  /** The loop's `inQuotes` flag is open exactly after an odd number of quotes. */
  lemma {:induction false} ScanQuoteFlag(s: string)
    ensures ScanPrefix(s).inQuotes == OpenQuote(s)
    decreases |s|
  {
    if s != [] {
      ScanQuoteFlag(s[..|s| - 1]);
    }
  }

  /** One finished field per field-ending comma. */
  lemma {:induction false} ScanFieldCount(s: string)
    ensures |ScanPrefix(s).tokens| == UnquotedCommas(s)
    decreases |s|
  {
    if s != [] {
      ScanFieldCount(s[..|s| - 1]);
      ScanQuoteFlag(s[..|s| - 1]);
    }
  }

  /** No field ever receives a quote character. */
  lemma {:induction false} ScanNoQuotes(s: string)
    ensures NoQuotes(FieldsOf(ScanPrefix(s)))
    decreases |s|
  {
    if s != [] {
      var c := s[|s| - 1];
      ScanNoQuotes(s[..|s| - 1]);
      var st0 := ScanPrefix(s[..|s| - 1]);
      var fs0, fs := FieldsOf(st0), FieldsOf(ScanPrefix(s));
      if c == '"' {
        assert fs == fs0;
      } else if c == ',' && !st0.inQuotes {
        assert fs == fs0 + [""];
      } else {
        assert fs == st0.tokens + [st0.current + [c]];
        assert fs0[|fs0| - 1] == st0.current;
        assert '"' !in st0.current + [c];
        forall k | 0 <= k < |fs| ensures '"' !in fs[k] {
          if k < |st0.tokens| { assert fs[k] == fs0[k]; }
        }
      }
    }
  }

  /** Joined with commas, the fields are the text read so far without its quotes. */
  lemma {:induction false} ScanJoin(s: string)
    ensures Join(FieldsOf(ScanPrefix(s)), ',') == RemoveQuotes(s)
    decreases |s|
  {
    if s != [] {
      var init, c := s[..|s| - 1], s[|s| - 1];
      ScanJoin(init);
      var st0 := ScanPrefix(init);
      var fs0, fs := FieldsOf(st0), FieldsOf(ScanPrefix(s));
      if c == '"' {
        assert fs == fs0;
      } else if c == ',' && !st0.inQuotes {
        assert fs == fs0 + [""];
        JoinSnoc(fs0, "", ',');
      } else if st0.tokens == [] {
        assert fs == [st0.current + [c]];
      } else {
        assert fs == st0.tokens + [st0.current + [c]];
        JoinSnoc(st0.tokens, st0.current, ',');
        JoinSnoc(st0.tokens, st0.current + [c], ',');
      }
    }
  }

  /** Laid end to end, the fields are the text read so far without quotes and field-ending commas. */
  lemma {:induction false} ScanConcat(s: string)
    ensures Concat(FieldsOf(ScanPrefix(s))) == RemoveSeparators(s)
    decreases |s|
  {
    if s != [] {
      var init, c := s[..|s| - 1], s[|s| - 1];
      ScanConcat(init);
      ScanQuoteFlag(init);
      var st0 := ScanPrefix(init);
      var fs0, fs := FieldsOf(st0), FieldsOf(ScanPrefix(s));
      if c == '"' {
        assert fs == fs0;
      } else if c == ',' && !st0.inQuotes {
        assert fs == fs0 + [""];
        assert Concat(fs) == Concat(fs0) + "";
      } else {
        assert fs[..|fs| - 1] == st0.tokens == fs0[..|fs0| - 1];
      }
    }
  }

  /** Outside quotes a comma always ends a field, so a line without quotes
      yields comma-free fields. */
  lemma {:induction false} ScanNoCommas(s: string)
    requires '"' !in s
    ensures forall k :: 0 <= k < |FieldsOf(ScanPrefix(s))| ==> ',' !in FieldsOf(ScanPrefix(s))[k]
    decreases |s|
  {
    if s != [] {
      var init := s[..|s| - 1];
      assert '"' !in init by { assert forall k :: 0 <= k < |init| ==> init[k] == s[k]; }
      ScanNoCommas(init);
      ScanQuoteFlag(init);
      NoQuoteClosed(init);
      var c := s[|s| - 1];
      var st0 := ScanPrefix(init);
      var fs0, fs := FieldsOf(st0), FieldsOf(ScanPrefix(s));
      assert c != '"';
      if c == ',' {
        assert fs == fs0 + [""];
      } else {
        assert fs == st0.tokens + [st0.current + [c]];
        assert fs0[|fs0| - 1] == st0.current;
        assert ',' !in st0.current + [c];
        forall k | 0 <= k < |fs| ensures ',' !in fs[k] {
          if k < |st0.tokens| { assert fs[k] == fs0[k]; }
        }
      }
    }
  }

  lemma {:induction false} NoQuoteClosed(s: string)
    requires '"' !in s
    ensures !OpenQuote(s)
    decreases |s|
  {
    if s != [] {
      var init := s[..|s| - 1];
      assert '"' !in init by { assert forall k :: 0 <= k < |init| ==> init[k] == s[k]; }
      NoQuoteClosed(init);
    }
  }

  /** A line joined from comma-free pieces splits on every comma back into those pieces. */
  lemma {:induction false} SplitAllJoin(parts: seq<string>, sep: char)
    requires |parts| > 0
    requires forall k :: 0 <= k < |parts| ==> sep !in parts[k]
    ensures SplitAll(Join(parts, sep), sep) == parts
    decreases |parts|
  {
    if |parts| > 1 {
      var a, rest := parts[0], Join(parts[1..], sep);
      var s := a + [sep] + rest;
      assert s == Join(parts, sep);
      assert s[|a|] == sep && s[..|a|] == a;
      var i := FirstIndex(s, sep);
      assert i == |a|;
      assert s[i + 1..] == rest;
      SplitAllJoin(parts[1..], sep);
    }
  }

  // ----- the loop itself -----

  /** `parseCSVLine(line)`. */
  method ParseCsvLine(line: string) returns (fields: seq<string>)
    ensures fields == CsvFields(line)
    ensures |fields| == UnquotedCommas(line) + 1
    ensures forall k :: 0 <= k < |fields| ==> '"' !in fields[k]
    ensures Join(fields, ',') == RemoveQuotes(line)
    ensures Concat(fields) == RemoveSeparators(line)
  {
    var tokens: seq<string> := [];
    var sb: string := "";
    var inQuotes := false;
    for i := 0 to |line|
      invariant ScanState(tokens, sb, inQuotes) == ScanPrefix(line[..i])
    {
      var c := line[i];
      assert line[..i + 1][..i] == line[..i];
      if c == '"' {
        inQuotes := !inQuotes;
      } else if c == ',' && !inQuotes {
        tokens := tokens + [sb];
        sb := "";
      } else {
        sb := sb + [c];
      }
    }
    assert line[..|line|] == line;
    fields := tokens + [sb];
    ScanFieldCount(line);
    ScanNoQuotes(line);
    ScanJoin(line);
    ScanConcat(line);
  }

  // ----- consequences -----

  /** There is always at least one field, and the empty line is one empty field. */
  lemma CsvFieldsNonEmpty(line: string)
    ensures |CsvFields(line)| >= 1
    ensures CsvFields("") == [""]
  {
  }

  /** Without quotes the splitter is a plain split on every comma, empty
      pieces (trailing ones too) included. */
  lemma CsvFieldsWithoutQuotes(line: string)
    requires '"' !in line
    ensures CsvFields(line) == SplitAll(line, ',')
  {
    ScanJoin(line);
    ScanNoCommas(line);
    RemoveQuotesNoop(line);
    SplitAllJoin(CsvFields(line), ',');
  }

  lemma {:induction false} RemoveQuotesNoop(s: string)
    requires '"' !in s
    ensures RemoveQuotes(s) == s
    decreases |s|
  {
    if s != [] {
      assert '"' !in s[..|s| - 1] by { assert forall k :: 0 <= k < |s| - 1 ==> s[..|s| - 1][k] == s[k]; }
      RemoveQuotesNoop(s[..|s| - 1]);
    }
  }

  /** A quoted comma is data: a,"b,c" gives the two fields a and b,c. */
  lemma CsvQuotedComma()
    ensures CsvFields("a,\"b,c\"") == ["a", "b,c"]
  {
    var s := "a,\"b,c\"";
    assert s[..2][..1] == s[..1] && s[..3][..2] == s[..2] && s[..4][..3] == s[..3];
    assert s[..5][..4] == s[..4] && s[..6][..5] == s[..5] && s[..7][..6] == s[..6];
    assert ScanPrefix(s[..1]) == ScanState([], "a", false);
    assert ScanPrefix(s[..2]) == ScanState(["a"], "", false);
    assert ScanPrefix(s[..3]) == ScanState(["a"], "", true);
    assert ScanPrefix(s[..4]) == ScanState(["a"], "b", true);
    assert ScanPrefix(s[..5]) == ScanState(["a"], "b,", true);
    assert ScanPrefix(s[..6]) == ScanState(["a"], "b,c", true);
    assert s[..7] == s;
  }

  /** Trailing empty fields are kept: "1,," gives three fields. */
  lemma CsvTrailingEmptyFields()
    ensures CsvFields("1,,") == ["1", "", ""]
  {
    var s := "1,,";
    assert s[..2][..1] == s[..1] && s[..3][..2] == s[..2];
    assert ScanPrefix(s[..1]) == ScanState([], "1", false);
    assert ScanPrefix(s[..2]) == ScanState(["1"], "", false);
    assert s[..3] == s;
  }
}
