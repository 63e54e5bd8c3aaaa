/** `EmployeeStatus`: the four employment statuses, each with an upper-case
    constant name and a display name, and the lenient lookup from text. */
module EmployeeStatusEnum {
  import opened Wrappers
  import opened JavaLang

  datatype EmployeeStatus = Regular | Probationary | Contractual | PartTime
  {
    /** `name()`: the enum constant's identifier. */
    function Name(): string
    {
      match this
      case Regular => "REGULAR"
      case Probationary => "PROBATIONARY"
      case Contractual => "CONTRACTUAL"
      case PartTime => "PART_TIME"
    }

    /** `getDisplayName()`. */
    function DisplayName(): string
    {
      match this
      case Regular => "Regular"
      case Probationary => "Probationary"
      case Contractual => "Contractual"
      case PartTime => "Part-Time"
    }

    /** `toString()`: the display name, which `fromString` reads back as this status. */
    function ToString(): (s: string)
      ensures s == DisplayName()
      ensures FromString(Some(s)) == this
    {
      FromStringRoundTrip(this);
      DisplayName()
    }
  }

  /** `values()`, in declaration order. */
  const Values: seq<EmployeeStatus> := [Regular, Probationary, Contractual, PartTime]

  /** The test `fromString` applies to each status. */
  predicate Matches(e: EmployeeStatus, s: string)
  {
    EqualsIgnoreCase(e.Name(), s) || EqualsIgnoreCase(e.DisplayName(), s)
  }

  /** The loop of `fromString`: the first status in `vs` that matches, else REGULAR. */
  function FirstMatch(vs: seq<EmployeeStatus>, s: string): (r: EmployeeStatus)
    ensures (exists i :: 0 <= i < |vs| && Matches(vs[i], s)) ==> r in vs && Matches(r, s)
    ensures (forall i :: 0 <= i < |vs| ==> !Matches(vs[i], s)) ==> r == Regular
  {
    if |vs| == 0 then Regular
    else if Matches(vs[0], s) then vs[0]
    else FirstMatch(vs[1..], s)
  }

  /** `fromString(status)`: null gives REGULAR; otherwise the first status
      whose name or display name equals the text ignoring case; REGULAR when
      none does. */
  function FromString(status: Option<string>): (r: EmployeeStatus)
    ensures status.None? ==> r == Regular
    ensures status.Some? && (exists e :: Matches(e, status.value)) ==> Matches(r, status.value)
    ensures status.Some? && (forall e :: !Matches(e, status.value)) ==> r == Regular
  {
    if status.None? then Regular
    else
      FirstMatchValues(status.value);
      FirstMatch(Values, status.value)
  }

  /** Every status occurs in `values()`, so a text matching any status is matched by the loop. */
  lemma FirstMatchValues(s: string)
    ensures (exists e :: Matches(e, s)) ==> Matches(FirstMatch(Values, s), s)
  {
    if exists e :: Matches(e, s) {
      var e :| Matches(e, s);
      match e
      case Regular => assert Matches(Values[0], s);
      case Probationary => assert Matches(Values[1], s);
      case Contractual => assert Matches(Values[2], s);
      case PartTime => assert Matches(Values[3], s);
    }
  }

  /** No text matches two different statuses: names and display names of
      different statuses differ in length. */
  lemma MatchIsUnique(e1: EmployeeStatus, e2: EmployeeStatus, s: string)
    requires Matches(e1, s) && Matches(e2, s)
    ensures e1 == e2
  {
  }

  /** So `fromString` returns the status a text matches, whichever one it is. */
  lemma FromStringFindsMatch(e: EmployeeStatus, s: string)
    requires Matches(e, s)
    ensures FromString(Some(s)) == e
  {
    var r := FromString(Some(s));
    MatchIsUnique(r, e, s);
  }

  lemma EqualsIgnoreCaseReflexive(s: string)
    ensures EqualsIgnoreCase(s, s)
  {
  }

  /** Every status is recovered from its display name and from its constant name. */
  lemma FromStringRoundTrip(e: EmployeeStatus)
    ensures FromString(Some(e.DisplayName())) == e
    ensures FromString(Some(e.Name())) == e
  {
    EqualsIgnoreCaseReflexive(e.DisplayName());
    EqualsIgnoreCaseReflexive(e.Name());
    FromStringFindsMatch(e, e.DisplayName());
    FromStringFindsMatch(e, e.Name());
  }

  /** Case does not matter: "part-time" names PART_TIME through its display name. */
  lemma FromStringLowerCase()
    ensures FromString(Some("part-time")) == PartTime
  {
    assert Matches(PartTime, "part-time");
    FromStringFindsMatch(PartTime, "part-time");
  }

  /** "part_time" names PART_TIME through its constant name. */
  lemma FromStringConstantName()
    ensures FromString(Some("part_time")) == PartTime
  {
    assert Matches(PartTime, "part_time");
    FromStringFindsMatch(PartTime, "part_time");
  }

  /** Text naming no status falls back to REGULAR. */
  lemma FromStringUnknown()
    ensures FromString(Some("Intern")) == Regular
  {
    forall e ensures !Matches(e, "Intern") {
      assert |e.Name()| != 6 && |e.DisplayName()| != 6;
    }
  }
}
