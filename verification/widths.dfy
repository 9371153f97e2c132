/** Narrowing by control flow: parsing a CSS-like width such as "12px" or
    "50%" into a unit and a numeric value. */
module Widths {
  import opened Nullable

  /** The three units a width may carry. */
  datatype Unit = Cm | Px | Percent

  /** The string literal each unit is written as. */
  function Text(u: Unit): string
  {
    match u
    case Cm => "cm"
    case Px => "px"
    case Percent => "%"
  }

  /** The unit list, in the order the parser tries it. */
  const Units: seq<Unit> := [Cm, Px, Percent]

  /** JavaScript's `value.endsWith(suffix)`. */
  predicate EndsWith(value: string, suffix: string)
  {
    |suffix| <= |value| && value[|value| - |suffix|..] == suffix
  }

  /** `u` is the first unit of `us` that `value` ends with. */
  ghost predicate FirstMatch(value: string, us: seq<Unit>, u: Unit)
  {
    exists i :: 0 <= i < |us| && us[i] == u && EndsWith(value, Text(u))
                && forall j :: 0 <= j < i ==> !EndsWith(value, Text(us[j]))
  }

  /** Scans `us` in order for a unit that `value` ends with. */
  function FindUnit(value: string, us: seq<Unit>): (r: Nullable<Unit>)
    ensures r.Null? <==> forall i :: 0 <= i < |us| ==> !EndsWith(value, Text(us[i]))
    ensures r.NonNull? ==> FirstMatch(value, us, r.value)
  {
    if |us| == 0 then Null
    else if EndsWith(value, Text(us[0])) then
      assert FirstMatch(value, us, us[0]) by {
        assert 0 < |us| && EndsWith(value, Text(us[0]));
      }
      NonNull(us[0])
    else
      var r := FindUnit(value, us[1..]);
      if r.NonNull? then
        assert FirstMatch(value, us, r.value) by {
          var i :| 0 <= i < |us[1..]| && us[1..][i] == r.value && EndsWith(value, Text(r.value))
                   && forall j :: 0 <= j < i ==> !EndsWith(value, Text(us[1..][j]));
          assert us[i + 1] == r.value;
          forall j | 0 <= j < i + 1
            ensures !EndsWith(value, Text(us[j]))
          {
            if j > 0 { assert us[j] == us[1..][j - 1]; }
          }
        }
        r
      else
        assert forall i :: 0 <= i < |us| ==> !EndsWith(value, Text(us[i])) by {
          forall i | 0 <= i < |us|
            ensures !EndsWith(value, Text(us[i]))
          {
            if i > 0 { assert us[i] == us[1..][i - 1]; }
          }
        }
        r
  }

  /** `parseUnit`: the first unit of `Units`, in list order, that the input
      ends with, or `Null` when it ends with none of them. */
  function ParseUnit(value: string): (r: Nullable<Unit>)
    ensures r.Null? <==> forall i :: 0 <= i < |Units| ==> !EndsWith(value, Text(Units[i]))
    ensures r.NonNull? ==> r.value in Units && EndsWith(value, Text(r.value))
    ensures r.NonNull? ==> FirstMatch(value, Units, r.value)
  {
    FindUnit(value, Units)
  }

  /** `parseUnit` as the source writes it: a loop over the unit list that
      returns on the first suffix match. */
  method ParseUnitLoop(value: string) returns (r: Nullable<Unit>)
    ensures r == ParseUnit(value)
  {
    var i := 0;
    while i < |Units|
      invariant 0 <= i <= |Units|
      invariant forall j :: 0 <= j < i ==> !EndsWith(value, Text(Units[j]))
    {
      if EndsWith(value, Text(Units[i])) {
        UnitSuffixesExclusive(value);
        return NonNull(Units[i]);
      }
      i := i + 1;
    }
    return Null;
  }

  /** No string ends with two different units: "cm", "px" and "%" end in
      distinct characters. So the list order never decides the answer. */
  lemma UnitSuffixesExclusive(value: string)
    ensures forall u, v :: EndsWith(value, Text(u)) && EndsWith(value, Text(v)) ==> u == v
  {
    forall u, v | EndsWith(value, Text(u)) && EndsWith(value, Text(v))
      ensures u == v
    {
      assert value[|value| - 1] == Text(u)[|Text(u)| - 1];
      assert value[|value| - 1] == Text(v)[|Text(v)| - 1];
    }
  }

  /** The number a width was written with, in a unit. */
  datatype Width = Width(unit: Unit, value: real)

  /** The argument of `parseWidth`: `number | string | null | undefined`. */
  datatype WidthInput = NullInput | UndefinedInput | NumberInput(n: real) | StringInput(s: string)

  /** `parseWidth`. `parseFloat` is JavaScript's number parser, a parameter here. */
  function ParseWidth(width: WidthInput, parseFloat: string -> real): (r: Nullable<Width>)
    ensures (width.NullInput? || width.UndefinedInput?) ==> r == Null
    ensures width.NumberInput? ==> r == NonNull(Width(Px, width.n))
    ensures width.StringInput? ==> (r.Null? <==> ParseUnit(width.s).Null?)
    ensures width.StringInput? && r.NonNull? ==>
              NonNull(r.value.unit) == ParseUnit(width.s) && r.value.value == parseFloat(width.s)
  {
    match width
    case NullInput => Null
    case UndefinedInput => Null
    case NumberInput(n) => NonNull(Width(Px, n))
    case StringInput(s) =>
      var unit := ParseUnit(s);
      if unit.NonNull? then NonNull(Width(unit.value, parseFloat(s))) else Null
  }

  /** A string width parses exactly when it ends with one of the units, and
      then carries that unit. */
  lemma ParseWidthStringUnit(s: string, parseFloat: string -> real, u: Unit)
    ensures (exists w :: ParseWidth(StringInput(s), parseFloat) == NonNull(w) && w.unit == u)
            <==> EndsWith(s, Text(u))
  {
    UnitSuffixesExclusive(s);
    if EndsWith(s, Text(u)) {
      var r := ParseUnit(s);
      assert u in Units;
      assert r.NonNull?;
      var w := Width(r.value, parseFloat(s));
      assert ParseWidth(StringInput(s), parseFloat) == NonNull(w);
    }
  }

  /** Example inputs: each unit is recognised at the end of a width. */
  lemma ParseUnitExamples()
    ensures ParseUnit("12px") == NonNull(Px)
    ensures ParseUnit("3cm") == NonNull(Cm)
    ensures ParseUnit("50%") == NonNull(Percent)
  {
    assert "12px"[2..] == "px";
    assert !EndsWith("12px", "cm") by { assert "12px"[2] != "cm"[0]; }
    assert "3cm"[1..] == "cm";
    assert "50%"[2..] == "%";
    assert !EndsWith("50%", "cm") by { assert "50%"[1] != "cm"[0]; }
    assert !EndsWith("50%", "px") by { assert "50%"[1] != "px"[0]; }
  }

  /** Example inputs: no unit, and the empty string, give `Null`. */
  lemma ParseUnitNullExamples()
    ensures ParseUnit("12em") == Null
    ensures ParseUnit("") == Null
  {
    assert !EndsWith("12em", "cm") by { assert "12em"[2] != "cm"[0]; }
    assert !EndsWith("12em", "px") by { assert "12em"[2] != "px"[0]; }
    assert !EndsWith("12em", "%") by { assert "12em"[3] != "%"[0]; }
  }
}
