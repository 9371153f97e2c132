/** Property access on JavaScript values and `get2`, which follows a path of
    keys through nested objects and arrays. */
module Paths {
  import opened Nullable

  /** A JavaScript value as seen by property access: objects and arrays with
      their own properties, strings with their characters, other primitives
      with none. */
  datatype Json =
    | Undefined
    | JNull
    | Bool(b: bool)
    | Num(n: real)
    | Str(s: string)
    | Arr(items: seq<Json>)
    | Obj(fields: map<string, Json>)

  /** A key as written at a call site: a property name or a numeric index. */
  datatype Key = Name(name: string) | Index(i: int)

  /** The result of evaluating an access: a value, or the `TypeError` thrown
      when reading a property of `null` or `undefined`. */
  datatype Outcome = Returned(value: Json) | ThrewTypeError

  function DigitChar(d: nat): char
    requires d < 10
  {
    (('0' as int) + d) as char
  }

  predicate IsDigit(c: char)
  {
    '0' <= c <= '9'
  }

  function DigitValue(c: char): (d: nat)
    requires IsDigit(c)
    ensures d < 10 && DigitChar(d) == c
  {
    (c as int) - ('0' as int)
  }

  /** Decimal notation of a natural number, without leading zeros. */
  function NatText(n: nat): (s: string)
    decreases n
  {
    if n < 10 then [DigitChar(n)] else NatText(n / 10) + [DigitChar(n % 10)]
  }

  /** JavaScript's conversion of a numeric key to a property name. */
  function PropertyName(k: Key): string
  {
    match k
    case Name(s) => s
    case Index(i) => if i < 0 then "-" + NatText(-i) else NatText(i)
  }

  predicate AllDigits(s: string)
  {
    forall i :: 0 <= i < |s| ==> IsDigit(s[i])
  }

  /** The number a string of digits denotes. */
  function DigitsValue(s: string): nat
    requires AllDigits(s)
  {
    if |s| == 0 then 0 else DigitsValue(s[..|s| - 1]) * 10 + DigitValue(s[|s| - 1])
  }

  /** The array index a property name denotes: the canonical decimal
      spelling of a natural number, so "007" and "" denote none. */
  function ArrayIndex(s: string): Nullable<nat>
  {
    if |s| == 0 || !AllDigits(s) || (|s| > 1 && s[0] == '0') then Null
    else NonNull(DigitsValue(s))
  }

  /** The property name that reads the length of an array or a string. */
  predicate ReadsLength(name: string)
  {
    name == "length"
  }

  /** Reads property `k` of `o`, as `o[k]` does. Objects have their fields;
      arrays and strings have `length` and their elements or characters;
      booleans and numbers have no own properties. */
  function Access(o: Json, k: Key): (r: Outcome)
    ensures r == ThrewTypeError <==> o.Undefined? || o.JNull?
    ensures o.Obj? && PropertyName(k) in o.fields ==> r == Returned(o.fields[PropertyName(k)])
    ensures o.Obj? && PropertyName(k) !in o.fields ==> r == Returned(Undefined)
    ensures o.Arr? && k.Index? && 0 <= k.i < |o.items| ==> r == Returned(o.items[k.i])
    ensures o.Arr? && ReadsLength(PropertyName(k)) ==> r == Returned(Num(|o.items| as real))
    ensures o.Arr? && !ReadsLength(PropertyName(k))
            && (ArrayIndex(PropertyName(k)).Null? || ArrayIndex(PropertyName(k)).value >= |o.items|)
            ==> r == Returned(Undefined)
    ensures o.Str? && k.Index? && 0 <= k.i < |o.s| ==> r == Returned(Str([o.s[k.i]]))
    ensures o.Str? && ReadsLength(PropertyName(k)) ==> r == Returned(Num(|o.s| as real))
    ensures o.Str? && !ReadsLength(PropertyName(k))
            && (ArrayIndex(PropertyName(k)).Null? || ArrayIndex(PropertyName(k)).value >= |o.s|)
            ==> r == Returned(Undefined)
    ensures o.Bool? || o.Num? ==> r == Returned(Undefined)
  {
    var name := PropertyName(k);
    match o
    case Undefined => ThrewTypeError
    case JNull => ThrewTypeError
    case Obj(fields) => Returned(if name in fields then fields[name] else Undefined)
    case Arr(items) =>
      IndexNameRoundTrip(if k.Index? then k.i else -1);
      var idx := ArrayIndex(name);
      Returned(if ReadsLength(name) then Num(|items| as real)
               else if idx.NonNull? && idx.value < |items| then items[idx.value]
               else Undefined)
    case Str(s) =>
      IndexNameRoundTrip(if k.Index? then k.i else -1);
      var idx := ArrayIndex(name);
      Returned(if ReadsLength(name) then Num(|s| as real)
               else if idx.NonNull? && idx.value < |s| then Str([s[idx.value]])
               else Undefined)
    case _ => Returned(Undefined)
  }

  /** A key is read through its property name only: `o[0]` and `o["0"]`
      read the same property of every value. */
  lemma AccessByName(o: Json, k: Key)
    ensures Access(o, k) == Access(o, Name(PropertyName(k)))
    ensures Access(o, Index(0)) == Access(o, Name("0"))
  {
    assert NatText(0) == "0";
  }

  /** A non-negative index names itself as an array index. */
  lemma IndexNameRoundTrip(i: int)
    ensures 0 <= i ==> ArrayIndex(PropertyName(Index(i))) == NonNull(i)
  {
    if 0 <= i {
      NatTextRoundTrip(i);
    }
  }

  lemma {:induction false} NatTextDigits(n: nat)
    ensures |NatText(n)| > 0 && AllDigits(NatText(n))
    ensures n >= 10 ==> NatText(n)[0] != '0'
    decreases n
  {
    if n >= 10 {
      NatTextDigits(n / 10);
      var s := NatText(n / 10) + [DigitChar(n % 10)];
      assert s[0] == NatText(n / 10)[0];
      if n / 10 < 10 {
        assert NatText(n / 10) == [DigitChar(n / 10)];
      }
    }
  }

  /** Reading back the decimal spelling of `n` gives `n`. */
  lemma {:induction false} NatTextRoundTrip(n: nat)
    ensures ArrayIndex(NatText(n)) == NonNull(n)
    decreases n
  {
    NatTextDigits(n);
    if n < 10 {
      var s := NatText(n);
      assert s[..0] == [];
      assert DigitsValue(s) == DigitValue(s[0]);
    } else {
      var s := NatText(n);
      assert s[..|s| - 1] == NatText(n / 10);
      NatTextRoundTrip(n / 10);
      NatTextDigits(n / 10);
    }
  }

  lemma {:induction false} LeadingDigitBound(s: string)
    requires |s| > 0 && AllDigits(s)
    ensures DigitsValue(s) >= DigitValue(s[0])
    decreases |s|
  {
    if |s| > 1 {
      var p := s[..|s| - 1];
      assert p[0] == s[0];
      LeadingDigitBound(p);
    }
  }

  /** Every canonical index name is the decimal spelling of its index, so
      spelling and reading are inverse on canonical names. */
  lemma {:induction false} ArrayIndexCanonical(s: string)
    requires ArrayIndex(s).NonNull?
    ensures NatText(ArrayIndex(s).value) == s
    decreases |s|
  {
    var n := DigitsValue(s);
    if |s| == 1 {
      assert s[..0] == [];
      assert DigitsValue(s) == DigitsValue(s[..0]) * 10 + DigitValue(s[0]);
      assert NatText(n) == [DigitChar(n)];
    } else {
      var p := s[..|s| - 1];
      assert p[0] == s[0];
      assert ArrayIndex(p).NonNull?;
      ArrayIndexCanonical(p);
      LeadingDigitBound(p);
      var m := DigitsValue(p);
      var d := DigitValue(s[|s| - 1]);
      assert n == m * 10 + d;
      assert n / 10 == m && n % 10 == d;
      assert s == p + [s[|s| - 1]];
    }
  }

  /** Continues a path from an outcome: a thrown error stays thrown. */
  function Then(r: Outcome, keys: seq<Key>): Outcome
  {
    match r
    case ThrewTypeError => ThrewTypeError
    case Returned(v) => Get2(v, keys)
  }

  /** `get2(o, ...keys)`: starting from `o`, replaces the current value by its
      property for each key in turn. */
  function Get2(o: Json, keys: seq<Key>): Outcome
    decreases |keys|
  {
    if |keys| == 0 then Returned(o)
    else
      match Get2(o, keys[..|keys| - 1])
      case ThrewTypeError => ThrewTypeError
      case Returned(v) => Access(v, keys[|keys| - 1])
  }

  /** The last key is read from the value the other keys reach. */
  lemma Get2Last(o: Json, keys: seq<Key>)
    requires |keys| > 0
    ensures Get2(o, keys) == match Get2(o, keys[..|keys| - 1])
                             case ThrewTypeError => ThrewTypeError
                             case Returned(v) => Access(v, keys[|keys| - 1])
  {
  }

  /** `get2(o)` with no keys is `o`. */
  lemma Get2NoKeys(o: Json)
    ensures Get2(o, []) == Returned(o)
  {
  }

  /** `get2(o, k, ...ks)` is `get2(o[k], ...ks)`. */
  lemma {:induction false} Get2FirstKey(o: Json, k: Key, ks: seq<Key>)
    ensures Get2(o, [k] + ks) == Then(Access(o, k), ks)
    decreases |ks|
  {
    if |ks| == 0 {
      assert ([k] + ks)[..0] == [];
    } else {
      var n := |ks|;
      assert ([k] + ks)[..n] == [k] + ks[..n - 1];
      Get2FirstKey(o, k, ks[..n - 1]);
    }
  }

  /** Following a path in two pieces is following it at once. */
  lemma {:induction false} Get2Append(o: Json, a: seq<Key>, b: seq<Key>)
    ensures Get2(o, a + b) == Then(Get2(o, a), b)
    decreases |b|
  {
    if |b| == 0 {
      assert a + b == a;
    } else {
      assert (a + b)[..|a + b| - 1] == a + b[..|b| - 1];
      Get2Append(o, a, b[..|b| - 1]);
    }
  }

  /** `get2` as the source writes it: a `forEach` over the keys that
      reassigns the running result, stopping at the first throw. */
  method Get2Loop(o: Json, keys: seq<Key>) returns (r: Outcome)
    ensures r == Get2(o, keys)
  {
    r := Returned(o);
    var i := 0;
    while i < |keys|
      invariant 0 <= i <= |keys|
      invariant r == Get2(o, keys[..i])
    {
      if r.ThrewTypeError? {
        Get2Append(o, keys[..i], keys[i..]);
        assert keys[..i] + keys[i..] == keys;
        return;
      }
      Get2Last(o, keys[..i + 1]);
      assert keys[..i + 1][..i] == keys[..i];
      r := Access(r.value, keys[i]);
      i := i + 1;
    }
    assert keys[..i] == keys;
  }

  /** The activity log the source builds: dates are objects with no own
      properties. */
  const ActivityLog: Json :=
    Obj(map["lastEvent" := Obj(map[]),
            "events" := Arr([Obj(map["id" := Str("100"), "timestamp" := Obj(map[]), "type" := Str("Read")])])])

  /** `get2(activityLog, 'events', 0, 'type')` is "Read", and a path whose
      first key is missing reads `undefined` and then throws. */
  lemma Get2ActivityLog()
    ensures Get2(ActivityLog, [Name("events"), Index(0), Name("type")]) == Returned(Str("Read"))
    ensures Get2(ActivityLog, [Name("missing"), Name("type")]) == ThrewTypeError
  {
    var ks := [Name("events"), Index(0), Name("type")];
    var events := ActivityLog.fields["events"];
    assert Get2(ActivityLog, ks[..1]) == Returned(events) by {
      assert ks[..1][..0] == [];
    }
    var entry := events.items[0];
    assert Get2(ActivityLog, ks[..2]) == Returned(entry) by {
      assert ks[..2][..1] == ks[..1];
      IndexNameRoundTrip(0);
    }
    assert Get2(ActivityLog, ks) == Returned(Str("Read")) by {
      assert ks[..2] == ks[..|ks| - 1];
    }
    var bad := [Name("missing"), Name("type")];
    assert bad[..1] == [Name("missing")];
  }
}
