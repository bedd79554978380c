/**
 * The values a Blueprint expression evaluates to (the Kotlin `Any` the
 * evaluator stores in its variable table and member maps), and the 32-bit
 * integer arithmetic of Kotlin's `Int`.
 */
module Values {
  import opened Wrappers

  const IntMin: int := -0x8000_0000
  const IntMax: int := 0x7FFF_FFFF

  /** Kotlin `Int` range. */
  predicate IsInt32(n: int) {
    IntMin <= n <= IntMax
  }

  /** Kotlin `Int` addition: the mathematical sum wrapped into 32 bits. */
  function Wrap32(n: int): (r: int)
    ensures IsInt32(r)
    ensures (r - n) % 0x1_0000_0000 == 0
    ensures IsInt32(n) ==> r == n
  {
    var m := (n - IntMin) % 0x1_0000_0000;
    m + IntMin
  }

  /**
   * An evaluated value. `Unknown` is the opaque `Any()` the evaluator
   * produces for anything it cannot evaluate.
   */
  datatype AnyValue =
    | Str(s: string)
    | Int(i: int)
    | Boolean(b: bool)
    | List(items: seq<AnyValue>)
    | Obj(fields: map<string, AnyValue>)
    | Unknown

  /** The strings of a list, others dropped (Kotlin `mapNotNull { it as? String }`). */
  function Strings(items: seq<AnyValue>): (r: seq<string>)
    ensures |r| <= |items|
    ensures forall s :: s in r <==> Str(s) in items
  {
    if items == [] then []
    else (if items[0].Str? then [items[0].s] else []) + Strings(items[1..])
  }

  /** Splitting a list splits its strings the same way. */
  lemma {:induction false} StringsAppend(a: seq<AnyValue>, b: seq<AnyValue>)
    ensures Strings(a + b) == Strings(a) + Strings(b)
    decreases |a|
  {
    if a == [] {
      assert a + b == b;
    } else {
      assert (a + b)[0] == a[0];
      assert (a + b)[1..] == a[1..] + b;
      StringsAppend(a[1..], b);
    }
  }

  /** A list of strings keeps all of them, in order. */
  lemma {:induction false} StringsOfStrings(ss: seq<string>)
    ensures Strings(StrList(ss)) == ss
    decreases |ss|
  {
    if ss != [] {
      assert StrList(ss)[1..] == StrList(ss[1..]);
      StringsOfStrings(ss[1..]);
    }
  }

  /** A list of string values. */
  function StrList(ss: seq<string>): (r: seq<AnyValue>)
    ensures |r| == |ss| && forall i :: 0 <= i < |ss| ==> r[i] == Str(ss[i])
  {
    if ss == [] then [] else [Str(ss[0])] + StrList(ss[1..])
  }

  /** Kotlin `value as? List<*>`, then only its strings. */
  function StringList(v: Option<AnyValue>): (r: Option<seq<string>>)
    ensures r.Some? <==> v.Some? && v.value.List?
    ensures r.Some? ==> r.value == Strings(v.value.items)
  {
    if v.Some? && v.value.List? then Some(Strings(v.value.items)) else None
  }

  /** The member `key` of a map, or none (Kotlin `values[key]`). */
  function Get(m: map<string, AnyValue>, key: string): Option<AnyValue> {
    if key in m then Some(m[key]) else None
  }

  predicate IsDigit(c: char) {
    '0' <= c <= '9'
  }

  predicate AllDigits(s: string) {
    forall i :: 0 <= i < |s| ==> IsDigit(s[i])
  }

  /** The decimal value of a string of digits. */
  function DigitsValue(s: string): (n: nat)
    requires AllDigits(s)
  {
    if s == [] then 0
    else
      assert IsDigit(s[|s| - 1]);
      DigitsValue(s[..|s| - 1]) * 10 + (s[|s| - 1] as int - '0' as int)
  }

  /**
   * Kotlin `toIntOrNull()` over ASCII: an optional sign, at least one digit,
   * and a value that fits in an `Int`.
   */
  function ToIntOrNull(s: string): (r: Option<int>)
    ensures r.Some? ==> IsInt32(r.value)
    ensures r.Some? ==> |s| > 0 && (IsDigit(s[0]) || ((s[0] == '-' || s[0] == '+') && |s| > 1))
  {
    if |s| == 0 then None
    else
      var neg := s[0] == '-';
      var digits := if s[0] == '-' || s[0] == '+' then s[1..] else s;
      if |digits| == 0 || !AllDigits(digits) then None
      else
        var d: int := DigitsValue(digits);
        var n := if neg then -d else d;
        if IsInt32(n) then Some(n) else None
  }

  /** Digits alone read back as their decimal value, when it fits. */
  lemma ToIntOrNullDigits(s: string)
    requires |s| > 0 && AllDigits(s)
    ensures ToIntOrNull(s) == if DigitsValue(s) <= IntMax then Some(DigitsValue(s)) else None
  {
  }

  /** Text with a non-digit after the optional sign is not a number. */
  lemma ToIntOrNullRejects(s: string, i: nat)
    requires 0 < i < |s| && !IsDigit(s[i])
    ensures ToIntOrNull(s) == None
  {
    var digits := if s[0] == '-' || s[0] == '+' then s[1..] else s;
    var j := if s[0] == '-' || s[0] == '+' then i - 1 else i;
    assert 0 <= j < |digits| && digits[j] == s[i];
    assert !AllDigits(digits);
  }
}
