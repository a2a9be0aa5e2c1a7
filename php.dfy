/**
 * PHP values as the query builder sees them: ordered arrays with int or
 * string keys, scalars, raw SQL fragments and other objects, together with
 * the handful of PHP conversions and tests (empty, is_numeric, string casts,
 * array reads and writes) that the builder relies on.
 */
module Php {

  /** Array keys. PHP stores a canonical decimal string key as an int key. */
  datatype Key = IntKey(i: int) | StrKey(s: string)

  /** The words a pre-tokenised fragment may put in front of `<table>`. */
  datatype TableKeyword = KwFrom | KwTable | KwInto | KwUpdate | KwJoin | KwTableIfExists

  /**
   * A raw fragment's text, already split into tokens: plain text, a
   * `KEYWORD <name>` table reference, a `<name>` column reference and a
   * `:name` parameter reference (left as written in the SQL).
   */
  datatype FragToken =
    | FText(text: string)
    | FTable(keyword: TableKeyword, name: string)
    | FColumn(name: string)
    | FParam(name: string)

  /** A raw fragment: its text and the parameters it binds by name. */
  datatype Fragment = Fragment(tokens: seq<FragToken>, params: seq<(string, Value)>)

  datatype Value =
    | Null
    | Bool(b: bool)
    | Int(i: int)
    | Str(s: string)
    | Arr(entries: seq<(Key, Value)>)
    | Raw(frag: Fragment)
    | Obj(cls: string)

  /** The exceptions the builder raises, by kind. */
  datatype Error =
    | InvalidTable(name: string)
    | InvalidColumn(name: string)
    | InvalidOperator(column: string, op: string)
    | NoReplacementColumns
    | TransactionActive
    | JoinWildcard
    | TypeError(what: string)
    | DriverError(msg: string)
    | Thrown(msg: string)

  datatype Result<+T> = Ok(value: T) | Err(error: Error) {
    predicate IsFailure() { Err? }
    function PropagateFailure<U>(): Result<U> requires Err? { Err(error) }
    function Extract(): T requires Ok? { value }
  }

  datatype Option<+T> = None | Some(value: T)

  // ---------------------------------------------------------------------
  // Characters

  /** `\p{L}`: ASCII letters, and every character outside ASCII. */
  predicate IsLetter(c: char) { ('a' <= c <= 'z') || ('A' <= c <= 'Z') || c > '\U{7F}' }

  /** `\p{N}` restricted to ASCII digits. */
  predicate IsDigit(c: char) { '0' <= c <= '9' }

  /** `[\p{L}_]` */
  predicate IsNameStart(c: char) { IsLetter(c) || c == '_' }

  /** `[\p{L}\p{N}@$#\-_]` */
  predicate IsNameChar(c: char) { IsLetter(c) || IsDigit(c) || c == '@' || c == '$' || c == '#' || c == '-' || c == '_' }

  /** `\s` */
  predicate IsSpace(c: char) { c == ' ' || c == '\t' || c == '\n' || c == '\r' || c == '\U{0B}' || c == '\U{0C}' }

  /** `[\p{L}_][\p{L}\p{N}@$#\-_]*` matched by the whole of `s`. */
  predicate IsName(s: string) {
    |s| >= 1 && IsNameStart(s[0]) && forall i :: 1 <= i < |s| ==> IsNameChar(s[i])
  }

  predicate AllDigits(s: string) { forall i :: 0 <= i < |s| ==> IsDigit(s[i]) }

  // ---------------------------------------------------------------------
  // Integers as decimal text

  function DigitChar(d: nat): (c: char)
    requires d < 10
    ensures IsDigit(c)
  {
    "0123456789"[d]
  }

  function DigitValue(c: char): nat
    requires IsDigit(c)
  {
    (c as int - '0' as int) as nat
  }

  function NatStr(n: nat): (s: string)
    decreases n
  {
    if n < 10 then [DigitChar(n)] else NatStr(n / 10) + [DigitChar(n % 10)]
  }

  /** PHP's int-to-string conversion. */
  function IntStr(i: int): string {
    if i < 0 then "-" + NatStr(-i) else NatStr(i)
  }

  function DigitsValue(s: string): nat
    requires AllDigits(s)
  {
    if s == [] then 0 else 10 * DigitsValue(s[..|s| - 1]) + DigitValue(s[|s| - 1])
  }

  lemma {:induction false} NatStrShape(n: nat)
    ensures |NatStr(n)| >= 1 && AllDigits(NatStr(n))
    ensures DigitsValue(NatStr(n)) == n
    ensures |NatStr(n)| == 1 <==> n < 10
    ensures NatStr(n)[0] == '0' ==> n == 0
    decreases n
  {
    if n >= 10 {
      NatStrShape(n / 10);
      var s := NatStr(n);
      assert s[..|s| - 1] == NatStr(n / 10);
      assert s[0] == NatStr(n / 10)[0];
    } else {
      assert NatStr(n) == [DigitChar(n)];
    }
  }

  /** Different numbers print differently. */
  lemma NatStrInjective(a: nat, b: nat)
    requires NatStr(a) == NatStr(b)
    ensures a == b
  {
    NatStrShape(a);
    NatStrShape(b);
  }

  lemma IntStrInjective(a: int, b: int)
    requires IntStr(a) == IntStr(b)
    ensures a == b
  {
    NatStrShape(if a < 0 then -a else a);
    NatStrShape(if b < 0 then -b else b);
    if a < 0 && b < 0 {
      assert NatStr(-a) == IntStr(a)[1..] == IntStr(b)[1..] == NatStr(-b);
      NatStrInjective(-a, -b);
    } else if a >= 0 && b >= 0 {
      NatStrInjective(a, b);
    }
  }

  /** The decimal strings PHP turns into int keys: no sign but `-`, no leading zero, no `-0`. */
  predicate IsCanonicalInt(s: string) {
    if |s| > 0 && s[0] == '-' then |s| >= 2 && s[1] != '0' && AllDigits(s[1..])
    else |s| >= 1 && AllDigits(s) && (s[0] != '0' || |s| == 1)
  }

  lemma IntStrIsCanonical(i: int)
    ensures IsCanonicalInt(IntStr(i))
  {
    if i < 0 {
      NatStrShape(-i);
      assert IntStr(i)[1..] == NatStr(-i);
    } else {
      NatStrShape(i);
    }
  }

  function CanonicalValue(s: string): int
    requires IsCanonicalInt(s)
  {
    if s[0] == '-' then -(DigitsValue(s[1..]) as int) else DigitsValue(s)
  }

  /** How PHP stores a string used as an array key. */
  function NormKey(s: string): Key {
    if IsCanonicalInt(s) then IntKey(CanonicalValue(s)) else StrKey(s)
  }

  /** A key as text (string interpolation of an array key). */
  function KeyStr(k: Key): string {
    match k
    case IntKey(i) => IntStr(i)
    case StrKey(s) => s
  }

  /** A key PHP can actually hold: string keys are never canonical decimals. */
  predicate WfKey(k: Key) {
    k.StrKey? ==> !IsCanonicalInt(k.s)
  }

  lemma KeyStrInjective(a: Key, b: Key)
    requires WfKey(a) && WfKey(b) && KeyStr(a) == KeyStr(b)
    ensures a == b
  {
    match a
    case IntKey(i) =>
      IntStrIsCanonical(i);
      if b.IntKey? { IntStrInjective(i, b.i); }
    case StrKey(s) =>
      if b.IntKey? { IntStrIsCanonical(b.i); }
  }

  // ---------------------------------------------------------------------
  // Arrays

  type PArray = seq<(Key, Value)>

  predicate HasKey<V>(a: seq<(Key, V)>, k: Key) {
    exists i :: 0 <= i < |a| && a[i].0 == k
  }

  /** Position of the entry with key `k`. */
  function IndexOf<V>(a: seq<(Key, V)>, k: Key): (r: nat)
    requires HasKey(a, k)
    ensures r < |a| && a[r].0 == k
    ensures forall j :: 0 <= j < r ==> a[j].0 != k
  {
    if a[0].0 == k then 0 else IndexOf(a[1..], k) + 1
  }

  /** `$a[$k]` read: the value, or null for a missing key. */
  function Get(a: PArray, k: Key): Value {
    if HasKey(a, k) then a[IndexOf(a, k)].1 else Null
  }

  /** `isset($a[$k])`. */
  predicate IsSet(a: PArray, k: Key) {
    HasKey(a, k) && Get(a, k) != Null
  }

  /** `$a[$k] = $v`: overwrite in place, or append at the end. */
  function Put<V>(a: seq<(Key, V)>, k: Key, v: V): (r: seq<(Key, V)>)
    ensures HasKey(a, k) ==> |r| == |a|
    ensures !HasKey(a, k) ==> r == a + [(k, v)]
  {
    if HasKey(a, k) then a[IndexOf(a, k) := (k, v)] else a + [(k, v)]
  }

  predicate UniqueKeys<V>(a: seq<(Key, V)>) {
    forall i, j :: 0 <= i < j < |a| ==> a[i].0 != a[j].0
  }

  /** `unset($a[$k])`: drop the entry, if any, keeping the others in order. */
  function Unset<V>(a: seq<(Key, V)>, k: Key): (r: seq<(Key, V)>)
    ensures !HasKey(a, k) ==> r == a
    ensures HasKey(a, k) ==> |r| == |a| - 1
    ensures forall e :: e in r ==> e in a
    ensures forall k2 :: k2 != k ==> (HasKey(r, k2) <==> HasKey(a, k2))
    ensures UniqueKeys(a) ==> UniqueKeys(r) && !HasKey(r, k)
  {
    if HasKey(a, k) then
      var i := IndexOf(a, k);
      DropAt(a, i);
      a[..i] + a[i + 1..]
    else a
  }

  /** Dropping entry `i` keeps every other entry, and so every key held elsewhere. */
  lemma DropAt<V>(a: seq<(Key, V)>, i: nat)
    requires i < |a|
    ensures var r := a[..i] + a[i + 1..];
      && (forall j :: 0 <= j < |r| ==> r[j] == if j < i then a[j] else a[j + 1])
      && (forall k2 :: k2 != a[i].0 ==> (HasKey(r, k2) <==> HasKey(a, k2)))
  {
    var r := a[..i] + a[i + 1..];
    assert forall j :: 0 <= j < |r| ==> r[j] == if j < i then a[j] else a[j + 1];
    forall k2 | k2 != a[i].0 && HasKey(a, k2) ensures HasKey(r, k2) {
      var m :| 0 <= m < |a| && a[m].0 == k2;
      assert r[if m < i then m else m - 1] == a[m];
    }
  }

  /** After `unset($a[$k])` the key reads null, every other key reads what it read before, and the rest keep their order. */
  lemma GetUnset(a: PArray, k: Key)
    requires UniqueKeys(a)
    ensures !IsSet(Unset(a, k), k) && Get(Unset(a, k), k) == Null
    ensures forall k2 :: k2 != k ==> Get(Unset(a, k), k2) == Get(a, k2)
    ensures HasKey(a, k) ==> var i := IndexOf(a, k);
      Unset(a, k)[..i] == a[..i] && Unset(a, k)[i..] == a[i + 1..]
  {
    var r := Unset(a, k);
    if HasKey(a, k) {
      var i := IndexOf(a, k);
      DropAt(a, i);
      assert r == a[..i] + a[i + 1..];
      forall k2 | k2 != k ensures Get(r, k2) == Get(a, k2) {
        if HasKey(a, k2) {
          var i2 := IndexOf(a, k2);
          var j2 := IndexOf(r, k2);
          var m := if j2 < i then j2 else j2 + 1;
          assert r[j2] == a[m];
          assert m == i2;
        }
      }
    }
  }

  /** `$a[$k] = $x` then `$a[$k]` reads `x`, and every other key reads what it read before. */
  lemma GetPut(a: PArray, k: Key, x: Value)
    ensures IsSet(Put(a, k, x), k) <==> x != Null
    ensures Get(Put(a, k, x), k) == x
    ensures forall k2 :: k2 != k ==> Get(Put(a, k, x), k2) == Get(a, k2)
  {
    var r := Put(a, k, x);
    assert forall i :: 0 <= i < |a| ==> r[i].0 == a[i].0 && (r[i].0 != k ==> r[i] == a[i]);
    assert r[if HasKey(a, k) then IndexOf(a, k) else |a|].0 == k;
    var j := IndexOf(r, k);
    if HasKey(a, k) {
      assert j == IndexOf(a, k);
    } else {
      assert j == |a|;
    }
    forall k2 | k2 != k ensures Get(r, k2) == Get(a, k2) {
      if HasKey(a, k2) {
        var i2 := IndexOf(a, k2);
        assert r[i2].0 == k2;
        var j2 := IndexOf(r, k2);
        assert j2 == i2;
      } else {
        assert !HasKey(r, k2);
      }
    }
  }

  /** `$v[$k] = $x` on an argument: null and false become an array, an array is updated, anything else is refused. */
  function SetKey(v: Value, k: Key, x: Value): Result<Value> {
    match v
    case Null => Ok(Arr([(k, x)]))
    case Bool(b) => if b then Err(TypeError("Cannot use a scalar value as an array")) else Ok(Arr([(k, x)]))
    case Arr(es) => Ok(Arr(Put(es, k, x)))
    case Int(_) => Err(TypeError("Cannot use a scalar value as an array"))
    case Str(_) => Err(TypeError("Cannot access offset of type string on string"))
    case Raw(_) => Err(TypeError("Cannot use object of type Raw as array"))
    case Obj(c) => Err(TypeError("Cannot use object of type " + c + " as array"))
  }

  /**
   * After `$v[$k] = $x`: null, false and arrays take the write, `k` then
   * reads `x`, and every other key reads what it read before (nothing, for
   * null and false).
   */
  lemma SetKeySpec(v: Value, k: Key, x: Value)
    ensures SetKey(v, k, x).Ok? <==> v.Null? || v == Bool(false) || v.Arr?
    ensures SetKey(v, k, x).Ok? ==> SetKey(v, k, x).value.Arr? && Get(SetKey(v, k, x).value.entries, k) == x
    ensures SetKey(v, k, x).Ok? ==> forall k2 :: k2 != k ==>
      Get(SetKey(v, k, x).value.entries, k2) == if v.Arr? then Get(v.entries, k2) else Null
  {
    if v.Arr? {
      GetPut(v.entries, k, x);
    } else if SetKey(v, k, x).Ok? {
      assert [(k, x)][0].0 == k;
      assert IndexOf([(k, x)], k) == 0;
      forall k2 | k2 != k ensures !HasKey([(k, x)], k2) { }
    }
  }

  /** A value PHP can hold: every array in it, at any depth, has unique keys. */
  predicate DistinctKeys(v: Value) {
    match v
    case Arr(es) => UniqueKeys(es) && forall i :: 0 <= i < |es| ==> DistinctKeys(es[i].1)
    case _ => true
  }

  // ---------------------------------------------------------------------
  // Conversions and tests

  /** `empty($v)`. */
  predicate Empty(v: Value) {
    match v
    case Null => true
    case Bool(b) => !b
    case Int(i) => i == 0
    case Str(s) => s == "" || s == "0"
    case Arr(es) => es == []
    case Raw(_) => false
    case Obj(_) => false
  }

  /** A string is truthy unless it is `""` or `"0"`. */
  predicate TruthyStr(s: string) { s != "" && s != "0" }

  function SkipSpaces(s: string, i: nat): (r: nat)
    requires i <= |s|
    ensures i <= r <= |s|
    decreases |s| - i
  {
    if i < |s| && (s[i] == ' ' || s[i] == '\t' || s[i] == '\n' || s[i] == '\r' || s[i] == '\U{0B}' || s[i] == '\U{0C}')
    then SkipSpaces(s, i + 1) else i
  }

  function SkipDigits(s: string, i: nat): (r: nat)
    requires i <= |s|
    ensures i <= r <= |s|
    ensures forall k :: i <= k < r ==> IsDigit(s[k])
    ensures r < |s| ==> !IsDigit(s[r])
    decreases |s| - i
  {
    if i < |s| && IsDigit(s[i]) then SkipDigits(s, i + 1) else i
  }

  /** End of an optional exponent `[eE][+-]?digits` starting at `i`. */
  function SkipExponent(s: string, i: nat): (r: nat)
    requires i <= |s|
    ensures i <= r <= |s|
  {
    if i < |s| && (s[i] == 'e' || s[i] == 'E') then
      var j := if i + 1 < |s| && (s[i + 1] == '+' || s[i + 1] == '-') then i + 2 else i + 1;
      var k := SkipDigits(s, j);
      if k > j then k else i
    else i
  }

  /**
   * PHP 8 numeric strings: optional surrounding whitespace, an optional sign,
   * digits with an optional fraction (or a fraction alone), an optional exponent.
   */
  predicate IsNumericStr(s: string) {
    var a := SkipSpaces(s, 0);
    var b := if a < |s| && (s[a] == '+' || s[a] == '-') then a + 1 else a;
    var c := SkipDigits(s, b);
    if c < |s| && s[c] == '.' then
      var d := SkipDigits(s, c + 1);
      (c > b || d > c + 1) && SkipSpaces(s, SkipExponent(s, d)) == |s|
    else
      c > b && SkipSpaces(s, SkipExponent(s, c)) == |s|
  }

  /** `is_numeric($v)` (floats are not modelled). */
  predicate IsNumeric(v: Value) {
    v.Int? || (v.Str? && IsNumericStr(v.s))
  }

  /** `(string)$v` / `strval($v)` / interpolation; objects have no string form. */
  function StrCast(v: Value): Option<string> {
    match v
    case Null => Some("")
    case Bool(b) => Some(if b then "1" else "")
    case Int(i) => Some(IntStr(i))
    case Str(s) => Some(s)
    case Arr(_) => Some("Array")
    case Raw(_) => None
    case Obj(_) => None
  }

  /**
   * The string a user-defined function with a `string` parameter receives
   * (no strict types): scalars are converted, null and non-scalars are a TypeError.
   */
  function StrArg(v: Value): Option<string> {
    match v
    case Bool(b) => Some(if b then "1" else "")
    case Int(i) => Some(IntStr(i))
    case Str(s) => Some(s)
    case _ => None
  }

  /** The subject a PCRE call receives: scalars converted, null as `""`, others a TypeError. */
  function Subject(v: Value): Option<string> {
    match v
    case Null => Some("")
    case Bool(b) => Some(if b then "1" else "")
    case Int(i) => Some(IntStr(i))
    case Str(s) => Some(s)
    case _ => None
  }

  /** `(int)$s`: an optional sign and the leading digits after leading whitespace. */
  function IntOfStr(s: string): int {
    var a := SkipSpaces(s, 0);
    var neg := a < |s| && s[a] == '-';
    var b := if a < |s| && (s[a] == '+' || s[a] == '-') then a + 1 else a;
    var d := DigitsValue(s[b..SkipDigits(s, b)]) as int;
    if neg then -d else d
  }

  /** `implode($sep, $parts)` on strings. */
  function ImplodeStr(parts: seq<string>, sep: string): string {
    if parts == [] then "" else if |parts| == 1 then parts[0] else parts[0] + sep + ImplodeStr(parts[1..], sep)
  }

  // ---------------------------------------------------------------------
  // Results

  /** `acc` in front of the list `r` holds, or `r`'s error. */
  function Prefixed<T>(acc: seq<T>, r: Result<seq<T>>): Result<seq<T>> {
    if r.Ok? then Ok(acc + r.value) else r
  }

  lemma PrefixedNothing<T>(r: Result<seq<T>>)
    ensures Prefixed([], r) == r
  {
    if r.Ok? {
      assert [] + r.value == r.value;
    }
  }

  lemma PrefixedAppend<T>(a: seq<T>, b: seq<T>, r: Result<seq<T>>)
    ensures Prefixed(a, Prefixed(b, r)) == Prefixed(a + b, r)
  {
    if r.Ok? {
      assert a + (b + r.value) == (a + b) + r.value;
    }
  }
}
