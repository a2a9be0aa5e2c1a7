// SystemUtil: the request-signing string, parameter trimming and the
// client address lookup of the application's utility class.

module SystemUtil {
  import opened Php

  // ---------------------------------------------------------------------
  // ksort

  /** Byte-wise (here: code point) lexicographic order of two strings. */
  predicate StrBefore(s: string, t: string)
    decreases |s|
  {
    if s == [] then t != []
    else if t == [] then false
    else if s[0] != t[0] then s[0] < t[0]
    else StrBefore(s[1..], t[1..])
  }

  lemma {:induction false} StrBeforeIrreflexive(s: string)
    ensures !StrBefore(s, s)
    decreases |s|
  {
    if s != [] {
      StrBeforeIrreflexive(s[1..]);
    }
  }

  lemma {:induction false} StrBeforeTransitive(a: string, b: string, c: string)
    requires StrBefore(a, b) && StrBefore(b, c)
    ensures StrBefore(a, c)
    decreases |a|
  {
    if a != [] && a[0] == b[0] && b[0] == c[0] {
      StrBeforeTransitive(a[1..], b[1..], c[1..]);
    }
  }

  lemma {:induction false} StrBeforeTotal(a: string, b: string)
    requires a != b
    ensures StrBefore(a, b) || StrBefore(b, a)
    decreases |a|
  {
    if a != [] && b != [] && a[0] == b[0] {
      assert a == [a[0]] + a[1..] && b == [b[0]] + b[1..];
      StrBeforeTotal(a[1..], b[1..]);
    }
  }

  /**
   * The key order `ksort` uses: integer keys numerically, string keys
   * byte-wise, and (see the README) integer keys before string keys.
   */
  predicate KeyBefore(x: Key, y: Key) {
    match (x, y)
    case (IntKey(i), IntKey(j)) => i < j
    case (IntKey(_), StrKey(_)) => true
    case (StrKey(_), IntKey(_)) => false
    case (StrKey(s), StrKey(t)) => StrBefore(s, t)
  }

  lemma KeyBeforeIrreflexive(x: Key)
    ensures !KeyBefore(x, x)
  {
    if x.StrKey? {
      StrBeforeIrreflexive(x.s);
    }
  }

  lemma KeyBeforeTransitive(x: Key, y: Key, z: Key)
    requires KeyBefore(x, y) && KeyBefore(y, z)
    ensures KeyBefore(x, z)
  {
    if x.StrKey? && y.StrKey? && z.StrKey? {
      StrBeforeTransitive(x.s, y.s, z.s);
    }
  }

  lemma KeyBeforeTotal(x: Key, y: Key)
    requires x != y
    ensures KeyBefore(x, y) || KeyBefore(y, x)
  {
    if x.StrKey? && y.StrKey? {
      StrBeforeTotal(x.s, y.s);
    }
  }

  /** Keys strictly ascending in `ksort` order. */
  predicate Sorted(s: PArray) {
    forall i, j :: 0 <= i < j < |s| ==> KeyBefore(s[i].0, s[j].0)
  }

  /** Insert `e` in front of the first entry whose key it precedes. */
  function Insert(e: (Key, Value), s: PArray): (r: PArray)
    ensures multiset(r) == multiset(s) + multiset{e}
  {
    if s == [] || KeyBefore(e.0, s[0].0) then [e] + s
    else
      assert s == [s[0]] + s[1..];
      [s[0]] + Insert(e, s[1..])
  }

  /** `ksort($data)`: the same entries, reordered by key. */
  function KSort(data: PArray): (r: PArray)
    ensures multiset(r) == multiset(data)
    ensures forall x :: x in r <==> x in data
  {
    if data == [] then []
    else
      assert data == [data[0]] + data[1..];
      var r := Insert(data[0], KSort(data[1..]));
      assert forall x :: x in r <==> x in multiset(r);
      assert forall x :: x in data <==> x in multiset(data);
      r
  }

  lemma {:induction false} InsertSorted(e: (Key, Value), s: PArray)
    requires Sorted(s)
    requires forall i :: 0 <= i < |s| ==> s[i].0 != e.0
    ensures Sorted(Insert(e, s))
  {
    if s == [] {
    } else if KeyBefore(e.0, s[0].0) {
      forall j | 0 < j < |s|
        ensures KeyBefore(e.0, s[j].0)
      {
        KeyBeforeTransitive(e.0, s[0].0, s[j].0);
      }
    } else {
      KeyBeforeTotal(e.0, s[0].0);
      InsertSorted(e, s[1..]);
      var t := Insert(e, s[1..]);
      forall x | x in t
        ensures KeyBefore(s[0].0, x.0)
      {
        assert x in multiset(t);
        if x != e {
          assert x in multiset(s[1..]);
          var j :| 0 <= j < |s[1..]| && s[1..][j] == x;
          assert s[j + 1] == x;
        }
      }
      assert Insert(e, s) == [s[0]] + t;
    }
  }

  /** With unique keys (which every PHP array has) the result is sorted. */
  lemma {:induction false} KSortSorted(data: PArray)
    requires UniqueKeys(data)
    ensures Sorted(KSort(data))
  {
    if data != [] {
      KSortSorted(data[1..]);
      var s := KSort(data[1..]);
      forall i | 0 <= i < |s|
        ensures s[i].0 != data[0].0
      {
        assert s[i] in data[1..];
      }
      InsertSorted(data[0], s);
    }
  }

  /** Two key-sorted arrays with the same entries start with the same entry. */
  lemma SortedSameHead(s: PArray, t: PArray)
    requires Sorted(s) && Sorted(t) && s != []
    requires multiset(s) == multiset(t)
    ensures t != [] && t[0] == s[0]
  {
    assert s[0] in multiset(t);
    assert t[0] in multiset(s);
    var k :| 0 <= k < |t| && t[k] == s[0];
    var m :| 0 <= m < |s| && s[m] == t[0];
    if k != 0 && m != 0 {
      KeyBeforeTransitive(s[0].0, t[0].0, s[0].0);
      KeyBeforeIrreflexive(s[0].0);
      assert false;
    }
  }

  /** Two key-sorted arrays with the same entries are the same array. */
  lemma {:induction false} SortedUnique(s: PArray, t: PArray)
    requires Sorted(s) && Sorted(t)
    requires multiset(s) == multiset(t)
    ensures s == t
  {
    if s == [] {
      assert |t| == |multiset(t)| == 0;
    } else {
      SortedSameHead(s, t);
      assert s == [s[0]] + s[1..] && t == [t[0]] + t[1..];
      assert multiset(s) == multiset{s[0]} + multiset(s[1..]);
      assert multiset(t) == multiset{s[0]} + multiset(t[1..]);
      assert multiset(s[1..]) == multiset(s) - multiset{s[0]};
      assert multiset(t[1..]) == multiset(t) - multiset{s[0]};
      SortedUnique(s[1..], t[1..]);
    }
  }

  /** `ksort` does not depend on the order the entries came in. */
  lemma KSortCanonical(a: PArray, b: PArray)
    requires UniqueKeys(a) && UniqueKeys(b)
    requires multiset(a) == multiset(b)
    ensures KSort(a) == KSort(b)
  {
    KSortSorted(a);
    KSortSorted(b);
    SortedUnique(KSort(a), KSort(b));
  }

  // ---------------------------------------------------------------------
  // signStr

  /**
   * The text one scalar entry adds: `"$k=$v&"` when `$v` is truthy or is
   * `0`, `'0'` or `false`, and the key is not `'sign'`.
   */
  function Pair(k: Key, v: Value): (r: Result<string>)
    requires !v.Arr?
    ensures v == Null || v == Str("") || k == StrKey("sign") ==> r == Ok("")
    ensures v != Null && v != Str("") && k != StrKey("sign") && StrCast(v).Some?
            ==> r == Ok(KeyStr(k) + "=" + StrCast(v).value + "&")
    ensures v != Null && v != Str("") && k != StrKey("sign") && StrCast(v).None? ==> r.Err?
  {
    if (!Empty(v) || v == Int(0) || v == Str("0") || v == Bool(false)) && k != StrKey("sign") then
      match StrCast(v)
      case Some(s) => Ok(KeyStr(k) + "=" + s + "&")
      case None => Err(TypeError("object could not be converted to string"))
    else Ok("")
  }

  /** The text `signStr($data)` builds before the optional hashing. */
  function SignText(data: PArray): Result<string>
    decreases Arr(data), 1
  {
    SignList(KSort(data), data)
  }

  /**
   * The text of the already sorted entries `s`, in order; a nested array
   * adds its own text with no prefix. `bound` holds every entry of `s`.
   */
  function SignList(s: PArray, ghost bound: PArray): Result<string>
    requires forall x :: x in s ==> x in bound
    decreases Arr(bound), 0, |s|
  {
    if s == [] then Ok("")
    else
      var head :- Contribution(s[0], bound);
      Prefixed(head, SignList(s[1..], bound))
  }

  /** What one entry adds to the text. */
  function Contribution(e: (Key, Value), ghost bound: PArray): Result<string>
    requires e in bound
    decreases Arr(bound), 0, 0
  {
    if e.1.Arr? then SignText(e.1.entries) else Pair(e.0, e.1)
  }

  /** One step of `SignList`: the first entry's text, then the rest. */
  lemma SignListCons(s: PArray, bound: PArray)
    requires s != [] && forall x :: x in s ==> x in bound
    ensures Contribution(s[0], bound).Err? ==> SignList(s, bound) == Err(Contribution(s[0], bound).error)
    ensures Contribution(s[0], bound).Ok? ==>
              SignList(s, bound) == Prefixed(Contribution(s[0], bound).value, SignList(s[1..], bound))
  {
  }

  lemma {:induction false} SignListBound(s: PArray, b1: PArray, b2: PArray)
    requires forall x :: x in s ==> x in b1
    requires forall x :: x in s ==> x in b2
    ensures SignList(s, b1) == SignList(s, b2)
  {
    if s != [] {
      SignListBound(s[1..], b1, b2);
    }
  }

  /**
   * `signStr($data, $key)`: with an empty key (`''` or `'0'`) the plain
   * text, otherwise `digest` (uppercase md5) of the text followed by
   * `key=` and the key.
   */
  method SignStr(data: PArray, key: string, digest: string -> string) returns (r: Result<string>)
    ensures Empty(Str(key)) ==> r == SignText(data)
    ensures !Empty(Str(key)) ==> r == (var text :- SignText(data); Ok(digest(text + "key=" + key)))
    decreases Arr(data), 1
  {
    var sorted := KSort(data);
    var text := "";
    var i := 0;
    PrefixedNothing(SignList(sorted, data));
    while i < |sorted|
      invariant 0 <= i <= |sorted|
      invariant SignText(data) == Prefixed(text, SignList(sorted[i..], data))
    {
      var next := SignAt(data, sorted, i, text, digest);
      if next.Err? {
        return next;
      }
      text := next.value;
      i := i + 1;
    }
    assert sorted[i..] == [];
    assert text + "" == text;
    if Empty(Str(key)) {
      return Ok(text);
    }
    return Ok(digest(text + "key=" + key));
  }

  /** One pass of the `signStr` loop: entry `i` of the sorted array appends its text, or raises. */
  method SignAt(data: PArray, sorted: PArray, i: nat, text: string, digest: string -> string) returns (r: Result<string>)
    requires sorted == KSort(data) && i < |sorted|
    requires SignText(data) == Prefixed(text, SignList(sorted[i..], data))
    ensures r.Err? ==> SignText(data) == Err(r.error)
    ensures r.Ok? ==> SignText(data) == Prefixed(r.value, SignList(sorted[i + 1..], data))
    decreases Arr(data), 0
  {
    var (k, v) := sorted[i];
    assert sorted[i] in data;
    var add: Result<string>;
    if v.Arr? {
      add := SignStr(v.entries, "", digest);
    } else if (!Empty(v) || v == Int(0) || v == Str("0") || v == Bool(false)) && k != StrKey("sign") {
      var s := StrCast(v);
      if s.None? {
        add := Err(TypeError("object could not be converted to string"));
      } else {
        add := Ok(KeyStr(k) + "=" + s.value + "&");
      }
    } else {
      add := Ok("");
    }
    assert add == Contribution(sorted[i], data);
    SignStep(data, sorted, i, text);
    r := if add.Err? then Err(add.error) else Ok(text + add.value);
  }

  /** What entry `i` adds decides the rest of the text. */
  lemma SignStep(data: PArray, sorted: PArray, i: nat, text: string)
    requires sorted == KSort(data) && i < |sorted|
    requires SignText(data) == Prefixed(text, SignList(sorted[i..], data))
    ensures var add := Contribution(sorted[i], data);
            && (add.Err? ==> SignText(data) == Err(add.error))
            && (add.Ok? ==> SignText(data) == Prefixed(text + add.value, SignList(sorted[i + 1..], data)))
  {
    assert sorted[i..][0] == sorted[i] && sorted[i..][1..] == sorted[i + 1..];
    SignListCons(sorted[i..], data);
    var add := Contribution(sorted[i], data);
    if add.Ok? {
      PrefixedAppend(text, add.value, SignList(sorted[i + 1..], data));
    }
  }

  /** The signature does not depend on the order of the array's entries. */
  lemma SignTextOrderFree(a: PArray, b: PArray)
    requires UniqueKeys(a) && UniqueKeys(b)
    requires multiset(a) == multiset(b)
    ensures SignText(a) == SignText(b)
  {
    KSortCanonical(a, b);
    SignListBound(KSort(a), a, b);
  }

  /** A nested array adds its own text, without the outer key. */
  lemma SignTextNested(k: Key, es: PArray)
    ensures SignText([(k, Arr(es))]) == SignText(es)
  {
    var data := [(k, Arr(es))];
    assert KSort(data) == data by {
      assert data[1..] == [];
      assert KSort(data[1..]) == [];
    }
    assert Contribution(data[0], data) == SignText(es);
    assert SignList(data[1..], data) == Ok("");
    if SignText(es).Ok? {
      assert SignText(es).value + "" == SignText(es).value;
    }
  }

  /** Entries that add nothing can be left out of the sorted list. */
  lemma {:induction false} SignListSkip(e: (Key, Value), s: PArray, b1: PArray, b2: PArray)
    requires !e.1.Arr? && Pair(e.0, e.1) == Ok("")
    requires forall x :: x in Insert(e, s) ==> x in b1
    requires forall x :: x in s ==> x in b2
    ensures SignList(Insert(e, s), b1) == SignList(s, b2)
  {
    var t := Insert(e, s);
    assert forall x :: x in s ==> x in multiset(t);
    if s == [] || KeyBefore(e.0, s[0].0) {
      assert t[0] == e && t[1..] == s;
      PrefixedNothing(SignList(s, b1));
      SignListBound(s, b1, b2);
    } else {
      assert t[0] == s[0] && t[1..] == Insert(e, s[1..]);
      assert forall x :: x in s[1..] ==> x in s;
      SignListSkip(e, s[1..], b1, b2);
    }
  }

  /**
   * Adding an entry keyed `'sign'`, or one holding null or `''`, to an
   * array leaves its signature text unchanged.
   */
  lemma SignTextIgnores(data: PArray, e: (Key, Value))
    requires UniqueKeys(data + [e])
    requires !e.1.Arr? && (e.1 == Null || e.1 == Str("") || e.0 == StrKey("sign"))
    ensures SignText(data + [e]) == SignText(data)
  {
    var whole := data + [e];
    assert UniqueKeys(data) by {
      forall i, j | 0 <= i < j < |data|
        ensures data[i].0 != data[j].0
      {
        assert data[i] == whole[i] && data[j] == whole[j];
      }
    }
    var s := KSort(data);
    KSortSorted(data);
    forall i | 0 <= i < |s|
      ensures s[i].0 != e.0
    {
      assert s[i] in data;
      var j :| 0 <= j < |data| && data[j] == s[i];
      assert whole[j] == s[i] && whole[|data|] == e;
    }
    InsertSorted(e, s);
    KSortSorted(whole);
    assert multiset(whole) == multiset(data) + multiset{e};
    SortedUnique(KSort(whole), Insert(e, s));
    assert forall x :: x in Insert(e, s) ==> x in multiset(Insert(e, s));
    SignListSkip(e, s, whole, data);
  }

  // ---------------------------------------------------------------------
  // ParamsTrim

  /** The characters PHP's `trim` strips by default. */
  predicate IsTrimChar(c: char) {
    c == ' ' || c == '\t' || c == '\n' || c == '\r' || c == '\0' || c == '\U{0B}'
  }

  /** Position of the first character `trim` keeps. */
  function TrimStart(s: string, i: nat): (a: nat)
    requires i <= |s|
    requires forall j :: 0 <= j < i ==> IsTrimChar(s[j])
    ensures i <= a <= |s|
    ensures forall j :: 0 <= j < a ==> IsTrimChar(s[j])
    ensures a == |s| || !IsTrimChar(s[a])
    decreases |s| - i
  {
    if i < |s| && IsTrimChar(s[i]) then TrimStart(s, i + 1) else i
  }

  /** Position just after the last character `trim` keeps. */
  function TrimEnd(s: string, a: nat, b: nat): (e: nat)
    requires a <= b <= |s|
    requires forall j :: b <= j < |s| ==> IsTrimChar(s[j])
    ensures a <= e <= b
    ensures forall j :: e <= j < |s| ==> IsTrimChar(s[j])
    ensures e == a || !IsTrimChar(s[e - 1])
    decreases b - a
  {
    if a < b && IsTrimChar(s[b - 1]) then TrimEnd(s, a, b - 1) else b
  }

  /**
   * `trim($s)`: the longest middle part of `s` that starts and ends with a
   * kept character; everything cut off is whitespace or NUL.
   */
  function Trim(s: string): (r: string)
    ensures exists a, b :: 0 <= a <= b <= |s| && r == s[a..b]
              && (forall j :: 0 <= j < a ==> IsTrimChar(s[j]))
              && (forall j :: b <= j < |s| ==> IsTrimChar(s[j]))
    ensures r == [] || (!IsTrimChar(r[0]) && !IsTrimChar(r[|r| - 1]))
  {
    var a := TrimStart(s, 0);
    var b := TrimEnd(s, a, |s|);
    s[a..b]
  }

  /** `trim` changes nothing in a string it produced. */
  lemma TrimTrimmed(s: string)
    requires s == [] || (!IsTrimChar(s[0]) && !IsTrimChar(s[|s| - 1]))
    ensures Trim(s) == s
  {
    var a := TrimStart(s, 0);
    var b := TrimEnd(s, a, |s|);
    if s != [] {
      assert a == 0;
      assert b == |s|;
    }
    assert s[a..b] == s;
  }

  /** The message `trim` raises for an argument that is not a string. */
  const TrimTypeError := TypeError("trim(): Argument #1 ($string) must be of type string")

  /** The array `ParamsTrim($params)` returns, or the error it raises. */
  function Trimmed(params: PArray): Result<PArray>
    decreases Arr(params), 1
  {
    TrimList(params, params)
  }

  /** The entries that `s` becomes, in order; `bound` holds every entry of `s`. */
  function TrimList(s: PArray, ghost bound: PArray): Result<PArray>
    requires forall x :: x in s ==> x in bound
    decreases Arr(bound), 0, |s|
  {
    if s == [] then Ok([])
    else
      var head :- TrimEntry(s[0], bound);
      Prefixed(head, TrimList(s[1..], bound))
  }

  /**
   * What one entry becomes: an array is trimmed recursively and kept, a
   * scalar is replaced by its trimmed text or dropped when that is empty.
   */
  function TrimEntry(e: (Key, Value), ghost bound: PArray): Result<PArray>
    requires e in bound
    decreases Arr(bound), 0, 0
  {
    if e.1.Arr? then
      var nested :- Trimmed(e.1.entries);
      Ok([(e.0, Arr(nested))])
    else
      match Subject(e.1)
      case None => Err(TrimTypeError)
      case Some(text) => if Trim(text) == "" then Ok([]) else Ok([(e.0, Str(Trim(text)))])
  }

  lemma {:induction false} TrimListBound(s: PArray, b1: PArray, b2: PArray)
    requires forall x :: x in s ==> x in b1
    requires forall x :: x in s ==> x in b2
    ensures TrimList(s, b1) == TrimList(s, b2)
  {
    if s != [] {
      TrimListBound(s[1..], b1, b2);
    }
  }

  /** One step of `TrimList`: what the first entry becomes, then the rest. */
  lemma TrimListCons(s: PArray, bound: PArray)
    requires s != [] && forall x :: x in s ==> x in bound
    ensures TrimEntry(s[0], bound).Err? ==> TrimList(s, bound) == Err(TrimEntry(s[0], bound).error)
    ensures TrimEntry(s[0], bound).Ok? ==>
              TrimList(s, bound) == Prefixed(TrimEntry(s[0], bound).value, TrimList(s[1..], bound))
  {
  }

  /** Overwriting or unsetting the first key after a prefix that lacks it. */
  lemma PutAfter(done: PArray, rest: PArray, x: Value)
    requires rest != [] && forall j :: 0 <= j < |done| ==> done[j].0 != rest[0].0
    ensures Put(done + rest, rest[0].0, x) == done + [(rest[0].0, x)] + rest[1..]
    ensures Unset(done + rest, rest[0].0) == done + rest[1..]
  {
    var a := done + rest;
    assert a[|done|] == rest[0];
    assert IndexOf(a, rest[0].0) == |done|;
    assert a[..|done|] == done && a[|done| + 1..] == rest[1..];
  }

  /** Keys taken from the first `i` entries of a PHP array miss entry `i`'s key. */
  lemma KeysBefore(params: PArray, i: nat, done: PArray)
    requires UniqueKeys(params) && i < |params|
    requires forall x :: x in done ==> HasKey(params[..i], x.0)
    ensures forall j :: 0 <= j < |done| ==> done[j].0 != params[i].0
  {
    forall j | 0 <= j < |done|
      ensures done[j].0 != params[i].0
    {
      assert done[j] in done;
      var m :| 0 <= m < i && params[..i][m].0 == done[j].0;
      assert params[m].0 == done[j].0;
    }
  }

  lemma KeysGrow(params: PArray, i: nat, done: PArray, head: PArray)
    requires i < |params|
    requires forall x :: x in done ==> HasKey(params[..i], x.0)
    requires forall x :: x in head ==> x.0 == params[i].0
    ensures forall x :: x in done + head ==> HasKey(params[..i + 1], x.0)
  {
    forall x | x in done + head
      ensures HasKey(params[..i + 1], x.0)
    {
      if x in done {
        var m :| 0 <= m < i && params[..i][m].0 == x.0;
        assert params[..i + 1][m].0 == x.0;
      } else {
        assert params[..i + 1][i].0 == x.0;
      }
    }
  }

  /** The loop step of `ParamsTrim` after entry `i` became `head`. */
  lemma TrimStepOk(params: PArray, i: nat, done: PArray, head: PArray)
    requires i < |params|
    requires forall x :: x in done ==> HasKey(params[..i], x.0)
    requires Trimmed(params) == Prefixed(done, TrimList(params[i..], params))
    requires TrimEntry(params[i], params) == Ok(head)
    requires forall x :: x in head ==> x.0 == params[i].0
    ensures Trimmed(params) == Prefixed(done + head, TrimList(params[i + 1..], params))
    ensures forall x :: x in done + head ==> HasKey(params[..i + 1], x.0)
  {
    TrimListAt(params, i, head);
    PrefixedAppend(done, head, TrimList(params[i + 1..], params));
    KeysGrow(params, i, done, head);
  }

  lemma TrimListAt(params: PArray, i: nat, head: PArray)
    requires i < |params| && TrimEntry(params[i], params) == Ok(head)
    ensures TrimList(params[i..], params) == Prefixed(head, TrimList(params[i + 1..], params))
  {
    assert params[i..][0] == params[i] && params[i..][1..] == params[i + 1..];
    TrimListCons(params[i..], params);
  }

  /** The loop step of `ParamsTrim` when entry `i` raises `e`. */
  lemma TrimStepFails(params: PArray, i: nat, done: PArray, e: Error)
    requires i < |params|
    requires Trimmed(params) == Prefixed(done, TrimList(params[i..], params))
    requires TrimEntry(params[i], params) == Err(e)
    ensures Trimmed(params) == Err(e)
  {
    assert params[i..][0] == params[i];
    TrimListCons(params[i..], params);
  }

  /**
   * What holds after the `ParamsTrim` loop has handled the first `i`
   * entries: `result` is the handled part `done` followed by the untouched
   * rest, `done` only uses keys of the handled entries, and `done` is how
   * the final answer starts.
   */
  ghost predicate TrimLoop(params: PArray, i: nat, done: PArray, result: PArray) {
    && i <= |params|
    && result == done + params[i..]
    && (forall x :: x in done ==> HasKey(params[..i], x.0))
    && Trimmed(params) == Prefixed(done, TrimList(params[i..], params))
  }

  lemma TrimLoopStart(params: PArray)
    ensures TrimLoop(params, 0, [], params)
  {
    PrefixedNothing(TrimList(params, params));
  }

  lemma TrimLoopEnd(params: PArray, done: PArray, result: PArray)
    requires TrimLoop(params, |params|, done, result)
    ensures Trimmed(params) == Ok(result)
  {
    assert params[|params|..] == [];
    assert done + [] == done;
  }

  /**
   * `ParamsTrim($params)`: the loop runs over the original entries and
   * overwrites or unsets each key of `$params` in place.
   */
  method ParamsTrim(params: PArray) returns (r: Result<PArray>)
    requires DistinctKeys(Arr(params))
    ensures r == Trimmed(params)
    decreases Arr(params), 1
  {
    var result := params;
    ghost var done: PArray := [];
    var i := 0;
    TrimLoopStart(params);
    while i < |params|
      // kept as one fact, in the form `TrimAt` hands back
      invariant TrimLoop(params, i, done, result) == true
    {
      var step, head := TrimAt(params, i, result, done);
      if step.Err? {
        return Err(step.error);
      }
      result := step.value;
      done := done + head;
      i := i + 1;
    }
    TrimLoopEnd(params, done, result);
    return Ok(result);
  }

  /**
   * One pass of the `ParamsTrim` loop: entry `i` of the original array is
   * overwritten with its trimmed value or unset in `result`, or it raises.
   */
  method TrimAt(params: PArray, i: nat, result: PArray, ghost done: PArray) returns (r: Result<PArray>, ghost head: PArray)
    requires DistinctKeys(Arr(params)) && i < |params| && TrimLoop(params, i, done, result)
    ensures r.Err? ==> Trimmed(params) == Err(r.error)
    ensures r.Ok? ==> TrimLoop(params, i + 1, done + head, r.value)
    decreases Arr(params), 0, 1
  {
    r, head := TrimEntryAt(params, i, result, done);
    if r.Err? {
      TrimStepFails(params, i, done, r.error);
    } else {
      TrimStepOk(params, i, done, head);
    }
  }

  /** What entry `i` does to `result`: overwritten with its trimmed value, unset, or an error. */
  method TrimEntryAt(params: PArray, i: nat, result: PArray, ghost done: PArray) returns (r: Result<PArray>, ghost head: PArray)
    requires DistinctKeys(Arr(params)) && i < |params| && result == done + params[i..]
    requires forall x :: x in done ==> HasKey(params[..i], x.0)
    ensures r.Err? ==> TrimEntry(params[i], params) == Err(r.error)
    ensures r.Ok? ==> TrimEntry(params[i], params) == Ok(head) && r.value == done + head + params[i + 1..]
    ensures forall x :: x in head ==> x.0 == params[i].0
    decreases Arr(params), 0, 0
  {
    var (k, v) := params[i];
    assert params[i..][0] == params[i] && params[i..][1..] == params[i + 1..];
    assert params[i] in params;
    KeysBefore(params, i, done);
    head := [];
    if v.Arr? {
      assert DistinctKeys(params[i].1);
      var nested := ParamsTrim(v.entries);
      if nested.Err? {
        return Err(nested.error), [];
      }
      head := [(k, Arr(nested.value))];
      PutAfter(done, params[i..], Arr(nested.value));
      r := Ok(Put(result, k, Arr(nested.value)));
    } else {
      var text := Subject(v);
      if text.None? {
        return Err(TrimTypeError), [];
      }
      if Trim(text.value) == "" {
        PutAfter(done, params[i..], Null);
        r := Ok(Unset(result, k));
      } else {
        head := [(k, Str(Trim(text.value)))];
        PutAfter(done, params[i..], Str(Trim(text.value)));
        r := Ok(Put(result, k, Str(Trim(text.value))));
      }
    }
  }

  /** What `ParamsTrim` returns is left unchanged by `ParamsTrim`. */
  lemma TrimmedIdempotent(params: PArray)
    requires Trimmed(params).Ok?
    ensures Trimmed(Trimmed(params).value) == Trimmed(params)
    decreases Arr(params), 1
  {
    TrimListIdempotent(params, params);
  }

  lemma {:induction false} TrimListIdempotent(s: PArray, bound: PArray)
    requires forall x :: x in s ==> x in bound
    requires TrimList(s, bound).Ok?
    ensures Trimmed(TrimList(s, bound).value) == TrimList(s, bound)
    decreases Arr(bound), 0, |s|
  {
    if s != [] {
      var head := TrimEntry(s[0], bound).value;
      var rest := TrimList(s[1..], bound).value;
      TrimListIdempotent(s[1..], bound);
      assert TrimList(rest, rest) == Ok(rest);
      assert TrimList(s, bound) == Ok(head + rest);
      if head == [] {
        assert head + rest == rest;
      } else {
        TrimEntryAgain(s[0], bound, rest);
      }
    }
  }

  /** A kept entry in front of an already trimmed list is kept as it is. */
  lemma TrimEntryAgain(e0: (Key, Value), bound: PArray, rest: PArray)
    requires e0 in bound && TrimEntry(e0, bound).Ok? && TrimEntry(e0, bound).value != []
    requires TrimList(rest, rest) == Ok(rest)
    ensures var head := TrimEntry(e0, bound).value; TrimList(head + rest, head + rest) == Ok(head + rest)
    decreases Arr(bound), 0, 0
  {
    var head := TrimEntry(e0, bound).value;
    if e0.1.Arr? {
      var nested := Trimmed(e0.1.entries).value;
      assert head == [(e0.0, Arr(nested))];
      TrimmedIdempotent(e0.1.entries);
      ArrEntryAgain(e0.0, nested, rest);
    } else {
      var x := Trim(Subject(e0.1).value);
      assert head == [(e0.0, Str(x))];
      TrimTrimmed(x);
      StrEntryAgain(e0.0, x, rest);
    }
  }

  lemma ArrEntryAgain(k: Key, nested: PArray, rest: PArray)
    requires Trimmed(nested) == Ok(nested) && TrimList(rest, rest) == Ok(rest)
    ensures TrimList([(k, Arr(nested))] + rest, [(k, Arr(nested))] + rest) == Ok([(k, Arr(nested))] + rest)
  {
    var t := [(k, Arr(nested))] + rest;
    assert t[0] in t;
    assert TrimEntry(t[0], t) == Ok([t[0]]);
    ConsAgain(t[0], rest);
  }

  lemma StrEntryAgain(k: Key, x: string, rest: PArray)
    requires x != "" && Trim(x) == x && TrimList(rest, rest) == Ok(rest)
    ensures TrimList([(k, Str(x))] + rest, [(k, Str(x))] + rest) == Ok([(k, Str(x))] + rest)
  {
    var t := [(k, Str(x))] + rest;
    assert t[0] in t;
    assert TrimEntry(t[0], t) == Ok([t[0]]);
    ConsAgain(t[0], rest);
  }

  /** An entry that trimming keeps as it is, in front of a list that trimming keeps as it is. */
  lemma ConsAgain(e: (Key, Value), rest: PArray)
    requires TrimEntry(e, [e] + rest) == Ok([e]) && TrimList(rest, rest) == Ok(rest)
    ensures TrimList([e] + rest, [e] + rest) == Ok([e] + rest)
  {
    var t := [e] + rest;
    assert t[0] == e && t[1..] == rest;
    assert forall x :: x in rest ==> x in t;
    TrimListBound(rest, rest, t);
    TrimListCons(t, t);
  }

  /**
   * Every kept value is an array or a non-empty trimmed string, every key
   * comes from the input, every array entry is kept (even if it ends up
   * empty), and every scalar with non-empty trimmed text is kept trimmed.
   */
  lemma {:induction false} TrimListShape(s: PArray, bound: PArray)
    requires forall x :: x in s ==> x in bound
    requires TrimList(s, bound).Ok?
    ensures forall x :: x in TrimList(s, bound).value ==>
              (x.1.Arr? || (x.1.Str? && x.1.s != "" && Trim(x.1.s) == x.1.s))
    ensures forall x :: x in TrimList(s, bound).value ==> exists y :: y in s && y.0 == x.0
    ensures forall y :: y in s && y.1.Arr? ==>
              exists x :: x in TrimList(s, bound).value && x.0 == y.0 && x.1.Arr?
    ensures forall y :: y in s && !y.1.Arr? && Subject(y.1).Some? && Trim(Subject(y.1).value) != "" ==>
              (y.0, Str(Trim(Subject(y.1).value))) in TrimList(s, bound).value
    decreases |s|
  {
    if s != [] {
      TrimListShape(s[1..], bound);
      var head := TrimEntry(s[0], bound).value;
      var rest := TrimList(s[1..], bound).value;
      assert TrimList(s, bound).value == head + rest;
      if !s[0].1.Arr? && head != [] {
        TrimTrimmed(Trim(Subject(s[0].1).value));
      }
      assert forall y :: y in s ==> y == s[0] || y in s[1..];
    }
  }

  /** An object among the scalars makes `ParamsTrim` throw. */
  lemma {:induction false} TrimListRejects(s: PArray, bound: PArray, i: nat)
    requires forall x :: x in s ==> x in bound
    requires i < |s| && !s[i].1.Arr? && Subject(s[i].1).None?
    ensures TrimList(s, bound).Err?
    decreases |s|
  {
    if i > 0 {
      assert s[1..][i - 1] == s[i];
      TrimListRejects(s[1..], bound, i - 1);
    }
  }

  // ---------------------------------------------------------------------
  // getClientIp

  /** The headers consulted, in order. */
  const IpHeaders: seq<string> := ["x-real-ip", "remote-addr", "remote_addr", "x_real_ip", "remote_ip", "remote-ip"]

  /** The array `getHeader` returns: the header's values under keys 0, 1, ... */
  function HeaderEntries(lines: seq<string>): (r: PArray)
    ensures |r| == |lines|
    ensures forall i :: 0 <= i < |r| ==> r[i] == (IntKey(i), Str(lines[i]))
  {
    if lines == [] then [] else HeaderEntries(lines[..|lines| - 1]) + [(IntKey(|lines| - 1), Str(lines[|lines| - 1]))]
  }

  /** The first value of the first header, among `names`, that has one. */
  function FirstHeader(names: seq<string>, header: string -> seq<string>): Option<string> {
    if names == [] then None
    else if header(names[0]) != [] then Some(header(names[0])[0])
    else FirstHeader(names[1..], header)
  }

  /** `FirstHeader` picks the first listed header that is present, and its first value. */
  lemma {:induction false} FirstHeaderIs(names: seq<string>, header: string -> seq<string>, ip: string)
    ensures FirstHeader(names, header) == Some(ip) <==>
            exists i :: 0 <= i < |names| && header(names[i]) != [] && header(names[i])[0] == ip
                        && forall j :: 0 <= j < i ==> header(names[j]) == []
  {
    if names != [] {
      FirstHeaderIs(names[1..], header, ip);
      if header(names[0]) == [] {
        if exists i :: 0 <= i < |names| && header(names[i]) != [] && header(names[i])[0] == ip
                       && forall j :: 0 <= j < i ==> header(names[j]) == [] {
          var i :| 0 <= i < |names| && header(names[i]) != [] && header(names[i])[0] == ip
                   && forall j :: 0 <= j < i ==> header(names[j]) == [];
          assert names[1..][i - 1] == names[i];
          assert forall j :: 0 <= j < i - 1 ==> names[1..][j] == names[j + 1];
        }
        if FirstHeader(names, header) == Some(ip) {
          var i :| 0 <= i < |names[1..]| && header(names[1..][i]) != [] && header(names[1..][i])[0] == ip
                   && forall j :: 0 <= j < i ==> header(names[1..][j]) == [];
          assert forall j :: 0 < j < i + 1 ==> names[j] == names[1..][j - 1];
          assert names[i + 1] == names[1..][i];
        }
      } else {
        if exists i :: 0 <= i < |names| && header(names[i]) != [] && header(names[i])[0] == ip
                       && forall j :: 0 <= j < i ==> header(names[j]) == [] {
          var i :| 0 <= i < |names| && header(names[i]) != [] && header(names[i])[0] == ip
                   && forall j :: 0 <= j < i ==> header(names[j]) == [];
          assert i == 0;
        }
      }
    }
  }

  /** No listed header present: `FirstHeader` has nothing. */
  lemma {:induction false} FirstHeaderNone(names: seq<string>, header: string -> seq<string>)
    ensures FirstHeader(names, header) == None <==> forall i :: 0 <= i < |names| ==> header(names[i]) == []
  {
    if names != [] {
      FirstHeaderNone(names[1..], header);
      assert forall i :: 0 < i < |names| ==> names[i] == names[1..][i - 1];
    }
  }

  /** The value the `string` return type makes of `$ip`. */
  function ReturnString(v: Value): Result<string> {
    match StrArg(v)
    case Some(s) => Ok(s)
    case None => Err(TypeError("getClientIp(): Return value must be of type string"))
  }

  /**
   * `getClientIp($request)`: the first value of the first present header
   * among `IpHeaders`, else the server's `remote_addr` (its element 0 when
   * it is an array).
   */
  function ClientIp(header: string -> seq<string>, remoteAddr: Value): Result<string> {
    match FirstHeader(IpHeaders, header)
    case Some(ip) => Ok(ip)
    case None => ReturnString(if remoteAddr.Arr? then Get(remoteAddr.entries, IntKey(0)) else remoteAddr)
  }

  /** `getHeader` yields nothing exactly when the header is absent; element 0 is its first value. */
  lemma HeaderEntriesFirst(lines: seq<string>)
    ensures Empty(Arr(HeaderEntries(lines))) <==> lines == []
    ensures lines != [] ==> Get(HeaderEntries(lines), IntKey(0)) == Str(lines[0])
  {
    if lines != [] {
      assert HeaderEntries(lines)[0] == (IntKey(0), Str(lines[0]));
      assert HasKey(HeaderEntries(lines), IntKey(0));
    }
  }

  /**
   * After `n` links of the chain, `$ip` is still empty and the answer lies
   * in the remaining headers, or it holds the answer's header values.
   */
  ghost predicate ChainAt(header: string -> seq<string>, ip: Value, n: nat, answer: Option<string>)
    requires n <= |IpHeaders|
  {
    if Empty(ip) then answer == FirstHeader(IpHeaders[n..], header)
    else ip.Arr? && answer.Some? && Get(ip.entries, IntKey(0)) == Str(answer.value)
  }

  lemma ChainStep(header: string -> seq<string>, ip: Value, n: nat, answer: Option<string>)
    requires n < |IpHeaders| && ChainAt(header, ip, n, answer)
    ensures ChainAt(header, if Empty(ip) then Arr(HeaderEntries(header(IpHeaders[n]))) else ip, n + 1, answer)
  {
    HeaderEntriesFirst(header(IpHeaders[n]));
    assert IpHeaders[n..][0] == IpHeaders[n] && IpHeaders[n..][1..] == IpHeaders[n + 1..];
  }

  /** `$ip` after the first `n` links of the chain. */
  function IpAfter(header: string -> seq<string>, n: nat): Value
    requires 1 <= n <= |IpHeaders|
  {
    if n == 1 then Arr(HeaderEntries(header(IpHeaders[0])))
    else
      var prev := IpAfter(header, n - 1);
      if Empty(prev) then Arr(HeaderEntries(header(IpHeaders[n - 1]))) else prev
  }

  lemma {:induction false} ChainAfter(header: string -> seq<string>, n: nat)
    requires 1 <= n <= |IpHeaders|
    ensures ChainAt(header, IpAfter(header, n), n, FirstHeader(IpHeaders, header))
  {
    if n == 1 {
      assert IpHeaders[0..] == IpHeaders;
      ChainStep(header, Null, 0, FirstHeader(IpHeaders, header));
    } else {
      ChainAfter(header, n - 1);
      ChainStep(header, IpAfter(header, n - 1), n - 1, FirstHeader(IpHeaders, header));
    }
  }

  /** After the whole chain, the fallback to `remote_addr` and the `string` return give `ClientIp`. */
  lemma ClientIpAfter(header: string -> seq<string>, remoteAddr: Value)
    ensures var v := IpAfter(header, |IpHeaders|);
            var w := if Empty(v) then remoteAddr else v;
            ReturnString(if w.Arr? then Get(w.entries, IntKey(0)) else w) == ClientIp(header, remoteAddr)
  {
    ChainAfter(header, |IpHeaders|);
    assert IpHeaders[|IpHeaders|..] == [];
  }

  /**
   * The fallback chain as written: `header(name)` is `getHeader(name)` and
   * `remoteAddr` is the Swoole server's `remote_addr` entry.
   */
  method GetClientIp(header: string -> seq<string>, remoteAddr: Value) returns (r: Result<string>)
    ensures r == ClientIp(header, remoteAddr)
  {
    var ip := Arr(HeaderEntries(header("x-real-ip")));
    assert ip == IpAfter(header, 1);
    if Empty(ip) {
      ip := Arr(HeaderEntries(header("remote-addr")));
    }
    assert ip == IpAfter(header, 2);
    if Empty(ip) {
      ip := Arr(HeaderEntries(header("remote_addr")));
    }
    assert ip == IpAfter(header, 3);
    if Empty(ip) {
      ip := Arr(HeaderEntries(header("x_real_ip")));
    }
    assert ip == IpAfter(header, 4);
    if Empty(ip) {
      ip := Arr(HeaderEntries(header("remote_ip")));
    }
    assert ip == IpAfter(header, 5);
    if Empty(ip) {
      ip := Arr(HeaderEntries(header("remote-ip")));
    }
    assert ip == IpAfter(header, 6);
    ClientIpAfter(header, remoteAddr);
    if Empty(ip) {
      ip := remoteAddr;
    }
    if ip.Arr? {
      ip := Get(ip.entries, IntKey(0));
    }
    r := ReturnString(ip);
  }
}
