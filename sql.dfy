/**
 * Statement text and its bound parameters.
 *
 * A statement is kept as a sequence of pieces so that the placeholders it
 * mentions can be compared with the parameter map: literal text, quoted
 * identifiers, the builder's generated placeholders `:MeD<n>_mK<suffix>` and
 * the `:name` parameters written inside raw fragments.
 */
module Sql {
  import opened Php

  datatype Piece =
    | Lit(text: string)
    | Ident(name: string)
    | Ph(n: nat, suffix: string)
    | Param(name: string)

  type Sql = seq<Piece>

  /** The name of generated placeholder number `n` with a suffix. */
  function PhName(n: nat, suffix: string): string {
    ":MeD" + NatStr(n) + "_mK" + suffix
  }

  /** Position of the first non-digit at or after `i`. */
  function DigitRunEnd(s: string, i: nat): (r: nat)
    requires i <= |s|
    ensures i <= r <= |s|
    decreases |s| - i
  {
    if i < |s| && IsDigit(s[i]) then DigitRunEnd(s, i + 1) else i
  }

  lemma {:induction false} DigitRunEndOf(d: string, rest: string, i: nat)
    requires i <= |d| && AllDigits(d) && |rest| > 0 && !IsDigit(rest[0])
    ensures DigitRunEnd(d + rest, i) == |d|
    decreases |d| - i
  {
    if i < |d| {
      DigitRunEndOf(d, rest, i + 1);
    } else {
      assert (d + rest)[i] == rest[0];
    }
  }

  /** Two generated placeholder names are equal only for equal counters and suffixes. */
  lemma PhNameInjective(n: nat, s: string, m: nat, t: string)
    requires PhName(n, s) == PhName(m, t)
    ensures n == m && s == t
  {
    var a, b := NatStr(n), NatStr(m);
    NatStrShape(n);
    NatStrShape(m);
    var x := PhName(n, s)[4..];
    assert x == a + ("_mK" + s);
    assert x == b + ("_mK" + t);
    DigitRunEndOf(a, "_mK" + s, 0);
    DigitRunEndOf(b, "_mK" + t, 0);
    assert |a| == |b|;
    assert a == x[..|a|] == b;
    NatStrInjective(n, m);
    assert s == x[|a| + 3..] == t;
  }

  lemma PhNameDistinct(n: nat, s: string, m: nat, t: string)
    requires n != m || s != t
    ensures PhName(n, s) != PhName(m, t)
  {
    if PhName(n, s) == PhName(m, t) {
      PhNameInjective(n, s, m, t);
    }
  }

  function PieceText(p: Piece): string {
    match p
    case Lit(t) => t
    case Ident(n) => "\"" + n + "\""
    case Ph(n, sfx) => PhName(n, sfx)
    case Param(n) => n
  }

  /** The statement text handed to the driver. */
  function Render(q: Sql): string {
    if q == [] then "" else PieceText(q[0]) + Render(q[1..])
  }

  lemma {:induction false} RenderConcat(a: Sql, b: Sql)
    ensures Render(a + b) == Render(a) + Render(b)
  {
    if a != [] {
      assert (a + b)[1..] == a[1..] + b;
      RenderConcat(a[1..], b);
    } else {
      assert a + b == b;
    }
  }

  lemma RenderPair(a: Piece, b: Piece)
    ensures Render([a, b]) == PieceText(a) + PieceText(b)
  {
    assert [a, b][1..] == [b];
    assert [b][1..] == [];
    assert Render([b]) == PieceText(b) + Render([]);
  }

  lemma HolesPair(a: Piece, b: Piece)
    ensures Holes([a, b]) == Holes([a]) + Holes([b])
  {
    assert [a, b][1..] == [b];
    assert [a][1..] == [];
    assert [b][1..] == [];
  }

  lemma Render3(a: Piece, b: Piece, c: Piece)
    ensures Render([a, b, c]) == PieceText(a) + PieceText(b) + PieceText(c)
    ensures Holes([a, b, c]) == Holes([a]) + Holes([b]) + Holes([c])
  {
    assert [a, b, c][1..] == [b, c];
    RenderPair(b, c);
    HolesPair(b, c);
    assert [a][1..] == [];
  }

  /** `implode($sep, $parts)` */
  function Join(parts: seq<Sql>, sep: string): Sql {
    if parts == [] then []
    else if |parts| == 1 then parts[0]
    else parts[0] + [Lit(sep)] + Join(parts[1..], sep)
  }

  function Flatten(parts: seq<Sql>): Sql {
    if parts == [] then [] else parts[0] + Flatten(parts[1..])
  }

  lemma FlattenSingle(q: Sql)
    ensures Flatten([q]) == q
  {
    assert [q][1..] == [];
    assert q + [] == q;
  }

  lemma {:induction false} FlattenAppend(parts: seq<Sql>, q: Sql)
    ensures Flatten(parts + [q]) == Flatten(parts) + q
  {
    if parts == [] {
      assert Flatten([q]) == q + Flatten([]);
    } else {
      assert (parts + [q])[1..] == parts[1..] + [q];
      FlattenAppend(parts[1..], q);
    }
  }

  lemma {:induction false} FlattenConcat(a: seq<Sql>, b: seq<Sql>)
    ensures Flatten(a + b) == Flatten(a) + Flatten(b)
  {
    if a == [] {
      assert a + b == b;
    } else {
      assert (a + b)[1..] == a[1..] + b;
      FlattenConcat(a[1..], b);
    }
  }

  // ---------------------------------------------------------------------
  // Bound parameters

  /** PDO::PARAM_NULL, PARAM_INT, PARAM_STR, PARAM_LOB, PARAM_BOOL; NoType for an unmapped type. */
  datatype PdoType = ParamNull | ParamInt | ParamStr | ParamLob | ParamBool | NoType

  /** The value bound: as is, through serialize(), or through json_encode(). */
  datatype BindValue = Plain(v: Value) | Serialized(sv: Value) | JsonEncoded(jv: Value)

  datatype Binding = Binding(value: BindValue, ty: PdoType)

  /** The `$map` of name => [value, type] that exec() binds, in insertion order. */
  type ParamMap = seq<(string, Binding)>

  function Names<V>(m: seq<(string, V)>): set<string> {
    set i | 0 <= i < |m| :: m[i].0
  }

  predicate HasName<V>(m: seq<(string, V)>, k: string) {
    exists i :: 0 <= i < |m| && m[i].0 == k
  }

  function NameIndex<V>(m: seq<(string, V)>, k: string): (r: nat)
    requires HasName(m, k)
    ensures r < |m| && m[r].0 == k
    ensures forall j :: 0 <= j < r ==> m[j].0 != k
  {
    if m[0].0 == k then 0 else NameIndex(m[1..], k) + 1
  }

  /** `$m[$k] = $v` for a string-keyed array. */
  function Assign<V>(m: seq<(string, V)>, k: string, v: V): (r: seq<(string, V)>)
    ensures Names(r) == Names(m) + {k}
    ensures HasName(m, k) ==> |r| == |m|
    ensures !HasName(m, k) ==> r == m + [(k, v)]
  {
    if HasName(m, k) then
      var j := NameIndex(m, k);
      var r := m[j := (k, v)];
      assert forall i :: 0 <= i < |r| ==> r[i].0 == m[i].0;
      r
    else
      var r := m + [(k, v)];
      assert r[|m|].0 == k;
      assert forall i :: 0 <= i < |m| ==> r[i].0 == m[i].0;
      r
  }

  /** `$m[$k]`: the value bound under `k`, if any. */
  function Lookup<V>(m: seq<(string, V)>, k: string): Option<V> {
    if HasName(m, k) then Some(m[NameIndex(m, k)].1) else None
  }

  /** After `$m[$k] = $v`, `k` reads `v` and every other name reads what it read before. */
  lemma AssignLookup<V>(m: seq<(string, V)>, k: string, v: V, x: string)
    ensures Lookup(Assign(m, k, v), x) == if x == k then Some(v) else Lookup(m, x)
  {
    var r := Assign(m, k, v);
    assert forall i :: 0 <= i < |m| ==> r[i].0 == m[i].0;
    if HasName(m, k) {
      var j := NameIndex(m, k);
      assert r == m[j := (k, v)];
      if x == k {
        assert NameIndex(r, k) == j by { NameIndexSame(r, m, k); }
      } else if HasName(m, x) {
        NameIndexSame(r, m, x);
      }
    } else {
      assert r[|m|] == (k, v);
      if x == k {
        NameIndexSame(r, m, k);
      } else if HasName(m, x) {
        NameIndexSame(r, m, x);
      }
    }
  }

  /** Maps that agree on names up to the first `x` find `x` at the same place. */
  lemma {:induction false} NameIndexSame<V>(r: seq<(string, V)>, m: seq<(string, V)>, x: string)
    requires |m| <= |r| && forall i :: 0 <= i < |m| ==> r[i].0 == m[i].0
    requires HasName(m, x) || (|m| < |r| && r[|m|].0 == x)
    ensures HasName(r, x)
    ensures NameIndex(r, x) == if HasName(m, x) then NameIndex(m, x) else |m|
    decreases |m|
  {
    if m != [] && r[0].0 != x {
      NameIndexSame(r[1..], m[1..], x);
    }
  }

  /** The builder's mutable compile state: the parameter map and the placeholder counter. */
  datatype St = St(params: ParamMap, guid: nat)

  // ---------------------------------------------------------------------
  // Placeholders and what they refer to

  /** The placeholders a statement mentions, in order. */
  function Holes(q: Sql): (h: seq<Piece>)
    ensures forall i :: 0 <= i < |h| ==> h[i].Ph? || h[i].Param?
  {
    if q == [] then []
    else (if q[0].Ph? || q[0].Param? then [q[0]] else []) + Holes(q[1..])
  }

  function HoleName(p: Piece): string {
    match p
    case Ph(n, sfx) => PhName(n, sfx)
    case Param(name) => name
    case _ => ""
  }

  lemma {:induction false} HolesConcat(a: Sql, b: Sql)
    ensures Holes(a + b) == Holes(a) + Holes(b)
  {
    if a == [] {
      assert a + b == b;
    } else {
      assert (a + b)[1..] == a[1..] + b;
      HolesConcat(a[1..], b);
    }
  }

  /** Separators add no placeholder: implode keeps exactly the placeholders of its parts. */
  lemma {:induction false} HolesJoin(parts: seq<Sql>, sep: string)
    ensures Holes(Join(parts, sep)) == Holes(Flatten(parts))
  {
    if |parts| == 1 {
      assert parts[1..] == [];
      assert Flatten(parts) == parts[0] + [];
      assert parts[0] + [] == parts[0];
    } else if |parts| > 1 {
      HolesConcat(parts[0] + [Lit(sep)], Join(parts[1..], sep));
      HolesConcat(parts[0], [Lit(sep)]);
      HolesConcat(parts[0], Flatten(parts[1..]));
      HolesJoin(parts[1..], sep);
    }
  }

  /** The state only grows: the counter never goes back and no parameter is removed. */
  ghost predicate Grows(s0: St, s1: St) {
    s0.guid <= s1.guid && Names(s0.params) <= Names(s1.params)
  }

  /**
   * `h` (the placeholders of some statement produced while the state went
   * from `s0` to `s1`) are all bound in `s1`'s map, its generated placeholders
   * were drawn from the counters handed out in between, and no generated
   * placeholder occurs twice.
   */
  ghost predicate SoundHoles(h: seq<Piece>, s0: St, s1: St) {
    && Grows(s0, s1)
    && (forall i :: 0 <= i < |h| ==> HoleName(h[i]) in Names(s1.params))
    && (forall i :: 0 <= i < |h| && h[i].Ph? ==> s0.guid <= h[i].n < s1.guid)
    && (forall i, j :: 0 <= i < j < |h| && h[i].Ph? && h[j].Ph? ==> h[i] != h[j])
  }

  ghost predicate Sound(q: Sql, s0: St, s1: St) {
    SoundHoles(Holes(q), s0, s1)
  }

  /** Statements produced one after the other compose. */
  lemma SoundConcat(a: Sql, b: Sql, s0: St, s1: St, s2: St)
    requires Sound(a, s0, s1) && Sound(b, s1, s2)
    ensures Sound(a + b, s0, s2)
  {
    HolesConcat(a, b);
    var h, ha, hb := Holes(a + b), Holes(a), Holes(b);
    forall i, j | 0 <= i < j < |h| && h[i].Ph? && h[j].Ph?
      ensures h[i] != h[j]
    {
      if j < |ha| {
        assert h[i] == ha[i] && h[j] == ha[j];
      } else if i >= |ha| {
        assert h[i] == hb[i - |ha|] && h[j] == hb[j - |ha|];
      } else {
        assert h[i].n < s1.guid <= h[j].n;
      }
    }
  }

  /** A statement stays sound while the state keeps growing. */
  lemma SoundGrow(q: Sql, s0: St, s1: St, s2: St)
    requires Sound(q, s0, s1) && Grows(s1, s2)
    ensures Sound(q, s0, s2)
  {
  }

  lemma SoundNoHoles(q: Sql, s0: St, s1: St)
    requires Holes(q) == [] && Grows(s0, s1)
    ensures Sound(q, s0, s1)
  {
  }

  lemma SoundJoin(parts: seq<Sql>, sep: string, s0: St, s1: St)
    requires Sound(Flatten(parts), s0, s1)
    ensures Sound(Join(parts, sep), s0, s1)
  {
    HolesJoin(parts, sep);
  }

  /** A literal in front adds no placeholder. */
  lemma SoundLitFront(w: string, q: Sql, s0: St, s1: St)
    requires Sound(q, s0, s1)
    ensures Sound([Lit(w)] + q, s0, s1)
  {
    HolesConcat([Lit(w)], q);
    assert [Lit(w)][1..] == [];
  }

  /** Wrapping a sound statement in literal text keeps it sound. */
  lemma SoundWrap(pre: Sql, q: Sql, post: Sql, s0: St, s1: St)
    requires Holes(pre) == [] && Holes(post) == [] && Sound(q, s0, s1)
    ensures Sound(pre + q + post, s0, s1)
  {
    HolesConcat(pre, q);
    HolesConcat(pre + q, post);
  }

  /** Every hole is a named parameter bound in `names`. */
  ghost predicate ParamsIn(h: seq<Piece>, names: set<string>) {
    forall i :: 0 <= i < |h| ==> h[i].Param? && HoleName(h[i]) in names
  }

  lemma SoundParams(q: Sql, s0: St, s1: St)
    requires Grows(s0, s1) && ParamsIn(Holes(q), Names(s1.params))
    ensures Sound(q, s0, s1)
  {
  }

  lemma ParamsInConcat(a: Sql, b: Sql, names: set<string>)
    requires ParamsIn(Holes(a), names) && ParamsIn(Holes(b), names)
    ensures ParamsIn(Holes(a + b), names)
  {
    HolesConcat(a, b);
  }

  lemma ParamsInGrow(h: seq<Piece>, names: set<string>, more: set<string>)
    requires ParamsIn(h, names) && names <= more
    ensures ParamsIn(h, more)
  {
  }
}
