/**
 * The condition compiler, dataImplode(): each entry of a condition array
 * becomes one SQL condition (or none), and the conditions are joined by the
 * conjunctor. Every entry that is not an `AND`/`OR` group draws one counter
 * value from the placeholder generator, whether it uses it or not.
 */
module Conditions {
  import opened Php
  import opened Sql
  import opened Quoting
  import opened Patterns

  /** The operators that compare two columns in an integer-keyed `a[op]b` entry. */
  const ColumnComparisons: seq<string> := [">", ">=", "<", "<=", "=", "!="]

  /** The operators that compare a column with a value. */
  const Orderings: seq<string> := [">", ">=", "<", "<="]

  /** `$operator && $operator != '='` fails: the entry is an equality test. */
  predicate IsEquality(op: Option<string>) {
    op.None? || !TruthyStr(op.value) || op.value == "="
  }

  /** The state after one counter value was drawn. */
  function Draw(s: St): (r: St)
    ensures r.guid == s.guid + 1 && r.params == s.params
  {
    s.(guid := s.guid + 1)
  }

  /** `$map[$name] = $binding` on the state's map. */
  function Bind(s: St, name: string, b: Binding): (r: St)
    ensures r.guid == s.guid && Names(r.params) == Names(s.params) + {name}
  {
    s.(params := Assign(s.params, name, b))
  }

  // ---------------------------------------------------------------------
  // IN lists

  /** The placeholder of item `index` of an `IN (...)` list drawn with counter `n`. */
  function InPh(n: nat, index: Key): Piece {
    Ph(n, KeyStr(index) + "_i")
  }

  function InPhs(es: PArray, n: nat): (r: seq<Piece>)
    ensures |r| == |es| && forall i :: 0 <= i < |es| ==> r[i] == InPh(n, es[i].0)
  {
    seq(|es|, i requires 0 <= i < |es| => InPh(n, es[i].0))
  }

  /** Each piece as a statement of its own. */
  function Singles(ps: seq<Piece>): (r: seq<Sql>)
    ensures |r| == |ps| && forall i :: 0 <= i < |ps| ==> r[i] == [ps[i]]
  {
    seq(|ps|, i requires 0 <= i < |ps| => [ps[i]])
  }

  /** Each item bound under its own placeholder with typeMap()'s type. */
  function BindItems(m: ParamMap, es: PArray, n: nat): (r: ParamMap)
    ensures Names(r) == Names(m) + set i | 0 <= i < |es| :: PhName(n, KeyStr(es[i].0) + "_i")
    decreases es
  {
    if es == [] then m
    else
      var r := BindItems(Assign(m, PhName(n, KeyStr(es[0].0) + "_i"), TypeMap(es[0].1)), es[1..], n);
      InNamesCons(es, n);
      r
  }

  lemma InNamesCons(es: PArray, n: nat)
    requires es != []
    ensures (set i | 0 <= i < |es| :: PhName(n, KeyStr(es[i].0) + "_i")) ==
      {PhName(n, KeyStr(es[0].0) + "_i")} + set i | 0 <= i < |es[1..]| :: PhName(n, KeyStr(es[1..][i].0) + "_i")
  {
    forall i | 1 <= i < |es| ensures es[i] == es[1..][i - 1] { }
  }

  /** `col IN (:p0_i, :p1_i, …)`, or `NOT IN`. */
  function InList(column: Sql, negate: bool, es: PArray, n: nat, s: St): (seq<Sql>, St) {
    var word := if negate then " NOT IN (" else " IN (";
    ([column + [Lit(word)] + Join(Singles(InPhs(es, n)), ", ") + [Lit(")")]],
     s.(params := BindItems(s.params, es, n)))
  }

  // ---------------------------------------------------------------------
  // LIKE

  /** The alternatives a `[~]` value lists, and the word that joins them. */
  function LikeAlternatives(v: Value): (PArray, string) {
    var es := if v.Arr? then v.entries else [(IntKey(0), v)];
    if |es| > 0 && es[0].1.Arr? && (IsSet(es, StrKey("AND")) || IsSet(es, StrKey("OR"))) then
      (es[0].1.entries, " " + KeyStr(es[0].0) + " ")
    else (es, " OR ")
  }

  function LikePh(n: nat, index: Key): Piece {
    Ph(n, "L" + KeyStr(index))
  }

  /** One `col [NOT ]LIKE :pL<index>` clause per alternative, each bound as a string. */
  function LikeClauses(column: Sql, negate: bool, es: PArray, n: nat, m: ParamMap): (r: Result<(seq<Sql>, ParamMap)>)
    ensures r.Ok? ==> |r.value.0| == |es|
    decreases es
  {
    if es == [] then Ok(([], m))
    else
      var text :- match StrCast(es[0].1)
        case None => Err(TypeError("strval(): object has no string form"))
        case Some(t) => Ok(t);
      var clause := column + [Lit(if negate then " NOT LIKE " else " LIKE "), LikePh(n, es[0].0)];
      var m1 := Assign(m, PhName(n, "L" + KeyStr(es[0].0)), Binding(Plain(Str(LikeItem(text))), ParamStr));
      var (rest, m2) :- LikeClauses(column, negate, es[1..], n, m1);
      Ok(([clause] + rest, m2))
  }

  function Like(column: Sql, negate: bool, v: Value, n: nat, s: St): Result<(seq<Sql>, St)> {
    var (es, connector) := LikeAlternatives(v);
    var (clauses, m) :- LikeClauses(column, negate, es, n, s.params);
    Ok(([[Lit("(")] + Join(clauses, connector) + [Lit(")")]], s.(params := m)))
  }

  // ---------------------------------------------------------------------
  // BETWEEN

  function Between(prefix: string, column: Sql, negate: bool, v: Value, n: nat, s: St): Result<(seq<Sql>, St)> {
    if !v.Arr? then Ok(([], s))
    else
      var col := if negate then column + [Lit(" NOT")] else column;
      var lo, hi := Get(v.entries, IntKey(0)), Get(v.entries, IntKey(1));
      if lo.Raw? && hi.Raw? then
        var r0 :- BuildRaw(prefix, lo, s.params);
        var r1 :- BuildRaw(prefix, hi, r0.value.1);
        Ok(([[Lit("(")] + col + [Lit(" BETWEEN ")] + r0.value.0 + [Lit(" AND ")] + r1.value.0 + [Lit(")")]],
            s.(params := r1.value.1)))
      else
        var ty := if IsNumeric(lo) && IsNumeric(hi) then ParamInt else ParamStr;
        var m := Assign(Assign(s.params, PhName(n, "a"), Binding(Plain(lo), ty)), PhName(n, "b"), Binding(Plain(hi), ty));
        Ok(([[Lit("(")] + col + [Lit(" BETWEEN "), Ph(n, "a"), Lit(" AND "), Ph(n, "b"), Lit(")")]], s.(params := m)))
  }

  // ---------------------------------------------------------------------
  // Single conditions

  /** The equality switch, or the `[!]` switch when `negate` holds. */
  function Compare(prefix: string, column: Sql, negate: bool, v: Value, n: nat, s: St): Result<(seq<Sql>, St)> {
    match v
    case Null => Ok(([column + [Lit(if negate then " IS NOT NULL" else " IS NULL")]], s))
    case Arr(es) => Ok(InList(column, negate, es, n, s))
    case Raw(_) =>
      var raw :- BuildRaw(prefix, v, s.params);
      var (q, m) := raw.value;
      if TruthySql(q) then Ok(([column + [Lit(if negate then " != " else " = ")] + q], s.(params := m)))
      else Ok(([], s.(params := m)))
    case Obj(_) => Ok(([], s))
    case _ => Ok(([column + [Lit(if negate then " != " else " = "), Ph(n, "")]], Bind(s, PhName(n, ""), TypeMap(v))))
  }

  /** `col > :p` and friends: a number binds as an int, a truthy raw fragment is inlined. */
  function Ordering(prefix: string, column: Sql, op: string, v: Value, n: nat, s: St): Result<(seq<Sql>, St)> {
    var pre := column + [Lit(" " + op + " ")];
    if IsNumeric(v) then Ok(([pre + [Ph(n, "")]], Bind(s, PhName(n, ""), Binding(Plain(v), ParamInt))))
    else
      var raw :- BuildRaw(prefix, v, s.params);
      if raw.Some? && TruthySql(raw.value.0) then Ok(([pre + raw.value.0], s.(params := raw.value.1)))
      else
        var m := if raw.Some? then raw.value.1 else s.params;
        Ok(([pre + [Ph(n, "")]], Bind(s.(params := m), PhName(n, ""), Binding(Plain(v), ParamStr))))
  }

  /** An entry with an operator other than `=`. */
  function Operator(prefix: string, column: Sql, op: string, v: Value, n: nat, s: St): (r: Result<(seq<Sql>, St)>)
    ensures r.Err? && !(op in Orderings || op in ["!", "~", "!~", "<>", "><", "REGEXP"]) ==>
      r.error == InvalidOperator(Render(column), op)
  {
    if op in Orderings then Ordering(prefix, column, op, v, n, s)
    else if op == "!" then Compare(prefix, column, true, v, n, s)
    else if op == "~" || op == "!~" then Like(column, op == "!~", v, n, s)
    else if op == "<>" || op == "><" then Between(prefix, column, op == "><", v, n, s)
    else if op == "REGEXP" then
      Ok(([column + [Lit(" REGEXP "), Ph(n, "")]], Bind(s, PhName(n, ""), Binding(Plain(v), ParamStr))))
    else Err(InvalidOperator(Render(column), op))
  }

  /** The text the key pattern is matched against: the key, or the value of an integer key. */
  function KeySubject(e: (Key, Value)): Result<string> {
    match e.0
    case StrKey(k) => Ok(k)
    case IntKey(_) =>
      match Subject(e.1)
      case None => Err(TypeError("preg_match(): subject must be of type string"))
      case Some(t) => Ok(t)
  }

  /** One entry that is not an `AND`/`OR` group, compiled with counter value `n`. */
  function Leaf(prefix: string, e: (Key, Value), n: nat, s: St): Result<(seq<Sql>, St)> {
    var subject :- KeySubject(e);
    var key :- match ParseCondKey(subject)
      case None => Err(TypeError("columnQuote(): argument must be of type string"))
      case Some(k) => Ok(k);
    var column :- ColumnQuote(prefix, key.column);
    if e.0.IntKey? && key.trail.Some? && key.op.Some? && key.op.value in ColumnComparisons then
      var other :- ColumnQuote(prefix, key.trail.value);
      Ok(([column + [Lit(" " + key.op.value + " ")] + other], s))
    else if !IsEquality(key.op) then Operator(prefix, column, key.op.value, e.1, n, s)
    else Compare(prefix, column, false, e.1, n, s)
  }

  // ---------------------------------------------------------------------
  // dataImplode()

  /** dataImplode(): the conditions joined by `conjunctor`, and the new state. */
  function Implode(prefix: string, data: PArray, conjunctor: string, s: St): Result<(Sql, St)>
    decreases data, 2
  {
    var (stack, s1) :- Conditions(prefix, data, [], s);
    Ok((Join(stack, conjunctor + " "), s1))
  }

  /** The loop of dataImplode(): the conditions of `data` pushed onto `stack`. */
  function Conditions(prefix: string, data: PArray, stack: seq<Sql>, s: St): Result<(seq<Sql>, St)>
    decreases data, 1
  {
    if data == [] then Ok((stack, s))
    else
      var (items, s1) :- Condition(prefix, data[0], s);
      Conditions(prefix, data[1..], stack + items, s1)
  }

  /** The conditions one entry contributes: none or one. */
  function Condition(prefix: string, e: (Key, Value), s: St): Result<(seq<Sql>, St)>
    decreases e, 0
  {
    var relation := Relation(e.0);
    if e.1.Arr? && relation.Some? then
      var (q, s1) :- Implode(prefix, e.1.entries, " " + relation.value, s);
      Ok(([[Lit("(")] + q + [Lit(")")]], s1))
    else Leaf(prefix, e, s.guid, Draw(s))
  }

  // ---------------------------------------------------------------------
  // Well-formed input: PHP arrays (unique, normalised keys) and closed raw fragments

  ghost predicate WfEntries(es: PArray)
    decreases es, 1
  {
    UniqueKeys(es) && forall i :: 0 <= i < |es| ==> WfEntry(es[i])
  }

  ghost predicate WfEntry(e: (Key, Value))
    decreases e, 0
  {
    WfKey(e.0) && WfValue(e.1)
  }

  ghost predicate WfValue(v: Value)
    decreases v, 2
  {
    match v
    case Arr(es) => WfEntries(es)
    case Raw(f) => Closed(f)
    case _ => true
  }

  // ---------------------------------------------------------------------
  // Placeholder soundness

  lemma {:induction false} HolesOfSingles(ps: seq<Piece>)
    requires forall i :: 0 <= i < |ps| ==> ps[i].Ph?
    ensures Holes(Flatten(Singles(ps))) == ps
    decreases ps
  {
    if ps != [] {
      assert Singles(ps) == [[ps[0]]] + Singles(ps[1..]);
      assert Singles(ps)[1..] == Singles(ps[1..]);
      HolesConcat([ps[0]], Flatten(Singles(ps[1..])));
      HolesOfSingles(ps[1..]);
    }
  }

  /** Distinct keys of one array give distinct `_i` placeholders. */
  lemma InPhsDistinct(es: PArray, n: nat)
    requires UniqueKeys(es) && forall i :: 0 <= i < |es| ==> WfKey(es[i].0)
    ensures forall i, j :: 0 <= i < j < |es| ==> InPh(n, es[i].0) != InPh(n, es[j].0)
  {
    forall i, j | 0 <= i < j < |es| ensures InPh(n, es[i].0) != InPh(n, es[j].0) {
      KeyStrDistinct(es[i].0, es[j].0);
      AppendDistinct(KeyStr(es[i].0), KeyStr(es[j].0), "_i");
    }
  }

  lemma KeyStrDistinct(a: Key, b: Key)
    requires WfKey(a) && WfKey(b) && a != b
    ensures KeyStr(a) != KeyStr(b)
  {
    if KeyStr(a) == KeyStr(b) {
      KeyStrInjective(a, b);
    }
  }

  lemma AppendDistinct(a: string, b: string, t: string)
    requires a != b
    ensures a + t != b + t && t + a != t + b
  {
    if |a| == |b| {
      assert (a + t)[..|a|] == a && (b + t)[..|b|] == b;
      assert (t + a)[|t|..] == a && (t + b)[|t|..] == b;
    }
  }

  /** A statement whose holes are distinct bound placeholders drawn with counter `s0.guid`. */
  lemma SoundDrawn(q: Sql, s0: St, s1: St)
    requires Grows(s0, s1) && s0.guid < s1.guid
    requires forall i :: 0 <= i < |Holes(q)| ==>
      Holes(q)[i].Ph? && Holes(q)[i].n == s0.guid && HoleName(Holes(q)[i]) in Names(s1.params)
    requires forall i, j :: 0 <= i < j < |Holes(q)| ==> Holes(q)[i] != Holes(q)[j]
    ensures Sound(q, s0, s1)
  {
  }

  lemma HolesWrapped(pre: Sql, q: Sql, post: Sql)
    requires Holes(pre) == [] && Holes(post) == []
    ensures Holes(pre + q + post) == Holes(q)
  {
    HolesConcat(pre, q);
    HolesConcat(pre + q, post);
  }

  lemma InListSound(column: Sql, negate: bool, es: PArray, s0: St)
    requires Holes(column) == [] && UniqueKeys(es) && forall i :: 0 <= i < |es| ==> WfKey(es[i].0)
    ensures var (items, s1) := InList(column, negate, es, s0.guid, Draw(s0));
      |items| == 1 && Sound(Flatten(items), s0, s1)
  {
    var n := s0.guid;
    var (items, s1) := InList(column, negate, es, n, Draw(s0));
    InListHoles(column, negate, es, n, Draw(s0));
    InPhsSound(Flatten(items), es, s0, s1);
  }

  /** What the IN list writes: one item whose placeholders are one per element, all bound. */
  lemma InListHoles(column: Sql, negate: bool, es: PArray, n: nat, s: St)
    requires Holes(column) == []
    ensures var (items, s1) := InList(column, negate, es, n, s);
      && |items| == 1 && Holes(Flatten(items)) == InPhs(es, n) && s1.guid == s.guid
      && Names(s1.params) == Names(s.params) + set i | 0 <= i < |es| :: PhName(n, KeyStr(es[i].0) + "_i")
  {
    var (items, s1) := InList(column, negate, es, n, s);
    var word := if negate then " NOT IN (" else " IN (";
    var ps := InPhs(es, n);
    HolesOfSingles(ps);
    HolesJoin(Singles(ps), ", ");
    HolesConcat(column, [Lit(word)]);
    HolesWrapped(column + [Lit(word)], Join(Singles(ps), ", "), [Lit(")")]);
    FlattenSingle(items[0]);
  }

  /** Placeholders drawn one per distinct element key, with the counter of `s0`, and all bound, are sound. */
  lemma InPhsSound(q: Sql, es: PArray, s0: St, s1: St)
    requires UniqueKeys(es) && forall i :: 0 <= i < |es| ==> WfKey(es[i].0)
    requires Holes(q) == InPhs(es, s0.guid) && Grows(s0, s1) && s0.guid < s1.guid
    requires forall i :: 0 <= i < |es| ==> PhName(s0.guid, KeyStr(es[i].0) + "_i") in Names(s1.params)
    ensures Sound(q, s0, s1)
  {
    var n := s0.guid;
    var ps := InPhs(es, n);
    InPhsDistinct(es, n);
    forall i | 0 <= i < |ps| ensures HoleName(ps[i]) in Names(s1.params) {
      assert HoleName(ps[i]) == PhName(n, KeyStr(es[i].0) + "_i");
    }
    SoundDrawn(q, s0, s1);
  }

  function LikePhs(es: PArray, n: nat): (r: seq<Piece>)
    ensures |r| == |es| && forall i :: 0 <= i < |es| ==> r[i] == LikePh(n, es[i].0)
  {
    seq(|es|, i requires 0 <= i < |es| => LikePh(n, es[i].0))
  }

  lemma HolesLit2(column: Sql, w: string, p: Piece)
    requires Holes(column) == [] && p.Ph?
    ensures Holes(column + [Lit(w), p]) == [p]
  {
    HolesConcat(column, [Lit(w), p]);
    assert [Lit(w), p][1..] == [p];
    assert [p][1..] == [];
    assert Holes([p]) == [p] + Holes([]);
    assert Holes([Lit(w), p]) == [] + Holes([p]);
  }

  /** The LIKE clauses mention exactly their `L<index>` placeholders. */
  lemma {:induction false} LikeClausesHoles(column: Sql, negate: bool, es: PArray, n: nat, m: ParamMap)
    requires Holes(column) == [] && LikeClauses(column, negate, es, n, m).Ok?
    ensures Holes(Flatten(LikeClauses(column, negate, es, n, m).value.0)) == LikePhs(es, n)
    decreases es
  {
    if es != [] {
      var text := StrCast(es[0].1).value;
      var w := if negate then " NOT LIKE " else " LIKE ";
      var clause := column + [Lit(w), LikePh(n, es[0].0)];
      var m1 := Assign(m, PhName(n, "L" + KeyStr(es[0].0)), Binding(Plain(Str(LikeItem(text))), ParamStr));
      LikeClausesHoles(column, negate, es[1..], n, m1);
      var rest := LikeClauses(column, negate, es[1..], n, m1).value.0;
      assert LikeClauses(column, negate, es, n, m).value.0 == [clause] + rest;
      assert ([clause] + rest)[1..] == rest;
      HolesLit2(column, w, LikePh(n, es[0].0));
      assert Flatten([clause] + rest) == clause + Flatten(rest);
      HolesConcat(clause, Flatten(rest));
      LikePhsCons(es, n);
    }
  }

  lemma LikePhsCons(es: PArray, n: nat)
    requires es != []
    ensures LikePhs(es, n) == [LikePh(n, es[0].0)] + LikePhs(es[1..], n)
  {
    var a, b := LikePhs(es, n), [LikePh(n, es[0].0)] + LikePhs(es[1..], n);
    assert |a| == |b|;
    forall i | 0 <= i < |a| ensures a[i] == b[i] {
      if i > 0 { assert es[i] == es[1..][i - 1]; }
    }
  }

  /** The LIKE clauses bind each of their placeholders. */
  lemma {:induction false} LikeClausesNames(column: Sql, negate: bool, es: PArray, n: nat, m: ParamMap)
    requires LikeClauses(column, negate, es, n, m).Ok?
    ensures Names(LikeClauses(column, negate, es, n, m).value.1) ==
      Names(m) + set i | 0 <= i < |es| :: PhName(n, "L" + KeyStr(es[i].0))
    decreases es
  {
    if es != [] {
      var text := StrCast(es[0].1).value;
      var m1 := Assign(m, PhName(n, "L" + KeyStr(es[0].0)), Binding(Plain(Str(LikeItem(text))), ParamStr));
      LikeClausesStep(column, negate, es, n, m, text, m1);
      LikeClausesNames(column, negate, es[1..], n, m1);
      assert (set i | 0 <= i < |es| :: PhName(n, "L" + KeyStr(es[i].0))) ==
        {PhName(n, "L" + KeyStr(es[0].0))} + set i | 0 <= i < |es[1..]| :: PhName(n, "L" + KeyStr(es[1..][i].0))
      by {
        forall i | 1 <= i < |es| ensures es[i] == es[1..][i - 1] { }
      }
    }
  }

  /** The keys of a well-formed array are unique and normalised. */
  lemma WfKeys(es: PArray)
    requires WfEntries(es)
    ensures UniqueKeys(es) && forall i :: 0 <= i < |es| ==> WfKey(es[i].0)
  {
    forall i | 0 <= i < |es| ensures WfKey(es[i].0) {
      assert WfEntry(es[i]);
    }
  }

  /** The alternatives of a `[~]` value are a well-formed array. */
  lemma LikeAlternativesWf(v: Value)
    requires v.Arr? ==> WfEntries(v.entries)
    ensures var (es, _) := LikeAlternatives(v);
      UniqueKeys(es) && forall i :: 0 <= i < |es| ==> WfKey(es[i].0)
  {
    if v.Arr? {
      WfKeys(v.entries);
      if |v.entries| > 0 && v.entries[0].1.Arr? {
        assert WfEntry(v.entries[0]);
        assert WfValue(v.entries[0].1);
        WfKeys(v.entries[0].1.entries);
      }
    }
  }

  lemma LikeSound(column: Sql, negate: bool, v: Value, s0: St)
    requires Holes(column) == [] && WfValue(v)
    requires Like(column, negate, v, s0.guid, Draw(s0)).Ok?
    ensures var (items, s1) := Like(column, negate, v, s0.guid, Draw(s0)).value;
      |items| == 1 && Sound(Flatten(items), s0, s1)
  {
    var n := s0.guid;
    var (items, s1) := Like(column, negate, v, n, Draw(s0)).value;
    var (es, _) := LikeAlternatives(v);
    LikeHoles(column, negate, v, n, Draw(s0));
    LikeAlternativesWf(v);
    LikePhsSound(Flatten(items), es, s0, s1);
  }

  /** What like() writes: one parenthesised item whose placeholders are one per alternative, all bound. */
  lemma LikeHoles(column: Sql, negate: bool, v: Value, n: nat, s: St)
    requires Holes(column) == [] && Like(column, negate, v, n, s).Ok?
    ensures var (items, s1) := Like(column, negate, v, n, s).value;
      var es := LikeAlternatives(v).0;
      && |items| == 1 && Holes(Flatten(items)) == LikePhs(es, n) && s1.guid == s.guid
      && Names(s1.params) == Names(s.params) + set i | 0 <= i < |es| :: PhName(n, "L" + KeyStr(es[i].0))
  {
    var (items, s1) := Like(column, negate, v, n, s).value;
    var (es, connector) := LikeAlternatives(v);
    var (clauses, m) := LikeClauses(column, negate, es, n, s.params).value;
    LikeClausesHoles(column, negate, es, n, s.params);
    LikeClausesNames(column, negate, es, n, s.params);
    HolesJoin(clauses, connector);
    HolesWrapped([Lit("(")], Join(clauses, connector), [Lit(")")]);
    FlattenSingle(items[0]);
  }

  /** Placeholders drawn one per distinct alternative key, with the counter of `s0`, and all bound, are sound. */
  lemma LikePhsSound(q: Sql, es: PArray, s0: St, s1: St)
    requires UniqueKeys(es) && forall i :: 0 <= i < |es| ==> WfKey(es[i].0)
    requires Holes(q) == LikePhs(es, s0.guid) && Grows(s0, s1) && s0.guid < s1.guid
    requires forall i :: 0 <= i < |es| ==> PhName(s0.guid, "L" + KeyStr(es[i].0)) in Names(s1.params)
    ensures Sound(q, s0, s1)
  {
    var n := s0.guid;
    var ps := LikePhs(es, n);
    forall i, j | 0 <= i < j < |ps| ensures ps[i] != ps[j] {
      KeyStrDistinct(es[i].0, es[j].0);
      AppendDistinct(KeyStr(es[i].0), KeyStr(es[j].0), "L");
    }
    forall i | 0 <= i < |ps| ensures HoleName(ps[i]) in Names(s1.params) {
      assert HoleName(ps[i]) == PhName(n, "L" + KeyStr(es[i].0));
    }
    SoundDrawn(q, s0, s1);
  }

  /** An element read from a well-formed array is well-formed. */
  lemma GetWf(es: PArray, k: Key)
    requires WfEntries(es)
    ensures WfValue(Get(es, k))
  {
    if HasKey(es, k) {
      assert WfEntry(es[IndexOf(es, k)]);
    }
  }

  lemma LitNoHoles(w: string)
    ensures Holes([Lit(w)]) == []
  {
    assert [Lit(w)][1..] == [];
  }

  lemma HolesLit(column: Sql, w: string)
    requires Holes(column) == []
    ensures Holes(column + [Lit(w)]) == []
  {
    HolesConcat(column, [Lit(w)]);
    assert [Lit(w)][1..] == [];
  }

  lemma SoundEmpty(s0: St, s1: St)
    requires Grows(s0, s1)
    ensures Sound(Flatten([]), s0, s1)
  {
  }

  lemma BetweenSound(prefix: string, column: Sql, negate: bool, v: Value, s0: St)
    requires Holes(column) == [] && WfValue(v)
    requires Between(prefix, column, negate, v, s0.guid, Draw(s0)).Ok?
    ensures var (items, s1) := Between(prefix, column, negate, v, s0.guid, Draw(s0)).value;
      |items| <= 1 && Sound(Flatten(items), s0, s1)
  {
    var n, s := s0.guid, Draw(s0);
    if !v.Arr? {
      SoundEmpty(s0, s);
    } else {
      var col := if negate then column + [Lit(" NOT")] else column;
      if negate { HolesLit(column, " NOT"); }
      var lo, hi := Get(v.entries, IntKey(0)), Get(v.entries, IntKey(1));
      if lo.Raw? && hi.Raw? {
        GetWf(v.entries, IntKey(0));
        GetWf(v.entries, IntKey(1));
        BetweenRawSound(prefix, col, lo, hi, s0, s);
        var (q0, m0) := BuildRaw(prefix, lo, s.params).value.value;
        var (q1, m1) := BuildRaw(prefix, hi, m0).value.value;
        FlattenSingle([Lit("(")] + col + [Lit(" BETWEEN ")] + q0 + [Lit(" AND ")] + q1 + [Lit(")")]);
      } else {
        var ty := if IsNumeric(lo) && IsNumeric(hi) then ParamInt else ParamStr;
        var m := Assign(Assign(s.params, PhName(n, "a"), Binding(Plain(lo), ty)), PhName(n, "b"), Binding(Plain(hi), ty));
        BetweenPhSound(col, n, s0, s.(params := m));
      }
    }
  }

  lemma BetweenPhSound(col: Sql, n: nat, s0: St, s1: St)
    requires Holes(col) == [] && n == s0.guid < s1.guid && Grows(s0, s1)
    requires PhName(n, "a") in Names(s1.params) && PhName(n, "b") in Names(s1.params)
    ensures Sound(Flatten([[Lit("(")] + col + [Lit(" BETWEEN "), Ph(n, "a"), Lit(" AND "), Ph(n, "b"), Lit(")")]]), s0, s1)
  {
    var tail := [Lit(" BETWEEN "), Ph(n, "a"), Lit(" AND "), Ph(n, "b"), Lit(")")];
    HolesBetweenTail(n);
    HolesConcat([Lit("(")], col);
    HolesConcat([Lit("(")] + col, tail);
    FlattenSingle([Lit("(")] + col + tail);
    SoundDrawn([Lit("(")] + col + tail, s0, s1);
  }

  /** `(col BETWEEN raw AND raw)` only mentions the two fragments' parameters. */
  lemma BetweenRawSound(prefix: string, col: Sql, lo: Value, hi: Value, s0: St, s: St)
    requires Holes(col) == [] && lo.Raw? && hi.Raw? && Closed(lo.frag) && Closed(hi.frag) && Grows(s0, s)
    requires BuildRaw(prefix, lo, s.params).Ok?
    requires BuildRaw(prefix, hi, BuildRaw(prefix, lo, s.params).value.value.1).Ok?
    ensures var (q0, m0) := BuildRaw(prefix, lo, s.params).value.value;
      var (q1, m1) := BuildRaw(prefix, hi, m0).value.value;
      Sound([Lit("(")] + col + [Lit(" BETWEEN ")] + q0 + [Lit(" AND ")] + q1 + [Lit(")")], s0, s.(params := m1))
  {
    var (q0, m0) := BuildRaw(prefix, lo, s.params).value.value;
    var (q1, m1) := BuildRaw(prefix, hi, m0).value.value;
    BuildRawHoles(prefix, lo, s.params);
    BuildRawHoles(prefix, hi, m0);
    var names := Names(m1);
    ParamsInGrow(Holes(q0), Names(m0), names);
    var a := [Lit("(")] + col + [Lit(" BETWEEN ")];
    HolesConcat([Lit("(")], col);
    HolesLit([Lit("(")] + col, " BETWEEN ");
    ParamsInConcat(a, q0, names);
    LitNoHoles(" AND ");
    LitNoHoles(")");
    ParamsInConcat(a + q0, [Lit(" AND ")], names);
    ParamsInConcat(a + q0 + [Lit(" AND ")], q1, names);
    ParamsInConcat(a + q0 + [Lit(" AND ")] + q1, [Lit(")")], names);
    SoundParams(a + q0 + [Lit(" AND ")] + q1 + [Lit(")")], s0, s.(params := m1));
  }

  lemma HolesBetweenTail(n: nat)
    ensures Holes([Lit(" BETWEEN "), Ph(n, "a"), Lit(" AND "), Ph(n, "b"), Lit(")")]) == [Ph(n, "a"), Ph(n, "b")]
  {
    assert Holes([Lit(")")]) == [];
    assert [Ph(n, "b"), Lit(")")][1..] == [Lit(")")];
    assert Holes([Ph(n, "b"), Lit(")")]) == [Ph(n, "b")];
    assert [Lit(" AND "), Ph(n, "b"), Lit(")")][1..] == [Ph(n, "b"), Lit(")")];
    assert Holes([Lit(" AND "), Ph(n, "b"), Lit(")")]) == [Ph(n, "b")];
    assert [Ph(n, "a"), Lit(" AND "), Ph(n, "b"), Lit(")")][1..] == [Lit(" AND "), Ph(n, "b"), Lit(")")];
    assert Holes([Ph(n, "a"), Lit(" AND "), Ph(n, "b"), Lit(")")]) == [Ph(n, "a"), Ph(n, "b")];
    assert [Lit(" BETWEEN "), Ph(n, "a"), Lit(" AND "), Ph(n, "b"), Lit(")")][1..] ==
      [Ph(n, "a"), Lit(" AND "), Ph(n, "b"), Lit(")")];
  }

  /** `col <w> :p` with one placeholder drawn with counter `s0.guid` and bound in `s1`. */
  lemma OnePhSound(column: Sql, w: string, s0: St, s1: St)
    requires Holes(column) == [] && s0.guid < s1.guid && Grows(s0, s1)
    requires PhName(s0.guid, "") in Names(s1.params)
    ensures Sound(Flatten([column + [Lit(w), Ph(s0.guid, "")]]), s0, s1)
  {
    HolesLit2(column, w, Ph(s0.guid, ""));
    FlattenSingle(column + [Lit(w), Ph(s0.guid, "")]);
    SoundDrawn(column + [Lit(w), Ph(s0.guid, "")], s0, s1);
  }

  /** `col <w> raw` with the fragment's parameters bound in `s1`. */
  lemma RawSound(column: Sql, w: string, q: Sql, s0: St, s1: St)
    requires Holes(column) == [] && Grows(s0, s1) && ParamsIn(Holes(q), Names(s1.params))
    ensures Sound(Flatten([column + [Lit(w)] + q]), s0, s1)
  {
    HolesLit(column, w);
    ParamsInConcat(column + [Lit(w)], q, Names(s1.params));
    FlattenSingle(column + [Lit(w)] + q);
    SoundParams(column + [Lit(w)] + q, s0, s1);
  }

  lemma NoPhSound(column: Sql, w: string, s0: St, s1: St)
    requires Holes(column) == [] && Grows(s0, s1)
    ensures Sound(Flatten([column + [Lit(w)]]), s0, s1)
  {
    HolesLit(column, w);
    FlattenSingle(column + [Lit(w)]);
  }

  lemma CompareSound(prefix: string, column: Sql, negate: bool, v: Value, s0: St)
    requires Holes(column) == [] && WfValue(v)
    requires Compare(prefix, column, negate, v, s0.guid, Draw(s0)).Ok?
    ensures var (items, s1) := Compare(prefix, column, negate, v, s0.guid, Draw(s0)).value;
      |items| <= 1 && Sound(Flatten(items), s0, s1)
  {
    var n, s := s0.guid, Draw(s0);
    match v
    case Null =>
      NoPhSound(column, if negate then " IS NOT NULL" else " IS NULL", s0, s);
    case Arr(es) =>
      WfKeys(es);
      InListSound(column, negate, es, s0);
    case Raw(_) =>
      var (q, m) := BuildRaw(prefix, v, s.params).value.value;
      BuildRawHoles(prefix, v, s.params);
      if TruthySql(q) {
        RawSound(column, if negate then " != " else " = ", q, s0, s.(params := m));
      } else {
        SoundEmpty(s0, s.(params := m));
      }
    case Obj(_) =>
      SoundEmpty(s0, s);
    case _ =>
      OnePhSound(column, if negate then " != " else " = ", s0, Bind(s, PhName(n, ""), TypeMap(v)));
  }

  lemma OrderingSound(prefix: string, column: Sql, op: string, v: Value, s0: St)
    requires Holes(column) == [] && WfValue(v)
    requires Ordering(prefix, column, op, v, s0.guid, Draw(s0)).Ok?
    ensures var (items, s1) := Ordering(prefix, column, op, v, s0.guid, Draw(s0)).value;
      |items| <= 1 && Sound(Flatten(items), s0, s1)
  {
    var n, s := s0.guid, Draw(s0);
    var w := " " + op + " ";
    assert forall x :: column + [Lit(w)] + [x] == column + [Lit(w), x];
    if IsNumeric(v) {
      OnePhSound(column, w, s0, Bind(s, PhName(n, ""), Binding(Plain(v), ParamInt)));
    } else {
      var raw := BuildRaw(prefix, v, s.params).value;
      if raw.Some? && TruthySql(raw.value.0) {
        BuildRawHoles(prefix, v, s.params);
        RawSound(column, w, raw.value.0, s0, s.(params := raw.value.1));
      } else {
        var m := if raw.Some? then raw.value.1 else s.params;
        OnePhSound(column, w, s0, Bind(s.(params := m), PhName(n, ""), Binding(Plain(v), ParamStr)));
      }
    }
  }

  lemma OperatorSound(prefix: string, column: Sql, op: string, v: Value, s0: St)
    requires Holes(column) == [] && WfValue(v)
    requires Operator(prefix, column, op, v, s0.guid, Draw(s0)).Ok?
    ensures var (items, s1) := Operator(prefix, column, op, v, s0.guid, Draw(s0)).value;
      |items| <= 1 && Sound(Flatten(items), s0, s1)
  {
    var n, s := s0.guid, Draw(s0);
    if op in Orderings {
      OrderingSound(prefix, column, op, v, s0);
    } else if op == "!" {
      CompareSound(prefix, column, true, v, s0);
    } else if op == "~" || op == "!~" {
      LikeSound(column, op == "!~", v, s0);
    } else if op == "<>" || op == "><" {
      BetweenSound(prefix, column, op == "><", v, s0);
    } else {
      OnePhSound(column, " REGEXP ", s0, Bind(s, PhName(n, ""), Binding(Plain(v), ParamStr)));
    }
  }

  lemma LeafSound(prefix: string, e: (Key, Value), s0: St)
    requires WfEntry(e) && Leaf(prefix, e, s0.guid, Draw(s0)).Ok?
    ensures var (items, s1) := Leaf(prefix, e, s0.guid, Draw(s0)).value;
      |items| <= 1 && Sound(Flatten(items), s0, s1)
  {
    var s := Draw(s0);
    var key := ParseCondKey(KeySubject(e).value).value;
    var column := ColumnQuote(prefix, key.column).value;
    if e.0.IntKey? && key.trail.Some? && key.op.Some? && key.op.value in ColumnComparisons {
      var other := ColumnQuote(prefix, key.trail.value).value;
      HolesLit(column, " " + key.op.value + " ");
      HolesConcat(column + [Lit(" " + key.op.value + " ")], other);
      FlattenSingle(column + [Lit(" " + key.op.value + " ")] + other);
      SoundNoHoles(column + [Lit(" " + key.op.value + " ")] + other, s0, s);
    } else if !IsEquality(key.op) {
      OperatorSound(prefix, column, key.op.value, e.1, s0);
    } else {
      CompareSound(prefix, column, false, e.1, s0);
    }
  }

  lemma ConditionSound(prefix: string, e: (Key, Value), s0: St)
    requires WfEntry(e) && Condition(prefix, e, s0).Ok?
    ensures var (items, s1) := Condition(prefix, e, s0).value;
      |items| <= 1 && Sound(Flatten(items), s0, s1)
    decreases e, 0
  {
    var relation := Relation(e.0);
    if e.1.Arr? && relation.Some? {
      assert WfValue(e.1);
      ImplodeSound(prefix, e.1.entries, " " + relation.value, s0);
      var (q, s1) := Implode(prefix, e.1.entries, " " + relation.value, s0).value;
      LitNoHoles("(");
      LitNoHoles(")");
      SoundWrap([Lit("(")], q, [Lit(")")], s0, s1);
      FlattenSingle([Lit("(")] + q + [Lit(")")]);
    } else {
      LeafSound(prefix, e, s0);
    }
  }

  lemma {:induction false} ConditionsSound(prefix: string, data: PArray, stack: seq<Sql>, s0: St)
    requires WfEntries(data) && Conditions(prefix, data, stack, s0).Ok?
    ensures var (out, s1) := Conditions(prefix, data, stack, s0).value;
      |stack| <= |out| && out[..|stack|] == stack && Sound(Flatten(out[|stack|..]), s0, s1)
    decreases data, 1
  {
    if data == [] {
      assert stack[|stack|..] == [];
      SoundEmpty(s0, s0);
    } else {
      assert WfEntry(data[0]);
      ConditionSound(prefix, data[0], s0);
      var (items, s1) := Condition(prefix, data[0], s0).value;
      assert WfEntries(data[1..]) by {
        forall i | 0 <= i < |data[1..]| ensures WfEntry(data[1..][i]) {
          assert data[1..][i] == data[i + 1];
        }
      }
      ConditionsSound(prefix, data[1..], stack + items, s1);
      var (out, s2) := Conditions(prefix, data[1..], stack + items, s1).value;
      StackSplit(stack, items, out);
      FlattenConcat(items, out[|stack + items|..]);
      SoundConcat(Flatten(items), Flatten(out[|stack + items|..]), s0, s1, s2);
    }
  }

  /** A list that starts with `stack + items` starts with `stack`, followed by `items` and the rest. */
  lemma StackSplit(stack: seq<Sql>, items: seq<Sql>, out: seq<Sql>)
    requires |stack + items| <= |out| && out[..|stack + items|] == stack + items
    ensures |stack| <= |out| && out[..|stack|] == stack && out[|stack|..] == items + out[|stack + items|..]
  {
    assert out[..|stack|] == (stack + items)[..|stack|];
  }

  /**
   * Every placeholder dataImplode() writes is bound in the map it returns,
   * was drawn from the counter during the call, and occurs only once; the
   * parameters of raw fragments are bound too.
   */
  lemma ImplodeSound(prefix: string, data: PArray, conjunctor: string, s0: St)
    requires WfEntries(data) && Implode(prefix, data, conjunctor, s0).Ok?
    ensures var (q, s1) := Implode(prefix, data, conjunctor, s0).value; Sound(q, s0, s1)
    decreases data, 2
  {
    ConditionsSound(prefix, data, [], s0);
    var (stack, s1) := Conditions(prefix, data, [], s0).value;
    assert stack[0..] == stack;
    SoundJoin(stack, conjunctor + " ", s0, s1);
  }

  // ---------------------------------------------------------------------
  // What single entries compile to

  /** A string key whose pattern match found column `c` and operator `op`. */
  ghost predicate KeyParses(k: string, c: string, op: Option<string>) {
    ParseCondKey(k).Some? && ParseCondKey(k).value.column == c && ParseCondKey(k).value.op == op && AnchoredColumn(c)
  }

  /** A string-keyed entry that is not a group is compiled by its column and operator. */
  lemma LeafAt(prefix: string, k: string, c: string, op: Option<string>, v: Value, s: St)
    requires KeyParses(k, c, op) && !(v.Arr? && Relation(StrKey(k)).Some?)
    ensures var col := ColumnQuote(prefix, c).value;
      Condition(prefix, (StrKey(k), v), s) ==
        if IsEquality(op) then Compare(prefix, col, false, v, s.guid, Draw(s))
        else Operator(prefix, col, op.value, v, s.guid, Draw(s))
  {
  }

  /** `c => null` is `"c" IS NULL`; `c[!] => null` is `"c" IS NOT NULL`. */
  lemma NullCondition(prefix: string, k: string, c: string, op: Option<string>, s: St)
    requires KeyParses(k, c, op) && (IsEquality(op) || op == Some("!"))
    ensures var col := ColumnQuote(prefix, c).value;
      var word := if IsEquality(op) then " IS NULL" else " IS NOT NULL";
      Condition(prefix, (StrKey(k), Null), s) == Ok(([col + [Lit(word)]], Draw(s))) &&
      Holes(col + [Lit(word)]) == [] && Render(col + [Lit(word)]) == Render(col) + word
  {
    var col := ColumnQuote(prefix, c).value;
    var word := if IsEquality(op) then " IS NULL" else " IS NOT NULL";
    LeafAt(prefix, k, c, op, Null, s);
    if IsEquality(op) {
      NullCompare(prefix, col, false, s.guid, Draw(s));
    } else {
      NegatedIsCompare(prefix, col, Null, s.guid, Draw(s));
      NullCompare(prefix, col, true, s.guid, Draw(s));
    }
    LitSuffix(col, word);
  }

  /** A literal appended to a statement without holes adds no hole and renders after it. */
  lemma LitSuffix(col: Sql, word: string)
    requires Holes(col) == []
    ensures Holes(col + [Lit(word)]) == [] && Render(col + [Lit(word)]) == Render(col) + word
  {
    HolesLit(col, word);
    RenderConcat(col, [Lit(word)]);
    assert Render([Lit(word)]) == word + Render([]);
  }

  /** The equality switch on null tests `IS NULL`, or `IS NOT NULL` when negated, and binds nothing. */
  lemma NullCompare(prefix: string, col: Sql, negate: bool, n: nat, s: St)
    ensures Compare(prefix, col, negate, Null, n, s) == Ok(([col + [Lit(if negate then " IS NOT NULL" else " IS NULL")]], s))
  {
  }

  /** After binding every item, each item's placeholder reads that item's typeMap() binding. */
  lemma {:induction false} BindItemsLookup(m: ParamMap, es: PArray, n: nat)
    requires UniqueKeys(es) && forall i :: 0 <= i < |es| ==> WfKey(es[i].0)
    ensures forall i :: 0 <= i < |es| ==> Lookup(BindItems(m, es, n), PhName(n, KeyStr(es[i].0) + "_i")) == Some(TypeMap(es[i].1))
    decreases es
  {
    if es != [] {
      var x := PhName(n, KeyStr(es[0].0) + "_i");
      var m1 := Assign(m, x, TypeMap(es[0].1));
      BindItemsLookup(m1, es[1..], n);
      forall j | 0 <= j < |es[1..]| ensures x != PhName(n, KeyStr(es[1..][j].0) + "_i") {
        assert es[1..][j] == es[j + 1];
        KeyStrDistinct(es[0].0, es[j + 1].0);
        AppendDistinct(KeyStr(es[0].0), KeyStr(es[j + 1].0), "_i");
        PhNameDistinct(n, KeyStr(es[0].0) + "_i", n, KeyStr(es[j + 1].0) + "_i");
      }
      forall i | 0 <= i < |es| ensures Lookup(BindItems(m, es, n), PhName(n, KeyStr(es[i].0) + "_i")) == Some(TypeMap(es[i].1)) {
        if i == 0 {
          AssignLookup(m, x, TypeMap(es[0].1), x);
          BindItemsOther(m1, es[1..], n, x);
        } else {
          assert es[i] == es[1..][i - 1];
        }
      }
    }
  }

  /** Binding the items leaves a name that is none of their placeholders alone. */
  lemma {:induction false} BindItemsOther(m: ParamMap, es: PArray, n: nat, x: string)
    requires UniqueKeys(es) && forall i :: 0 <= i < |es| ==> WfKey(es[i].0)
    requires forall i :: 0 <= i < |es| ==> x != PhName(n, KeyStr(es[i].0) + "_i")
    ensures Lookup(BindItems(m, es, n), x) == Lookup(m, x)
    decreases es
  {
    if es != [] {
      var y := PhName(n, KeyStr(es[0].0) + "_i");
      AssignLookup(m, y, TypeMap(es[0].1), x);
      forall i | 0 <= i < |es[1..]| ensures x != PhName(n, KeyStr(es[1..][i].0) + "_i") {
        assert es[1..][i] == es[i + 1];
      }
      BindItemsOther(Assign(m, y, TypeMap(es[0].1)), es[1..], n, x);
    }
  }

  /** `[!]` is the equality switch with every test negated. */
  lemma NegatedIsCompare(prefix: string, col: Sql, v: Value, n: nat, s: St)
    ensures Operator(prefix, col, "!", v, n, s) == Compare(prefix, col, true, v, n, s)
  {
  }

  /**
   * An array value is `col IN (…)`, or `col NOT IN (…)` when negated: one
   * placeholder per element, each bound to that element's typeMap() binding.
   */
  lemma InListShape(prefix: string, col: Sql, negate: bool, es: PArray, s: St)
    requires Holes(col) == [] && UniqueKeys(es) && forall i :: 0 <= i < |es| ==> WfKey(es[i].0)
    ensures var r := Compare(prefix, col, negate, Arr(es), s.guid, Draw(s));
      r.Ok? && r.value.1.guid == s.guid + 1 && |r.value.0| == 1 &&
      r.value.0[0] == col + [Lit(if negate then " NOT IN (" else " IN (")] + Join(Singles(InPhs(es, s.guid)), ", ") + [Lit(")")] &&
      Holes(r.value.0[0]) == InPhs(es, s.guid) &&
      forall i :: 0 <= i < |es| ==> Lookup(r.value.1.params, PhName(s.guid, KeyStr(es[i].0) + "_i")) == Some(TypeMap(es[i].1))
  {
    var word := if negate then " NOT IN (" else " IN (";
    var ps := InPhs(es, s.guid);
    HolesOfSingles(ps);
    HolesJoin(Singles(ps), ", ");
    HolesLit(col, word);
    HolesWrapped(col + [Lit(word)], Join(Singles(ps), ", "), [Lit(")")]);
    BindItemsLookup(s.params, es, s.guid);
  }

  /** `AND`/`OR` keys, optionally followed by a `#comment`, name a group; `ORDER` does not. */
  lemma RelationKeys(w: string, comment: string)
    requires w == "AND" || w == "OR"
    requires forall i :: 0 <= i < |comment| ==> comment[i] != '\n'
    ensures Relation(StrKey(w)) == Some(w)
    ensures Relation(StrKey(w + " #" + comment)) == Some(w)
    ensures Relation(StrKey("ORDER")) == None && Relation(StrKey("ANDROID")) == None
  {
    assert w + "" == w;
    RelationComment(w, comment);
    OtherWordsNoRelation();
  }

  lemma RelationComment(w: string, comment: string)
    requires w == "AND" || w == "OR"
    requires forall i :: 0 <= i < |comment| ==> comment[i] != '\n'
    ensures Relation(StrKey(w + " #" + comment)) == Some(w)
  {
    var u := " #" + comment;
    var t := w + u;
    assert t == w + " #" + comment;
    assert t[|t| - 1] != '\n';
    assert Quoting.Body(t) == t;
    assert t[..|w|] == w && t[|w|..] == u;
    assert SpaceRunEnd(u, 1) == 1;
    assert IsComment(u);
  }

  lemma OtherWordsNoRelation()
    ensures Relation(StrKey("ORDER")) == None && Relation(StrKey("ANDROID")) == None
  {
    assert "ORDER"[..3][0] != "AND"[0];
    assert "ORDER"[..2] == "OR";
    assert SpaceRunEnd("DER", 0) == 0;
    assert "ANDROID"[..3] == "AND";
    assert SpaceRunEnd("ROID", 0) == 0;
    assert "ANDROID"[..2][0] != "OR"[0];
  }

  /** An `AND`/`OR` group is its own conditions, joined by that word, in parentheses. */
  lemma GroupCondition(prefix: string, k: string, es: PArray, s: St)
    requires Relation(StrKey(k)).Some?
    ensures var w := Relation(StrKey(k)).value;
      var r := Condition(prefix, (StrKey(k), Arr(es)), s);
      var inner := Conditions(prefix, es, [], s);
      (r.Ok? <==> inner.Ok?) &&
      (r.Ok? ==>
        r.value.1 == inner.value.1 && |r.value.0| == 1 &&
        Render(r.value.0[0]) == "(" + Render(Join(inner.value.0, " " + w + " ")) + ")")
  {
    var w := Relation(StrKey(k)).value;
    var r := Condition(prefix, (StrKey(k), Arr(es)), s);
    if r.Ok? {
      var q := Implode(prefix, es, " " + w, s).value.0;
      RenderConcat([Lit("(")] + q, [Lit(")")]);
      RenderConcat([Lit("(")], q);
      assert Render([Lit("(")]) == "(" + Render([]);
      assert Render([Lit(")")]) == ")" + Render([]);
    }
  }

  /** An integer-keyed `a[op]b` with a comparison operator compares two columns. */
  lemma ColumnComparisonCondition(prefix: string, i: int, a: string, op: string, b: string, s: St)
    requires IsColumnName(a) && IsColumnName(b) && op in ColumnComparisons
    ensures var r := Condition(prefix, (IntKey(i), Str(a + "[" + op + "]" + b)), s);
      r.Ok? && r.value.1 == Draw(s) &&
      r.value.0 == [ColumnQuote(prefix, a).value + [Lit(" " + op + " ")] + ColumnQuote(prefix, b).value]
  {
    var e := (IntKey(i), Str(a + "[" + op + "]" + b));
    ColumnNameIsRun(a);
    ColumnNameIsRun(b);
    ParseColumnComparison(a, op, b);
    ComparisonLeaf(prefix, i, a + "[" + op + "]" + b, a, op, b, s.guid, Draw(s));
    LeafCondition(prefix, e, s);
  }

  /** An integer key whose pattern match found `a[op]b` with a comparison operator. */
  lemma ComparisonLeaf(prefix: string, i: int, k: string, a: string, op: string, b: string, n: nat, s: St)
    requires ParseCondKey(k) == Some(CondKey(a, Some(op), Some(b))) && op in ColumnComparisons
    requires AnchoredColumn(a) && AnchoredColumn(b)
    ensures Leaf(prefix, (IntKey(i), Str(k)), n, s) ==
      Ok(([ColumnQuote(prefix, a).value + [Lit(" " + op + " ")] + ColumnQuote(prefix, b).value], s))
  {
    assert KeySubject((IntKey(i), Str(k))) == Ok(k);
    assert ColumnQuote(prefix, a).Ok? && ColumnQuote(prefix, b).Ok?;
  }

  /** An entry whose value is not an array is a single condition, whatever its key. */
  lemma LeafCondition(prefix: string, e: (Key, Value), s: St)
    requires !e.1.Arr?
    ensures Condition(prefix, e, s) == Leaf(prefix, e, s.guid, Draw(s))
  {
  }

  /** The operators dataImplode() knows. */
  const KnownOperators: seq<string> := [">", ">=", "<", "<=", "!", "~", "!~", "<>", "><", "REGEXP"]

  /** Any other operator throws, naming the quoted column and the operator. */
  lemma UnknownOperatorThrows(prefix: string, col: Sql, op: string, v: Value, n: nat, s: St)
    requires !(op in KnownOperators)
    ensures Operator(prefix, col, op, v, n, s) == Err(InvalidOperator(Render(col), op))
  {
  }

  /** Not-equal is written `[!]`: a `c[!=]` key throws. */
  lemma NotEqualKeyThrows(prefix: string, c: string, v: Value, s: St)
    requires IsColumnName(c) && !v.Arr?
    ensures Condition(prefix, (StrKey(c + "[!=]"), v), s) == Err(InvalidOperator(Render(ColumnQuote(prefix, c).value), "!="))
  {
    var col := ColumnQuote(prefix, c).value;
    NotEqualKeyParses(c);
    assert !IsEquality(Some("!="));
    LeafAt(prefix, c + "[!=]", c, Some("!="), v, s);
    NotEqualUnknown();
    UnknownOperatorThrows(prefix, col, "!=", v, s.guid, Draw(s));
  }

  lemma NotEqualUnknown()
    ensures !("!=" in KnownOperators)
  {
    assert "!="[1] != "!~"[1];
  }

  lemma NotEqualKeyParses(c: string)
    requires IsColumnName(c)
    ensures KeyParses(c + "[!=]", c, Some("!="))
  {
    ColumnNameIsRun(c);
    ParseColumnOperator(c, "!=");
    assert c + "[!=]" == c + "[" + "!=" + "]";
  }

  /**
   * The LIKE clauses exist exactly when every alternative has a string form,
   * and clause `i` tests the column against placeholder `L<index i>`.
   */
  lemma LikeClausesShape(column: Sql, negate: bool, es: PArray, n: nat, m: ParamMap)
    ensures var r := LikeClauses(column, negate, es, n, m);
      (r.Ok? <==> forall i :: 0 <= i < |es| ==> StrCast(es[i].1).Some?) &&
      (r.Ok? ==> forall i :: 0 <= i < |es| ==>
        r.value.0[i] == column + [Lit(if negate then " NOT LIKE " else " LIKE "), LikePh(n, es[i].0)])
  {
    LikeClausesOk(column, negate, es, n, m);
    if LikeClauses(column, negate, es, n, m).Ok? {
      LikeClausesItems(column, negate, es, n, m);
    }
  }

  /** One step of the LIKE clauses: the head clause goes in front of the tail's clauses. */
  lemma LikeClausesStep(column: Sql, negate: bool, es: PArray, n: nat, m: ParamMap, text: string, m1: ParamMap)
    requires es != [] && StrCast(es[0].1) == Some(text)
    requires m1 == Assign(m, PhName(n, "L" + KeyStr(es[0].0)), Binding(Plain(Str(LikeItem(text))), ParamStr))
    ensures var r, r1 := LikeClauses(column, negate, es, n, m), LikeClauses(column, negate, es[1..], n, m1);
      (r.Ok? <==> r1.Ok?) &&
      (r.Ok? ==> r.value.0 == [column + [Lit(if negate then " NOT LIKE " else " LIKE "), LikePh(n, es[0].0)]] + r1.value.0) &&
      (r.Ok? ==> r.value.1 == r1.value.1)
  {
  }

  lemma {:induction false} LikeClausesOk(column: Sql, negate: bool, es: PArray, n: nat, m: ParamMap)
    ensures LikeClauses(column, negate, es, n, m).Ok? <==> forall i :: 0 <= i < |es| ==> StrCast(es[i].1).Some?
    decreases es
  {
    if es != [] {
      match StrCast(es[0].1)
      case None =>
      case Some(text) =>
        var m1 := Assign(m, PhName(n, "L" + KeyStr(es[0].0)), Binding(Plain(Str(LikeItem(text))), ParamStr));
        LikeClausesStep(column, negate, es, n, m, text, m1);
        LikeClausesOk(column, negate, es[1..], n, m1);
        forall i | 1 <= i < |es| ensures es[i] == es[1..][i - 1] { }
    }
  }

  lemma {:induction false} LikeClausesItems(column: Sql, negate: bool, es: PArray, n: nat, m: ParamMap)
    requires LikeClauses(column, negate, es, n, m).Ok?
    ensures forall i :: 0 <= i < |es| ==>
      LikeClauses(column, negate, es, n, m).value.0[i] ==
        column + [Lit(if negate then " NOT LIKE " else " LIKE "), LikePh(n, es[i].0)]
    decreases es
  {
    if es != [] {
      var text := StrCast(es[0].1).value;
      var m1 := Assign(m, PhName(n, "L" + KeyStr(es[0].0)), Binding(Plain(Str(LikeItem(text))), ParamStr));
      LikeClausesStep(column, negate, es, n, m, text, m1);
      LikeClausesItems(column, negate, es[1..], n, m1);
      ConsIndexes(LikeClauses(column, negate, es, n, m).value.0, LikeClauses(column, negate, es[1..], n, m1).value.0);
    }
  }

  /** Indexing a cons: element `i > 0` is element `i - 1` of the tail. */
  lemma ConsIndexes<T>(s: seq<T>, t: seq<T>)
    requires |s| == |t| + 1 && s[1..] == t
    ensures forall i :: 1 <= i < |s| ==> s[i] == t[i - 1]
  {
  }

  /** After the LIKE clauses, placeholder `L<index>` reads the item, wrapped in `%…%` unless it is a pattern. */
  lemma {:induction false} LikeClausesLookup(column: Sql, negate: bool, es: PArray, n: nat, m: ParamMap)
    requires UniqueKeys(es) && forall i :: 0 <= i < |es| ==> WfKey(es[i].0)
    requires LikeClauses(column, negate, es, n, m).Ok?
    ensures forall i :: 0 <= i < |es| ==>
      StrCast(es[i].1).Some? &&
      Lookup(LikeClauses(column, negate, es, n, m).value.1, PhName(n, "L" + KeyStr(es[i].0))) ==
        Some(Binding(Plain(Str(LikeItem(StrCast(es[i].1).value))), ParamStr))
    decreases es
  {
    if es != [] {
      var x := PhName(n, "L" + KeyStr(es[0].0));
      var b := Binding(Plain(Str(LikeItem(StrCast(es[0].1).value))), ParamStr);
      var m1 := Assign(m, x, b);
      LikeClausesLookup(column, negate, es[1..], n, m1);
      forall j | 0 <= j < |es[1..]| ensures x != PhName(n, "L" + KeyStr(es[1..][j].0)) {
        assert es[1..][j] == es[j + 1];
        KeyStrDistinct(es[0].0, es[j + 1].0);
        AppendDistinct(KeyStr(es[0].0), KeyStr(es[j + 1].0), "L");
        PhNameDistinct(n, "L" + KeyStr(es[0].0), n, "L" + KeyStr(es[j + 1].0));
      }
      forall i | 0 <= i < |es| ensures StrCast(es[i].1).Some? &&
        Lookup(LikeClauses(column, negate, es, n, m).value.1, PhName(n, "L" + KeyStr(es[i].0))) ==
          Some(Binding(Plain(Str(LikeItem(StrCast(es[i].1).value))), ParamStr))
      {
        if i == 0 {
          AssignLookup(m, x, b, x);
          LikeClausesOther(column, negate, es[1..], n, m1, x);
        } else {
          assert es[i] == es[1..][i - 1];
        }
      }
    }
  }

  /** The LIKE clauses leave a name that is none of their placeholders alone. */
  lemma {:induction false} LikeClausesOther(column: Sql, negate: bool, es: PArray, n: nat, m: ParamMap, x: string)
    requires LikeClauses(column, negate, es, n, m).Ok?
    requires forall i :: 0 <= i < |es| ==> x != PhName(n, "L" + KeyStr(es[i].0))
    ensures Lookup(LikeClauses(column, negate, es, n, m).value.1, x) == Lookup(m, x)
    decreases es
  {
    if es != [] {
      var y := PhName(n, "L" + KeyStr(es[0].0));
      var b := Binding(Plain(Str(LikeItem(StrCast(es[0].1).value))), ParamStr);
      AssignLookup(m, y, b, x);
      forall i | 0 <= i < |es[1..]| ensures x != PhName(n, "L" + KeyStr(es[1..][i].0)) {
        assert es[1..][i] == es[i + 1];
      }
      LikeClausesOther(column, negate, es[1..], n, Assign(m, y, b), x);
    }
  }

  /**
   * A single value is one alternative; an array lists them, joined by ` OR `,
   * unless its first element is an array and it sets `AND` or `OR`: then that
   * first element lists them, joined by the first key.
   */
  lemma LikeConnector(v: Value, w: string, xs: PArray, rest: PArray)
    requires w == "AND" || w == "OR"
    ensures !v.Arr? ==> LikeAlternatives(v) == ([(IntKey(0), v)], " OR ")
    ensures v.Arr? && (|v.entries| == 0 || !v.entries[0].1.Arr?) ==> LikeAlternatives(v) == (v.entries, " OR ")
    ensures LikeAlternatives(Arr([(StrKey(w), Arr(xs))] + rest)) == (xs, " " + w + " ")
  {
    var es := [(StrKey(w), Arr(xs))] + rest;
    assert es[0].0 == StrKey(w);
    assert IndexOf(es, StrKey(w)) == 0;
  }

  /**
   * `[<>]` is BETWEEN and `[><]` NOT BETWEEN two placeholders `a` and `b`, both
   * bound as ints when both bounds are numeric and as strings otherwise; a
   * value that is not an array emits nothing.
   */
  lemma BetweenShape(prefix: string, col: Sql, negate: bool, v: Value, n: nat, s: St)
    ensures !v.Arr? ==> Between(prefix, col, negate, v, n, s) == Ok(([], s))
    ensures v.Arr? && !(Get(v.entries, IntKey(0)).Raw? && Get(v.entries, IntKey(1)).Raw?) ==>
      var lo, hi := Get(v.entries, IntKey(0)), Get(v.entries, IntKey(1));
      var r := Between(prefix, col, negate, v, n, s);
      var a, b := Lookup(r.value.1.params, PhName(n, "a")), Lookup(r.value.1.params, PhName(n, "b"));
      r.Ok? && r.value.1.guid == s.guid &&
      r.value.0 == [[Lit("(")] + (if negate then col + [Lit(" NOT")] else col) +
        [Lit(" BETWEEN "), Ph(n, "a"), Lit(" AND "), Ph(n, "b"), Lit(")")]] &&
      a.Some? && b.Some? && a.value.value == Plain(lo) && b.value.value == Plain(hi) && a.value.ty == b.value.ty &&
      (a.value.ty == ParamInt <==> IsNumeric(lo) && IsNumeric(hi)) &&
      (a.value.ty != ParamInt ==> a.value.ty == ParamStr)
  {
    if v.Arr? && !(Get(v.entries, IntKey(0)).Raw? && Get(v.entries, IntKey(1)).Raw?) {
      var lo, hi := Get(v.entries, IntKey(0)), Get(v.entries, IntKey(1));
      var ty := if IsNumeric(lo) && IsNumeric(hi) then ParamInt else ParamStr;
      var c := if negate then col + [Lit(" NOT")] else col;
      var m := Assign(Assign(s.params, PhName(n, "a"), Binding(Plain(lo), ty)), PhName(n, "b"), Binding(Plain(hi), ty));
      assert Between(prefix, col, negate, v, n, s) ==
        Ok(([[Lit("(")] + c + [Lit(" BETWEEN "), Ph(n, "a"), Lit(" AND "), Ph(n, "b"), Lit(")")]], s.(params := m)));
      TwoBindings(s.params, n, Binding(Plain(lo), ty), Binding(Plain(hi), ty));
    }
  }

  lemma TwoBindings(m: ParamMap, n: nat, a: Binding, b: Binding)
    ensures var m2 := Assign(Assign(m, PhName(n, "a"), a), PhName(n, "b"), b);
      Lookup(m2, PhName(n, "a")) == Some(a) && Lookup(m2, PhName(n, "b")) == Some(b)
  {
    var xa, xb := PhName(n, "a"), PhName(n, "b");
    PhNameDistinct(n, "a", n, "b");
    var m1 := Assign(m, xa, a);
    AssignLookup(m, xa, a, xa);
    AssignLookup(m1, xb, b, xa);
    AssignLookup(m1, xb, b, xb);
  }

  /**
   * `[>]`, `[>=]`, `[<]`, `[<=]`: a numeric value is bound as an int under the
   * entry's placeholder; a string is bound as a string.
   */
  lemma OrderingShape(prefix: string, col: Sql, op: string, v: Value, n: nat, s: St)
    requires op in Orderings && (IsNumeric(v) || v.Str?)
    ensures var r := Operator(prefix, col, op, v, n, s);
      var b := Lookup(r.value.1.params, PhName(n, ""));
      r.Ok? && r.value.1.guid == s.guid &&
      r.value.0 == [col + [Lit(" " + op + " "), Ph(n, "")]] &&
      b == Some(Binding(Plain(v), if IsNumeric(v) then ParamInt else ParamStr))
  {
    var ty := if IsNumeric(v) then ParamInt else ParamStr;
    AssignLookup(s.params, PhName(n, ""), Binding(Plain(v), ty), PhName(n, ""));
    assert col + [Lit(" " + op + " ")] + [Ph(n, "")] == col + [Lit(" " + op + " "), Ph(n, "")];
  }

  /**
   * An equality (or, negated, `[!]`) on a scalar binds the value with
   * typeMap()'s type under the entry's placeholder.
   */
  lemma ScalarCompareShape(prefix: string, col: Sql, negate: bool, v: Value, n: nat, s: St)
    requires v.Bool? || v.Int? || v.Str?
    ensures var r := Compare(prefix, col, negate, v, n, s);
      r.Ok? && r.value.1.guid == s.guid &&
      r.value.0 == [col + [Lit(if negate then " != " else " = "), Ph(n, "")]] &&
      Lookup(r.value.1.params, PhName(n, "")) == Some(TypeMap(v))
  {
    AssignLookup(s.params, PhName(n, ""), TypeMap(v), PhName(n, ""));
  }

  /** `[REGEXP]` binds the value as a string under the entry's placeholder. */
  lemma RegexpShape(prefix: string, col: Sql, v: Value, n: nat, s: St)
    ensures var r := Operator(prefix, col, "REGEXP", v, n, s);
      r.Ok? && r.value.1.guid == s.guid &&
      r.value.0 == [col + [Lit(" REGEXP "), Ph(n, "")]] &&
      Lookup(r.value.1.params, PhName(n, "")) == Some(Binding(Plain(v), ParamStr))
  {
    AssignLookup(s.params, PhName(n, ""), Binding(Plain(v), ParamStr), PhName(n, ""));
  }
}
