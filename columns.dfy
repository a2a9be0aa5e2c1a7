/**
 * The projection and the table part of a SELECT: columnPush() (the column
 * list, with `AS` aliases, raw columns, nested groups and the `@` DISTINCT
 * marker), isJoin() and buildJoin() (the `[>]table(alias)` join
 * specifications), and selectContext(), which resolves the overloaded
 * argument list and assembles the statement.
 */
module Columns {
  import opened Php
  import opened Sql
  import opened Quoting
  import opened Patterns
  import opened Conditions
  import opened Clauses

  // ---------------------------------------------------------------------
  // columnPush()

  /** The loop state of columnPush(): the output stack, whether DISTINCT was used, the (rewritten) columns and the map. */
  datatype Push = Push(stack: seq<Sql>, distinct: bool, cols: PArray, m: ParamMap)

  /** The `AS` alias text columnPush() writes back over an aliased column: the alias and its type hint. */
  function AliasText(t: ColumnToken): string
    requires t.alias.Some?
  {
    t.alias.value + (if t.hint.Some? then " [" + t.hint.value + "]" else "")
  }

  /**
   * One int-keyed string column: a JoinWildcard error for `*` while joining,
   * `"column"` or `"column" AS "alias"`, and the token it was read as.
   */
  function StringColumn(prefix: string, s: string, isJoin: bool): (r: Result<(Sql, ColumnToken)>)
    ensures isJoin && '*' in s ==> r == Err(JoinWildcard)
    ensures r.Ok? ==> Holes(r.value.0) == []
    ensures r.Ok? ==> ParseColumnToken(s) == Some(r.value.1)
    ensures r.Ok? ==> ColumnQuote(prefix, r.value.1.column).Ok?
    ensures r.Ok? && r.value.1.alias.None? ==> r.value.0 == ColumnQuote(prefix, r.value.1.column).value
    ensures r.Ok? && r.value.1.alias.Some? ==>
      ColumnQuote(prefix, r.value.1.alias.value).Ok? &&
      r.value.0 == ColumnQuote(prefix, r.value.1.column).value + [Lit(" AS ")] + ColumnQuote(prefix, r.value.1.alias.value).value
  {
    if isJoin && '*' in s then Err(JoinWildcard)
    else
      match ParseColumnToken(s)
      case None => Err(TypeError("columnQuote(): argument must be of type string"))
      case Some(t) =>
        var c :- ColumnQuote(prefix, t.column);
        if t.alias.Some? then
          var a :- ColumnQuote(prefix, t.alias.value);
          HolesConcat(c, [Lit(" AS ")]);
          HolesConcat(c + [Lit(" AS ")], a);
          Ok((c + [Lit(" AS ")] + a, t))
        else Ok((c, t))
  }

  /** `str_starts_with($value, '@')`. */
  predicate Marked(s: string) { |s| > 0 && s[0] == '@' }

  /** A lone string column as the one-element list columnPush() turns it into. */
  function Listed(columns: Value): Value {
    if columns.Str? then Arr([(IntKey(0), columns)]) else columns
  }

  /**
   * columnPush(): the comma-separated projection, the columns as the caller
   * sees them afterwards (a lone string becomes a list, aliased entries are
   * rewritten to their alias) and the map with the raw columns' parameters.
   */
  function ColumnPush(prefix: string, columns: Value, root: bool, isJoin: bool, m: ParamMap): (r: Result<(Sql, Value, ParamMap)>)
    ensures columns == Str("*") ==> r == Ok(([Lit("*")], columns, m))
    decreases Listed(columns), 2
  {
    if columns == Str("*") then Ok(([Lit("*")], columns, m))
    else
      match Listed(columns)
      case Arr(es) =>
        var p :- PushEntries(prefix, es, root, isJoin, |es| == 1, Push([], false, es, m));
        Ok((Join(p.stack, ","), Arr(p.cols), p.m))
      case _ => Ok(([], columns, m))
  }

  function PushEntries(prefix: string, es: PArray, root: bool, isJoin: bool, single: bool, p: Push): Result<Push>
    decreases es, 1
  {
    if es == [] then Ok(p)
    else
      var p1 :- PushEntry(prefix, es[0], root, isJoin, single, p);
      PushEntries(prefix, es[1..], root, isJoin, single, p1)
  }

  /** One pass of columnPush()'s loop. */
  function PushEntry(prefix: string, e: (Key, Value), root: bool, isJoin: bool, single: bool, p: Push): Result<Push>
    decreases e, 0
  {
    var (k, v) := e;
    if k.StrKey? && v.Arr? && root && single then
      var head :- ColumnQuote(prefix, k.s);
      var (inner, _, m1) :- ColumnPush(prefix, v, false, isJoin, p.m);
      Ok(p.(stack := p.stack + [head, inner], m := m1))
    else if v.Arr? then
      var (inner, _, m1) :- ColumnPush(prefix, v, false, isJoin, p.m);
      Ok(p.(stack := p.stack + [inner], m := m1))
    else if k.StrKey? then
      var raw :- BuildRaw(prefix, v, p.m);
      match raw
      case None => Ok(p)
      case Some((q, m1)) =>
        if !TruthySql(q) then Ok(p.(m := m1))
        else
          match ParseRawColumn(k.s)
          case None => Err(TypeError("columnQuote(): argument must be of type string"))
          case Some(c) =>
            var cq :- ColumnQuote(prefix, c);
            Ok(p.(stack := p.stack + [q + [Lit(" AS ")] + cq], m := m1))
    else if v.Str? then
      var (str, t) :- StringColumn(prefix, v.s, isJoin);
      Ok(PushString(k, v.s, str, t, p))
    else Ok(p)
  }

  /**
   * A compiled string column `str` joins the stack: a first DISTINCT-marked
   * column goes to the front behind `DISTINCT `, any other to the back, and
   * an alias is remembered under the entry's key.
   */
  function PushString(k: Key, s: string, str: Sql, t: ColumnToken, p: Push): Push {
    var cols := if t.alias.Some? then Put(p.cols, k, Str(AliasText(t))) else p.cols;
    if !p.distinct && Marked(s) then p.(stack := [[Lit("DISTINCT ")] + str] + p.stack, distinct := true, cols := cols)
    else p.(stack := p.stack + [str], cols := cols)
  }

  // ---------------------------------------------------------------------
  // The projection only refers to parameters it bound

  lemma ParamsInFlattenUnshift(x: Sql, st: seq<Sql>, names: set<string>)
    requires ParamsIn(Holes(x), names) && ParamsIn(Holes(Flatten(st)), names)
    ensures ParamsIn(Holes(Flatten([x] + st)), names)
  {
    assert ([x] + st)[1..] == st;
    ParamsInConcat(x, Flatten(st), names);
  }

  lemma ParamsInFlattenPush(st: seq<Sql>, x: Sql, names: set<string>)
    requires ParamsIn(Holes(x), names) && ParamsIn(Holes(Flatten(st)), names)
    ensures ParamsIn(Holes(Flatten(st + [x])), names)
  {
    FlattenAppend(st, x);
    ParamsInConcat(Flatten(st), x, names);
  }

  /** The loop invariant: the stack mentions only bound parameters, and the map only grows. */
  ghost predicate PushSound(p: Push, names: set<string>) {
    ParamsIn(Holes(Flatten(p.stack)), Names(p.m)) && names <= Names(p.m)
  }

  /**
   * A projection never draws a generated placeholder: its only parameters
   * are those of its raw columns, all of them in the new map.
   */
  lemma {:induction false} ColumnPushParams(prefix: string, columns: Value, root: bool, isJoin: bool, m: ParamMap)
    requires WfValue(columns) && ColumnPush(prefix, columns, root, isJoin, m).Ok?
    ensures var (q, _, m1) := ColumnPush(prefix, columns, root, isJoin, m).value;
      ParamsIn(Holes(q), Names(m1)) && Names(m) <= Names(m1)
    decreases Listed(columns), 2
  {
    if columns != Str("*") && Listed(columns).Arr? {
      var es := Listed(columns).entries;
      var p0 := Push([], false, es, m);
      assert WfEntries(es) by {
        if columns.Str? {
          assert WfEntry(es[0]);
        }
      }
      PushEntriesParams(prefix, es, root, isJoin, |es| == 1, p0, Names(m));
      var p := PushEntries(prefix, es, root, isJoin, |es| == 1, p0).value;
      HolesJoin(p.stack, ",");
    }
  }

  lemma {:induction false} PushEntriesParams(prefix: string, es: PArray, root: bool, isJoin: bool, single: bool, p: Push, names: set<string>)
    requires WfEntries(es) && PushSound(p, names)
    requires PushEntries(prefix, es, root, isJoin, single, p).Ok?
    ensures PushSound(PushEntries(prefix, es, root, isJoin, single, p).value, names)
    decreases es, 1
  {
    if es != [] {
      assert WfEntry(es[0]);
      PushEntryParams(prefix, es[0], root, isJoin, single, p, names);
      var p1 := PushEntry(prefix, es[0], root, isJoin, single, p).value;
      assert WfEntries(es[1..]) by {
        forall i | 0 <= i < |es[1..]| ensures WfEntry(es[1..][i]) {
          assert es[1..][i] == es[i + 1];
        }
      }
      PushEntriesParams(prefix, es[1..], root, isJoin, single, p1, names);
    }
  }

  lemma {:induction false} PushEntryParams(prefix: string, e: (Key, Value), root: bool, isJoin: bool, single: bool, p: Push, names: set<string>)
    requires WfEntry(e) && PushSound(p, names)
    requires PushEntry(prefix, e, root, isJoin, single, p).Ok?
    ensures PushSound(PushEntry(prefix, e, root, isJoin, single, p).value, names)
    decreases e, 1
  {
    var (k, v) := e;
    if v.Arr? {
      PushNestedParams(prefix, e, root, isJoin, single, p, names);
    } else if k.StrKey? {
      PushRawParams(prefix, e, root, isJoin, single, p, names);
    } else if v.Str? {
      var (str, t) := StringColumn(prefix, v.s, isJoin).value;
      PushStringEntry(prefix, e, root, isJoin, single, p);
      if !p.distinct && Marked(v.s) {
        HolesConcat([Lit("DISTINCT ")], str);
        ParamsInFlattenUnshift([Lit("DISTINCT ")] + str, p.stack, Names(p.m));
      } else {
        ParamsInFlattenPush(p.stack, str, Names(p.m));
      }
    }
  }

  /** A nested column list, under a group name or not. */
  lemma {:induction false} PushNestedParams(prefix: string, e: (Key, Value), root: bool, isJoin: bool, single: bool, p: Push, names: set<string>)
    requires WfEntry(e) && e.1.Arr? && PushSound(p, names)
    requires PushEntry(prefix, e, root, isJoin, single, p).Ok?
    ensures PushSound(PushEntry(prefix, e, root, isJoin, single, p).value, names)
    decreases e, 0
  {
    var (k, v) := e;
    ColumnPushParams(prefix, v, false, isJoin, p.m);
    var (inner, _, m1) := ColumnPush(prefix, v, false, isJoin, p.m).value;
    ParamsInGrow(Holes(Flatten(p.stack)), Names(p.m), Names(m1));
    if k.StrKey? && root && single {
      var head := ColumnQuote(prefix, k.s).value;
      assert PushEntry(prefix, e, root, isJoin, single, p).value == p.(stack := p.stack + [head, inner], m := m1);
      ParamsInFlattenPush(p.stack, head, Names(m1));
      ParamsInFlattenPush(p.stack + [head], inner, Names(m1));
      PushTwo(p.stack, head, inner);
    } else {
      assert PushEntry(prefix, e, root, isJoin, single, p).value == p.(stack := p.stack + [inner], m := m1);
      ParamsInFlattenPush(p.stack, inner, Names(m1));
    }
  }

  lemma PushTwo(st: seq<Sql>, a: Sql, b: Sql)
    ensures st + [a, b] == st + [a] + [b]
  {
  }

  /** A string-keyed raw column `'alias' => raw`. */
  lemma PushRawParams(prefix: string, e: (Key, Value), root: bool, isJoin: bool, single: bool, p: Push, names: set<string>)
    requires WfEntry(e) && !e.1.Arr? && e.0.StrKey? && PushSound(p, names)
    requires PushEntry(prefix, e, root, isJoin, single, p).Ok?
    ensures PushSound(PushEntry(prefix, e, root, isJoin, single, p).value, names)
  {
    var (k, v) := e;
    if v.Raw? {
      BuildRawHoles(prefix, v, p.m);
      var (q, m1) := BuildRaw(prefix, v, p.m).value.value;
      ParamsInGrow(Holes(Flatten(p.stack)), Names(p.m), Names(m1));
      if TruthySql(q) {
        var c := ParseRawColumn(k.s).value;
        var cq := ColumnQuote(prefix, c).value;
        ParamsInConcat(q, [Lit(" AS ")], Names(m1));
        ParamsInConcat(q + [Lit(" AS ")], cq, Names(m1));
        ParamsInFlattenPush(p.stack, q + [Lit(" AS ")] + cq, Names(m1));
      }
    }
  }

  // ---------------------------------------------------------------------
  // DISTINCT: the first `@` column, and only that one, moves to the front

  /** An entry whose value is a string carrying the `@` marker. */
  predicate MarkedEntry(e: (Key, Value)) { e.1.Str? && Marked(e.1.s) }

  /** The position of the first marked entry. */
  function FirstMarked(es: PArray): (r: Option<nat>)
    ensures r.Some? ==> r.value < |es| && MarkedEntry(es[r.value])
    ensures r.Some? ==> forall j :: 0 <= j < r.value ==> !MarkedEntry(es[j])
    ensures r.None? ==> forall j :: 0 <= j < |es| ==> !MarkedEntry(es[j])
  {
    if es == [] then None
    else if MarkedEntry(es[0]) then Some(0)
    else match FirstMarked(es[1..])
      case None => None
      case Some(k) => Some(k + 1)
  }

  /** A flat column list: int keys and string values that each compile. */
  predicate FlatColumns(prefix: string, es: PArray, isJoin: bool) {
    es == [] ||
    (es[0].0.IntKey? && es[0].1.Str? && StringColumn(prefix, es[0].1.s, isJoin).Ok? && FlatColumns(prefix, es[1..], isJoin))
  }

  /** Each column of a flat list compiled on its own, in order. */
  function ColumnSqls(prefix: string, es: PArray, isJoin: bool): (r: seq<Sql>)
    requires FlatColumns(prefix, es, isJoin)
    ensures |r| == |es|
  {
    if es == [] then [] else [StringColumn(prefix, es[0].1.s, isJoin).value.0] + ColumnSqls(prefix, es[1..], isJoin)
  }

  /**
   * The projection of a flat list as the design describes it: the compiled
   * columns `c` in order, except that the first `@` column (at `first`) is
   * moved to the front with `DISTINCT ` in front of it.
   */
  function DistinctFirst(c: seq<Sql>, first: Option<nat>): seq<Sql>
    requires first.Some? ==> first.value < |c|
  {
    match first
    case None => c
    case Some(k) => [[Lit("DISTINCT ")] + c[k]] + c[..k] + c[k + 1..]
  }

  /**
   * The stack and DISTINCT flag the loop ends with, from a given stack and
   * flag, for the compiled columns `c` whose first `@` column is at `first`.
   */
  function FlatStack(stack: seq<Sql>, distinct: bool, c: seq<Sql>, first: Option<nat>): (seq<Sql>, bool)
    requires first.Some? ==> first.value < |c|
  {
    if distinct || first.None? then (stack + c, distinct)
    else
      var k := first.value;
      ([[Lit("DISTINCT ")] + c[k]] + stack + c[..k] + c[k + 1..], true)
  }

  lemma FlatStackStep(stack: seq<Sql>, distinct: bool, c0: Sql, ct: seq<Sql>, marked: bool, first: Option<nat>)
    requires first.Some? ==> first.value < |ct|
    ensures var f := if marked then Some(0) else if first.Some? then Some(first.value + 1) else None;
      if !distinct && marked then
        FlatStack(stack, distinct, [c0] + ct, f) == FlatStack([[Lit("DISTINCT ")] + c0] + stack, true, ct, first)
      else
        FlatStack(stack, distinct, [c0] + ct, f) == FlatStack(stack + [c0], distinct, ct, first)
  {
    var c := [c0] + ct;
    if !distinct && marked {
      assert c[..0] == [] && c[1..] == ct;
      assert [[Lit("DISTINCT ")] + c0] + stack + ct == [[Lit("DISTINCT ")] + c0] + stack + c[..0] + c[1..];
    } else if distinct || first.None? {
      assert stack + [c0] + ct == stack + c;
    } else {
      var k := first.value;
      assert c[..k + 1] == [c0] + ct[..k];
      assert c[k + 2..] == ct[k + 1..];
      var d := [[Lit("DISTINCT ")] + ct[k]];
      assert d + (stack + [c0]) + ct[..k] + ct[k + 1..] == d + stack + ([c0] + ct[..k]) + ct[k + 1..];
    }
  }

  /** One int-keyed string column through the loop body. */
  lemma PushStringEntry(prefix: string, e: (Key, Value), root: bool, isJoin: bool, single: bool, p: Push)
    requires e.0.IntKey? && e.1.Str? && StringColumn(prefix, e.1.s, isJoin).Ok?
    ensures PushEntry(prefix, e, root, isJoin, single, p).Ok?
    ensures var p1 := PushEntry(prefix, e, root, isJoin, single, p).value;
      var (str, t) := StringColumn(prefix, e.1.s, isJoin).value;
      && p1.m == p.m
      && p1.cols == (if t.alias.Some? then Put(p.cols, e.0, Str(AliasText(t))) else p.cols)
      && (!p.distinct && MarkedEntry(e) ==> p1.stack == [[Lit("DISTINCT ")] + str] + p.stack && p1.distinct)
      && (p.distinct || !MarkedEntry(e) ==> p1.stack == p.stack + [str] && p1.distinct == p.distinct)
  {
    var (str, t) := StringColumn(prefix, e.1.s, isJoin).value;
    assert PushEntry(prefix, e, root, isJoin, single, p) == Ok(PushString(e.0, e.1.s, str, t, p));
    PushStringFields(e.0, e.1.s, str, t, p);
  }

  lemma PushStringFields(k: Key, s: string, str: Sql, t: ColumnToken, p: Push)
    ensures var p1 := PushString(k, s, str, t, p);
      && p1.m == p.m
      && p1.cols == (if t.alias.Some? then Put(p.cols, k, Str(AliasText(t))) else p.cols)
      && (!p.distinct && Marked(s) ==> p1.stack == [[Lit("DISTINCT ")] + str] + p.stack && p1.distinct)
      && (p.distinct || !Marked(s) ==> p1.stack == p.stack + [str] && p1.distinct == p.distinct)
  {
  }

  lemma FirstMarkedCons(es: PArray)
    requires es != []
    ensures var ft := FirstMarked(es[1..]);
      FirstMarked(es) == (if MarkedEntry(es[0]) then Some(0) else if ft.Some? then Some(ft.value + 1) else None)
  {
  }

  /** The first step of the loop over a flat list, and the first compiled column. */
  lemma PushFlatCons(prefix: string, es: PArray, root: bool, isJoin: bool, single: bool, p: Push)
    requires es != [] && FlatColumns(prefix, es, isJoin)
    ensures FlatColumns(prefix, es[1..], isJoin)
    ensures PushEntry(prefix, es[0], root, isJoin, single, p).Ok?
    ensures var p1 := PushEntry(prefix, es[0], root, isJoin, single, p).value;
      var c0 := StringColumn(prefix, es[0].1.s, isJoin).value.0;
      && PushEntries(prefix, es, root, isJoin, single, p) == PushEntries(prefix, es[1..], root, isJoin, single, p1)
      && ColumnSqls(prefix, es, isJoin) == [c0] + ColumnSqls(prefix, es[1..], isJoin)
      && p1.m == p.m
      && (!p.distinct && MarkedEntry(es[0]) ==> p1.stack == [[Lit("DISTINCT ")] + c0] + p.stack && p1.distinct)
      && (p.distinct || !MarkedEntry(es[0]) ==> p1.stack == p.stack + [c0] && p1.distinct == p.distinct)
  {
    PushStringEntry(prefix, es[0], root, isJoin, single, p);
  }

  lemma {:induction false} PushFlat(prefix: string, es: PArray, root: bool, isJoin: bool, single: bool, p: Push)
    requires FlatColumns(prefix, es, isJoin)
    ensures PushEntries(prefix, es, root, isJoin, single, p).Ok?
    ensures var r := PushEntries(prefix, es, root, isJoin, single, p).value;
      r.m == p.m && (r.stack, r.distinct) == FlatStack(p.stack, p.distinct, ColumnSqls(prefix, es, isJoin), FirstMarked(es))
    decreases es
  {
    if es != [] {
      var tail := es[1..];
      PushFlatCons(prefix, es, root, isJoin, single, p);
      var p1 := PushEntry(prefix, es[0], root, isJoin, single, p).value;
      PushFlat(prefix, tail, root, isJoin, single, p1);
      var c0 := StringColumn(prefix, es[0].1.s, isJoin).value.0;
      var ct := ColumnSqls(prefix, tail, isJoin);
      FirstMarkedCons(es);
      FlatStackStep(p.stack, p.distinct, c0, ct, MarkedEntry(es[0]), FirstMarked(tail));
    } else {
      assert p.stack + [] == p.stack;
    }
  }

  /** columnPush() on a flat list produces exactly DistinctFirst, comma-separated, and binds nothing. */
  lemma ColumnPushDistinct(prefix: string, es: PArray, root: bool, isJoin: bool, m: ParamMap)
    requires FlatColumns(prefix, es, isJoin)
    ensures ColumnPush(prefix, Arr(es), root, isJoin, m).Ok?
    ensures ColumnPush(prefix, Arr(es), root, isJoin, m).value.0 == Join(DistinctFirst(ColumnSqls(prefix, es, isJoin), FirstMarked(es)), ",")
    ensures ColumnPush(prefix, Arr(es), root, isJoin, m).value.2 == m
  {
    var p0 := Push([], false, es, m);
    PushFlat(prefix, es, root, isJoin, |es| == 1, p0);
    var r := PushEntries(prefix, es, root, isJoin, |es| == 1, p0).value;
    ColumnPushArr(prefix, es, root, isJoin, m, r);
    DistinctFirstIsFlatStack(ColumnSqls(prefix, es, isJoin), FirstMarked(es));
  }

  /** columnPush() on a list is its loop's stack joined by commas, with the loop's columns and map. */
  lemma ColumnPushArr(prefix: string, es: PArray, root: bool, isJoin: bool, m: ParamMap, r: Push)
    requires PushEntries(prefix, es, root, isJoin, |es| == 1, Push([], false, es, m)) == Ok(r)
    ensures ColumnPush(prefix, Arr(es), root, isJoin, m) == Ok((Join(r.stack, ","), Arr(r.cols), r.m))
  {
  }

  lemma DistinctFirstIsFlatStack(c: seq<Sql>, first: Option<nat>)
    requires first.Some? ==> first.value < |c|
    ensures DistinctFirst(c, first) == FlatStack([], false, c, first).0
  {
    if first.Some? {
      var k := first.value;
      assert [[Lit("DISTINCT ")] + c[k]] + [] + c[..k] + c[k + 1..] == [[Lit("DISTINCT ")] + c[k]] + c[..k] + c[k + 1..];
    } else {
      assert [] + c == c;
    }
  }

  // ---------------------------------------------------------------------
  // The caller's columns: aliased entries are rewritten to their alias

  /** The value columnPush() leaves at an entry: `alias [type]` for an aliased int-keyed string, else the value itself. */
  function RenamedValue(e: (Key, Value)): Value {
    if Aliased(e) then Str(AliasText(ParseColumnToken(e.1.s).value)) else e.1
  }

  /** An int-keyed string column with a `(alias)`. */
  predicate Aliased(e: (Key, Value)) {
    e.0.IntKey? && e.1.Str? && ParseColumnToken(e.1.s).Some? && ParseColumnToken(e.1.s).value.alias.Some?
  }

  function Renamed(es: PArray): (r: PArray)
    ensures |r| == |es|
    ensures forall i :: 0 <= i < |es| ==> r[i] == (es[i].0, RenamedValue(es[i]))
  {
    seq(|es|, i requires 0 <= i < |es| => (es[i].0, RenamedValue(es[i])))
  }

  /** What one pass of the loop does to the caller's columns. */
  lemma PushEntryCols(prefix: string, e: (Key, Value), root: bool, isJoin: bool, single: bool, p: Push)
    requires PushEntry(prefix, e, root, isJoin, single, p).Ok?
    ensures var cols := PushEntry(prefix, e, root, isJoin, single, p).value.cols;
      if Aliased(e) then cols == Put(p.cols, e.0, RenamedValue(e)) else cols == p.cols
  {
    var (k, v) := e;
    if k.IntKey? && v.Str? {
      PushStringEntry(prefix, e, root, isJoin, single, p);
    } else {
      PushEntryKeepsCols(prefix, e, root, isJoin, single, p);
    }
  }

  lemma PushEntryKeepsCols(prefix: string, e: (Key, Value), root: bool, isJoin: bool, single: bool, p: Push)
    requires !(e.0.IntKey? && e.1.Str?)
    requires PushEntry(prefix, e, root, isJoin, single, p).Ok?
    ensures PushEntry(prefix, e, root, isJoin, single, p).value.cols == p.cols
  {
  }

  /** Writing back entry `i` moves the boundary between renamed and untouched entries by one. */
  lemma RenamedStep(es: PArray, i: nat)
    requires i < |es|
    ensures (Renamed(es[..i]) + es[i..])[i := (es[i].0, RenamedValue(es[i]))] == Renamed(es[..i + 1]) + es[i + 1..]
  {
    var a := (Renamed(es[..i]) + es[i..])[i := (es[i].0, RenamedValue(es[i]))];
    var b := Renamed(es[..i + 1]) + es[i + 1..];
    assert |a| == |b|;
    forall j | 0 <= j < |a| ensures a[j] == b[j] {
      if j < i {
        assert es[..i][j] == es[j] && es[..i + 1][j] == es[j];
      } else if j > i {
        assert es[i..][j - i] == es[j] && es[i + 1..][j - i - 1] == es[j];
      } else {
        assert es[..i + 1][i] == es[i];
      }
    }
  }

  /** `$columns[$key] = …` on a list whose keys are those of `es`, unique, lands at the key's own position. */
  lemma PutAtOwnKey(cols: PArray, es: PArray, i: nat, v: Value)
    requires UniqueKeys(es) && |cols| == |es| && i < |es|
    requires forall j :: 0 <= j < |es| ==> cols[j].0 == es[j].0
    ensures Put(cols, es[i].0, v) == cols[i := (es[i].0, v)]
  {
    var k := es[i].0;
    assert HasKey(cols, k) by { assert cols[i].0 == k; }
    assert IndexOf(cols, k) == i;
  }

  lemma {:induction false} PushRenames(prefix: string, es0: PArray, i: nat, root: bool, isJoin: bool, single: bool, p: Push)
    requires UniqueKeys(es0) && i <= |es0|
    requires p.cols == Renamed(es0[..i]) + es0[i..]
    requires PushEntries(prefix, es0[i..], root, isJoin, single, p).Ok?
    ensures PushEntries(prefix, es0[i..], root, isJoin, single, p).value.cols == Renamed(es0)
    decreases |es0| - i
  {
    if i == |es0| {
      assert es0[..i] == es0;
      assert es0[i..] == [];
      assert p.cols == Renamed(es0) + [];
    } else {
      var es := es0[i..];
      assert es[0] == es0[i];
      assert es[1..] == es0[i + 1..];
      var p1 := PushEntry(prefix, es[0], root, isJoin, single, p).value;
      assert PushEntries(prefix, es, root, isJoin, single, p) == PushEntries(prefix, es0[i + 1..], root, isJoin, single, p1);
      PushEntryCols(prefix, es[0], root, isJoin, single, p);
      RenameColsStep(es0, i, p.cols, p1.cols);
      PushRenames(prefix, es0, i + 1, root, isJoin, single, p1);
    }
  }

  /** One entry's rename moves the boundary between renamed and untouched columns by one. */
  lemma RenameColsStep(es0: PArray, i: nat, cols: PArray, cols1: PArray)
    requires UniqueKeys(es0) && i < |es0| && cols == Renamed(es0[..i]) + es0[i..]
    requires cols1 == if Aliased(es0[i]) then Put(cols, es0[i].0, RenamedValue(es0[i])) else cols
    ensures cols1 == Renamed(es0[..i + 1]) + es0[i + 1..]
  {
    RenamedStep(es0, i);
    var rv := RenamedValue(es0[i]);
    if !Aliased(es0[i]) {
      assert cols[i] == es0[i];
      assert cols[i := (es0[i].0, rv)] == cols;
    } else {
      assert forall j :: 0 <= j < |es0| ==> cols[j].0 == es0[j].0;
      PutAtOwnKey(cols, es0, i, rv);
    }
  }

  /**
   * After columnPush() the caller's columns are a list with the same keys in
   * the same order, every aliased int-keyed string replaced by its alias (and
   * type hint), everything else as it was.
   */
  lemma ColumnPushRenames(prefix: string, columns: Value, root: bool, isJoin: bool, m: ParamMap)
    requires columns.Arr? ==> UniqueKeys(columns.entries)
    requires (columns.Arr? || columns.Str?) && columns != Str("*")
    requires ColumnPush(prefix, columns, root, isJoin, m).Ok?
    ensures ColumnPush(prefix, columns, root, isJoin, m).value.1 == Arr(Renamed(Listed(columns).entries))
  {
    var es := Listed(columns).entries;
    assert es[..0] == [] && es[0..] == es;
    assert Renamed([]) == [];
    PushRenames(prefix, es, 0, root, isJoin, |es| == 1, Push([], false, es, m));
  }

  /** A lone aliased string column comes back as a one-element list holding its alias. */
  lemma AliasedStringColumn(prefix: string, s: string, isJoin: bool, m: ParamMap)
    requires s != "*"
    requires ColumnPush(prefix, Str(s), true, isJoin, m).Ok?
    requires ParseColumnToken(s).Some? && ParseColumnToken(s).value.alias.Some?
    ensures ColumnPush(prefix, Str(s), true, isJoin, m).value.1 == Arr([(IntKey(0), Str(AliasText(ParseColumnToken(s).value)))])
  {
    ColumnPushRenames(prefix, Str(s), true, isJoin, m);
  }

  /** Joining with an int-keyed `*` column is refused. */
  lemma JoinWildcardRefused(prefix: string, es: PArray, i: nat, root: bool, m: ParamMap)
    requires i < |es| && FlatColumns(prefix, es[..i], true)
    requires es[i].0.IntKey? && es[i].1.Str? && '*' in es[i].1.s
    ensures ColumnPush(prefix, Arr(es), root, true, m) == Err(JoinWildcard)
  {
    var single, p0 := |es| == 1, Push([], false, es, m);
    PushFlat(prefix, es[..i], root, true, single, p0);
    var pi := PushEntries(prefix, es[..i], root, true, single, p0).value;
    WildcardEntry(prefix, es[i], root, single, pi);
    FailsAt(prefix, es, i, root, true, single, p0, JoinWildcard);
    ColumnPushFails(prefix, es, root, true, m, JoinWildcard);
  }

  /** An entry that fails after the entries before it went through stops the loop with its error. */
  lemma FailsAt(prefix: string, es: PArray, i: nat, root: bool, isJoin: bool, single: bool, p: Push, err: Error)
    requires i < |es| && PushEntries(prefix, es[..i], root, isJoin, single, p).Ok?
    requires PushEntry(prefix, es[i], root, isJoin, single, PushEntries(prefix, es[..i], root, isJoin, single, p).value) == Err(err)
    ensures PushEntries(prefix, es, root, isJoin, single, p) == Err(err)
  {
    PushEntriesSplit(prefix, es, i, root, isJoin, single, p);
    assert es[i..][0] == es[i];
  }

  lemma ColumnPushFails(prefix: string, es: PArray, root: bool, isJoin: bool, m: ParamMap, err: Error)
    requires PushEntries(prefix, es, root, isJoin, |es| == 1, Push([], false, es, m)) == Err(err)
    ensures ColumnPush(prefix, Arr(es), root, isJoin, m) == Err(err)
  {
  }

  lemma WildcardEntry(prefix: string, e: (Key, Value), root: bool, single: bool, p: Push)
    requires e.0.IntKey? && e.1.Str? && '*' in e.1.s
    ensures PushEntry(prefix, e, root, true, single, p) == Err(JoinWildcard)
  {
    assert StringColumn(prefix, e.1.s, true) == Err(JoinWildcard);
  }

  lemma {:induction false} PushEntriesSplit(prefix: string, es: PArray, i: nat, root: bool, isJoin: bool, single: bool, p: Push)
    requires i <= |es| && PushEntries(prefix, es[..i], root, isJoin, single, p).Ok?
    ensures PushEntries(prefix, es, root, isJoin, single, p) ==
      PushEntries(prefix, es[i..], root, isJoin, single, PushEntries(prefix, es[..i], root, isJoin, single, p).value)
    decreases i
  {
    if i == 0 {
      assert es[i..] == es;
    } else {
      assert es[..i][0] == es[0] && es[..i][1..] == es[1..][..i - 1];
      var p1 := PushEntry(prefix, es[0], root, isJoin, single, p).value;
      PushEntriesSplit(prefix, es[1..], i - 1, root, isJoin, single, p1);
      assert es[1..][i - 1..] == es[i..];
    }
  }
}
