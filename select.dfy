/**
 * The table part of a SELECT and the statement itself: isJoin() and
 * buildJoin() (the `[>]table(alias)` join specifications with their USING,
 * ON or raw relations) and selectContext(), which resolves the overloaded
 * argument list, picks the projection and appends the clauses.
 */
module Select {
  import opened Php
  import opened Sql
  import opened Quoting
  import opened Patterns
  import opened Conditions
  import opened Clauses
  import opened Columns

  // ---------------------------------------------------------------------
  // Joins

  /** isJoin(): an array whose first key is a string starting with `[`. */
  predicate IsJoin(join: Value) {
    && join.Arr?
    && |join.entries| > 0
    && join.entries[0].0.StrKey?
    && |join.entries[0].0.s| > 0
    && join.entries[0].0.s[0] == '['
  }

  /** The join type of a direction marker. */
  function JoinWord(direction: string): string {
    if direction == ">" then "LEFT"
    else if direction == "<" then "RIGHT"
    else if direction == "<>" then "FULL"
    else if direction == "><" then "INNER"
    else ""
  }

  const Unconvertible := TypeError("Object could not be converted to string")

  /** The values of a `['a', 'b']` relation as strings, for `USING ("a", "b")`. */
  function UsingNames(es: PArray): (r: Result<seq<string>>)
    ensures r.Ok? <==> forall i :: 0 <= i < |es| ==> StrCast(es[i].1).Some?
    ensures r.Ok? ==> |r.value| == |es| && forall i :: 0 <= i < |es| ==> r.value[i] == StrCast(es[i].1).value
  {
    if es == [] then Ok([])
    else
      match StrCast(es[0].1)
      case None => Err(Unconvertible)
      case Some(x) =>
        var rest := UsingNames(es[1..]);
        if rest.Err? then rest
        else
          assert forall i :: 1 <= i < |es| ==> es[i] == es[1..][i - 1];
          Ok([x] + rest.value)
  }

  /**
   * One `column => column` pair of an ON relation, or an `AND => [...]`
   * group compiled as conditions. `table` is the (quoted) table joined to,
   * `target` the joined table's alias or name (absent when the key did not
   * parse).
   */
  function OnPair(prefix: string, table: Sql, target: Option<string>, k: Key, v: Value, s: St): Result<(Sql, St)> {
    if k == StrKey("AND") && v.Arr? then Implode(prefix, v.entries, " AND", s)
    else
      var key := KeyStr(k);
      var c :- ColumnQuote(prefix, key);
      var left := if 0 < FirstDot(key) < |key| then c else table + [Lit(".")] + c;
      match target
      case None => Err(TypeError("tableQuote(): argument must be of type string"))
      case Some(t) =>
        var tq :- TableQuote(prefix, t);
        var right :- ColumnQuoteArg(prefix, v);
        Ok((left + [Lit(" = ")] + tq + [Lit(".")] + right, s))
  }

  function OnPairs(prefix: string, table: Sql, target: Option<string>, es: PArray, s: St): Result<(seq<Sql>, St)> {
    if es == [] then Ok(([], s))
    else
      var (q, s1) :- OnPair(prefix, table, target, es[0].0, es[0].1, s);
      var (rest, s2) :- OnPairs(prefix, table, target, es[1..], s1);
      Ok(([q] + rest, s2))
  }

  /** A join's relation: `USING ("c")`, `USING ("a", "b")`, `ON …`, a raw fragment, or the value as text. */
  function JoinRelation(prefix: string, table: Sql, target: Option<string>, rel: Value, s: St): Result<(Sql, St)> {
    match rel
    case Str(r) => Ok(([Lit("USING (\"" + r + "\")")], s))
    case Arr(es) =>
      if IsSet(es, IntKey(0)) then
        var names :- UsingNames(es);
        Ok(([Lit("USING (\"" + ImplodeStr(names, "\", \"") + "\")")], s))
      else
        var (conds, s1) :- OnPairs(prefix, table, target, es, s);
        Ok(([Lit("ON ")] + Join(conds, " AND "), s1))
    case _ =>
      var raw :- BuildRaw(prefix, rel, s.params);
      match raw
      case Some((q, m1)) => if TruthySql(q) then Ok((q, s.(params := m1))) else Err(Unconvertible)
      case None =>
        match StrCast(rel)
        case Some(x) => Ok(([Lit(x)], s))
        case None => Err(Unconvertible)
  }

  /** The joined table, `"prefix_t"` or `"prefix_t" AS "prefix_a"`. */
  function JoinedTable(prefix: string, t: string, alias: Option<string>): Result<Sql> {
    var name :- TableQuote(prefix, t);
    match alias
    case None => Ok(name)
    case Some(a) =>
      var aq :- TableQuote(prefix, a);
      Ok(name + [Lit(" AS ")] + aq)
  }

  /**
   * The loop of buildJoin(): an unmarked key is skipped, a key that does not
   * parse fails once its relation has been compiled.
   */
  function JoinEntries(prefix: string, table: Sql, es: PArray, s: St): Result<(seq<Sql>, St)> {
    if es == [] then Ok(([], s))
    else
      var (k, rel) := es[0];
      match ParseJoinKey(KeyStr(k))
      case Unmarked => JoinEntries(prefix, table, es[1..], s)
      case NoMatch =>
        var _ :- JoinRelation(prefix, table, None, rel, s);
        Err(TypeError("tableQuote(): argument must be of type string"))
      case Marked(d, t, alias) =>
        var (relation, s1) :- JoinRelation(prefix, table, Some(if alias.Some? then alias.value else t), rel, s);
        var name :- JoinedTable(prefix, t, alias);
        var (rest, s2) :- JoinEntries(prefix, table, es[1..], s1);
        Ok(([[Lit(JoinWord(d) + " JOIN ")] + name + [Lit(" ")] + relation] + rest, s2))
  }

  /** buildJoin(): the join clauses, separated by spaces. */
  function BuildJoin(prefix: string, table: Sql, join: PArray, s: St): Result<(Sql, St)> {
    var (items, s1) :- JoinEntries(prefix, table, join, s);
    Ok((Join(items, " "), s1))
  }

  // ---------------------------------------------------------------------
  // selectContext()

  /** The table clause and the name joins refer to: `"t" AS "a"` and `"a"`, or `"t"` twice. */
  function TableClause(prefix: string, table: string): Result<(Sql, Sql)> {
    match TableAliasFrom(table, 0)
    case Some((t, a)) =>
      var tq :- TableQuote(prefix, t);
      var aq :- TableQuote(prefix, a);
      Ok((tq + [Lit(" AS ")] + aq, aq))
    case None =>
      var tq :- TableQuote(prefix, table);
      Ok((tq, tq))
  }

  /**
   * Without a join specification the second argument is not a join: the
   * columns and the where clause are read off the arguments that were given.
   */
  function ResolveOverload(join: Value, columns: Value, where: Value, columnFn: Value): (r: (Value, Value)) {
    if columns == Null then
      if where != Null || (join.Arr? && columnFn != Null) then (Null, join) else (join, Null)
    else (join, columns)
  }

  /**
   * The projection: columnPush() of the columns, or for an aggregate
   * `1`, a raw fragment, or `FN(columns)` with `*` standing for no columns.
   * Also returns the columns and the where clause as they stand afterwards.
   */
  function Projection(prefix: string, columns: Value, where: Value, join: Value, columnFn: Value, isJoin: bool, m: ParamMap): Result<(Sql, Value, Value, ParamMap)> {
    if columnFn == Null then
      var (q, cols, m1) :- ColumnPush(prefix, columns, true, isJoin, m);
      Ok((q, cols, where, m1))
    else if columnFn == Int(1) then
      Ok(([Lit("1")], columns, if where == Null then columns else where, m))
    else
      var raw :- BuildRaw(prefix, columnFn, m);
      if raw.Some? && TruthySql(raw.value.0) then Ok((raw.value.0, columns, where, raw.value.1))
      else
        var m1 := if raw.Some? then raw.value.1 else m;
        var star := Empty(columns) || columns.Raw?;
        var cols := if star then Str("*") else columns;
        var where1 := if star then join else where;
        match StrCast(columnFn)
        case None => Err(Unconvertible)
        case Some(fn) =>
          var (q, cols2, m2) :- ColumnPush(prefix, cols, true, false, m1);
          Ok(([Lit(fn + "(")] + q + [Lit(")")], cols2, where1, m2))
  }

  /** The FROM part: the table clause, followed by the joins when the second argument is a join specification. */
  function FromPart(prefix: string, table: string, join: Value, s: St): Result<(Sql, St)> {
    var (tq, target) :- TableClause(prefix, table);
    if IsJoin(join) then
      var (j, s1) :- BuildJoin(prefix, target, join.entries, s);
      Ok((tq + [Lit(" ")] + j, s1))
    else Ok((tq, s))
  }

  /**
   * selectContext(): `SELECT projection FROM table [joins] clauses`, the
   * caller's columns as they stand afterwards, and the new state.
   */
  function SelectContext(prefix: string, table: string, join: Value, columns: Value, where: Value, columnFn: Value, s: St): Result<(Sql, Value, St)> {
    var (from, s1) :- FromPart(prefix, table, join, s);
    var (cols, w) := if IsJoin(join) then (columns, where) else ResolveOverload(join, columns, where, columnFn);
    var (column, cols1, w1, m) :- Projection(prefix, cols, w, join, columnFn, IsJoin(join), s1.params);
    var (clauses, s2) :- WhereClause(prefix, w1, s1.(params := m));
    Ok(([Lit("SELECT ")] + column + [Lit(" FROM ")] + from + clauses, cols1, s2))
  }

  // ---------------------------------------------------------------------
  // Placeholder soundness

  /** Text whose only placeholders are bound parameters can go in front of a sound statement. */
  lemma SoundParamsFront(a: Sql, b: Sql, s0: St, s1: St)
    requires ParamsIn(Holes(a), Names(s1.params)) && Sound(b, s0, s1)
    ensures Sound(a + b, s0, s1)
  {
    HolesConcat(a, b);
    SoundHolesFront(Holes(a), Holes(b), s0, s1);
  }

  lemma SoundHolesFront(ha: seq<Piece>, hb: seq<Piece>, s0: St, s1: St)
    requires ParamsIn(ha, Names(s1.params)) && SoundHoles(hb, s0, s1)
    ensures SoundHoles(ha + hb, s0, s1)
  {
    var h := ha + hb;
    assert forall i :: 0 <= i < |ha| ==> h[i] == ha[i] && !h[i].Ph?;
    assert forall i :: |ha| <= i < |h| ==> h[i] == hb[i - |ha|];
    forall i | 0 <= i < |h| ensures HoleName(h[i]) in Names(s1.params) {
      if i >= |ha| { assert h[i] == hb[i - |ha|]; }
    }
  }

  lemma OnPairSound(prefix: string, table: Sql, target: Option<string>, k: Key, v: Value, s0: St)
    requires Holes(table) == [] && WfValue(v) && OnPair(prefix, table, target, k, v, s0).Ok?
    ensures var (q, s1) := OnPair(prefix, table, target, k, v, s0).value; Sound(q, s0, s1)
  {
    if k == StrKey("AND") && v.Arr? {
      ImplodeSound(prefix, v.entries, " AND", s0);
    } else {
      OnPairNoHoles(prefix, table, target, k, v, s0);
      var q := OnPair(prefix, table, target, k, v, s0).value.0;
      SoundNoHoles(q, s0, s0);
    }
  }

  /** An `ON` equation other than a nested `AND` group binds nothing and leaves the state alone. */
  lemma OnPairNoHoles(prefix: string, table: Sql, target: Option<string>, k: Key, v: Value, s0: St)
    requires Holes(table) == [] && !(k == StrKey("AND") && v.Arr?) && OnPair(prefix, table, target, k, v, s0).Ok?
    ensures Holes(OnPair(prefix, table, target, k, v, s0).value.0) == []
    ensures OnPair(prefix, table, target, k, v, s0).value.1 == s0
  {
    var key := KeyStr(k);
    var c := ColumnQuote(prefix, key).value;
    var left := if 0 < FirstDot(key) < |key| then c else table + [Lit(".")] + c;
    HolesConcat(table, [Lit(".")]);
    HolesConcat(table + [Lit(".")], c);
    EquationNoHoles(left, TableQuote(prefix, target.value).value, ColumnQuoteArg(prefix, v).value);
  }

  lemma EquationNoHoles(left: Sql, tq: Sql, right: Sql)
    requires Holes(left) == [] && Holes(tq) == [] && Holes(right) == []
    ensures Holes(left + [Lit(" = ")] + tq + [Lit(".")] + right) == []
  {
    HolesConcat(left, [Lit(" = ")]);
    HolesConcat(left + [Lit(" = ")], tq);
    HolesConcat(left + [Lit(" = ")] + tq, [Lit(".")]);
    HolesConcat(left + [Lit(" = ")] + tq + [Lit(".")], right);
  }

  lemma {:induction false} OnPairsSound(prefix: string, table: Sql, target: Option<string>, es: PArray, s0: St)
    requires Holes(table) == [] && WfEntries(es) && OnPairs(prefix, table, target, es, s0).Ok?
    ensures var (qs, s1) := OnPairs(prefix, table, target, es, s0).value; Sound(Flatten(qs), s0, s1)
  {
    if es == [] {
      SoundNoHoles([], s0, s0);
    } else {
      assert WfEntry(es[0]);
      OnPairSound(prefix, table, target, es[0].0, es[0].1, s0);
      var (q, s1) := OnPair(prefix, table, target, es[0].0, es[0].1, s0).value;
      assert WfEntries(es[1..]) by {
        forall i | 0 <= i < |es[1..]| ensures WfEntry(es[1..][i]) {
          assert es[1..][i] == es[i + 1];
        }
      }
      OnPairsSound(prefix, table, target, es[1..], s1);
      var (rest, s2) := OnPairs(prefix, table, target, es[1..], s1).value;
      SoundConcat(q, Flatten(rest), s0, s1, s2);
      assert ([q] + rest)[1..] == rest;
    }
  }

  lemma JoinRelationSound(prefix: string, table: Sql, target: Option<string>, rel: Value, s0: St)
    requires Holes(table) == [] && WfValue(rel) && JoinRelation(prefix, table, target, rel, s0).Ok?
    ensures var (q, s1) := JoinRelation(prefix, table, target, rel, s0).value; Sound(q, s0, s1)
  {
    var (q, s1) := JoinRelation(prefix, table, target, rel, s0).value;
    match rel
    case Arr(es) =>
      if !IsSet(es, IntKey(0)) {
        OnPairsSound(prefix, table, target, es, s0);
        var (conds, _) := OnPairs(prefix, table, target, es, s0).value;
        SoundJoin(conds, " AND ", s0, s1);
        SoundWrap([Lit("ON ")], Join(conds, " AND "), [], s0, s1);
        assert [Lit("ON ")] + Join(conds, " AND ") + [] == q;
      }
    case Raw(f) =>
      BuildRawHoles(prefix, rel, s0.params);
      SoundParams(q, s0, s1);
    case _ =>
  }

  lemma {:induction false} JoinEntriesSound(prefix: string, table: Sql, es: PArray, s0: St)
    requires Holes(table) == [] && WfEntries(es) && JoinEntries(prefix, table, es, s0).Ok?
    ensures var (qs, s1) := JoinEntries(prefix, table, es, s0).value; Sound(Flatten(qs), s0, s1)
  {
    if es == [] {
      SoundNoHoles([], s0, s0);
    } else {
      var (k, rel) := es[0];
      assert WfEntry(es[0]);
      assert WfEntries(es[1..]) by {
        forall i | 0 <= i < |es[1..]| ensures WfEntry(es[1..][i]) {
          assert es[1..][i] == es[i + 1];
        }
      }
      match ParseJoinKey(KeyStr(k))
      case Unmarked =>
        JoinEntriesSound(prefix, table, es[1..], s0);
      case Marked(d, t, alias) =>
        var target := Some(if alias.Some? then alias.value else t);
        JoinRelationSound(prefix, table, target, rel, s0);
        var (relation, s1) := JoinRelation(prefix, table, target, rel, s0).value;
        var name := JoinedTable(prefix, t, alias).value;
        JoinedTableHoles(prefix, t, alias);
        JoinEntriesSound(prefix, table, es[1..], s1);
        var (rest, s2) := JoinEntries(prefix, table, es[1..], s1).value;
        var head := [Lit(JoinWord(d) + " JOIN ")] + name + [Lit(" ")];
        HolesConcat([Lit(JoinWord(d) + " JOIN ")], name);
        HolesConcat([Lit(JoinWord(d) + " JOIN ")] + name, [Lit(" ")]);
        SoundWrap(head, relation, [], s0, s1);
        assert head + relation + [] == head + relation;
        SoundConcat(head + relation, Flatten(rest), s0, s1, s2);
        assert ([head + relation] + rest)[1..] == rest;
    }
  }

  lemma JoinedTableHoles(prefix: string, t: string, alias: Option<string>)
    requires JoinedTable(prefix, t, alias).Ok?
    ensures Holes(JoinedTable(prefix, t, alias).value) == []
  {
    if alias.Some? {
      var name := TableQuote(prefix, t).value;
      HolesConcat(name, [Lit(" AS ")]);
      HolesConcat(name + [Lit(" AS ")], TableQuote(prefix, alias.value).value);
    }
  }

  /** The joins bind every placeholder they use, each drawn once. */
  lemma BuildJoinSound(prefix: string, table: Sql, join: PArray, s0: St)
    requires Holes(table) == [] && WfEntries(join) && BuildJoin(prefix, table, join, s0).Ok?
    ensures var (q, s1) := BuildJoin(prefix, table, join, s0).value; Sound(q, s0, s1)
  {
    JoinEntriesSound(prefix, table, join, s0);
    var (items, s1) := JoinEntries(prefix, table, join, s0).value;
    SoundJoin(items, " ", s0, s1);
  }

  lemma TableClauseHoles(prefix: string, table: string)
    requires TableClause(prefix, table).Ok?
    ensures Holes(TableClause(prefix, table).value.0) == [] && Holes(TableClause(prefix, table).value.1) == []
  {
    match TableAliasFrom(table, 0)
    case Some((t, a)) =>
      var tq := TableQuote(prefix, t).value;
      HolesConcat(tq, [Lit(" AS ")]);
      HolesConcat(tq + [Lit(" AS ")], TableQuote(prefix, a).value);
    case None =>
  }

  lemma FromPartSound(prefix: string, table: string, join: Value, s0: St)
    requires WfValue(join) && FromPart(prefix, table, join, s0).Ok?
    ensures var (q, s1) := FromPart(prefix, table, join, s0).value; Sound(q, s0, s1)
  {
    TableClauseHoles(prefix, table);
    var (tq, target) := TableClause(prefix, table).value;
    if IsJoin(join) {
      BuildJoinSound(prefix, target, join.entries, s0);
      var (j, s1) := BuildJoin(prefix, target, join.entries, s0).value;
      HolesConcat(tq, [Lit(" ")]);
      SoundWrap(tq + [Lit(" ")], j, [], s0, s1);
      assert tq + [Lit(" ")] + j + [] == tq + [Lit(" ")] + j;
    } else {
      SoundNoHoles(tq, s0, s0);
    }
  }

  /** The projection only refers to parameters bound in the map it returns. */
  lemma ProjectionParams(prefix: string, columns: Value, where: Value, join: Value, columnFn: Value, isJoin: bool, m: ParamMap)
    requires WfValue(columns) && WfValue(columnFn)
    requires Projection(prefix, columns, where, join, columnFn, isJoin, m).Ok?
    ensures var (q, _, _, m1) := Projection(prefix, columns, where, join, columnFn, isJoin, m).value;
      ParamsIn(Holes(q), Names(m1)) && Names(m) <= Names(m1)
    ensures var w1 := Projection(prefix, columns, where, join, columnFn, isJoin, m).value.2;
      w1 == where || w1 == columns || w1 == join
  {
    if columnFn == Null {
      ColumnPushParams(prefix, columns, true, isJoin, m);
    } else if columnFn != Int(1) {
      var raw := BuildRaw(prefix, columnFn, m).value;
      if raw.Some? && TruthySql(raw.value.0) {
        BuildRawHoles(prefix, columnFn, m);
      } else {
        var star := Empty(columns) || columns.Raw?;
        var cols := if star then Str("*") else columns;
        ColumnPushParams(prefix, cols, true, false, m);
        var fn := StrCast(columnFn).value;
        var (q, _, m2) := ColumnPush(prefix, cols, true, false, m).value;
        ParamsInConcat([Lit(fn + "(")], q, Names(m2));
        ParamsInConcat([Lit(fn + "(")] + q, [Lit(")")], Names(m2));
      }
    }
  }

  /**
   * Every placeholder of a compiled SELECT is bound in the final map, every
   * generated one was drawn while compiling it, and none is used twice.
   */
  lemma SelectContextSound(prefix: string, table: string, join: Value, columns: Value, where: Value, columnFn: Value, s0: St)
    requires WfValue(join) && WfValue(columns) && WfValue(where) && WfValue(columnFn)
    requires SelectContext(prefix, table, join, columns, where, columnFn, s0).Ok?
    ensures var (q, _, s2) := SelectContext(prefix, table, join, columns, where, columnFn, s0).value; Sound(q, s0, s2)
  {
    FromPartSound(prefix, table, join, s0);
    var (from, s1) := FromPart(prefix, table, join, s0).value;
    var (cols, w) := if IsJoin(join) then (columns, where) else ResolveOverload(join, columns, where, columnFn);
    ProjectionParams(prefix, cols, w, join, columnFn, IsJoin(join), s1.params);
    var (column, cols1, w1, m) := Projection(prefix, cols, w, join, columnFn, IsJoin(join), s1.params).value;
    assert WfValue(cols) && WfValue(w);
    WhereClauseSound(prefix, w1, s1.(params := m));
    var (clauses, s2) := WhereClause(prefix, w1, s1.(params := m)).value;
    SelectAssembly(column, from, clauses, m, s0, s1, s2);
  }

  lemma SelectAssembly(column: Sql, from: Sql, clauses: Sql, m: ParamMap, s0: St, s1: St, s2: St)
    requires Sound(from, s0, s1) && Sound(clauses, s1.(params := m), s2)
    requires ParamsIn(Holes(column), Names(m)) && Names(s1.params) <= Names(m)
    ensures Sound([Lit("SELECT ")] + column + [Lit(" FROM ")] + from + clauses, s0, s2)
  {
    var s1m := s1.(params := m);
    SoundGrow(from, s0, s1, s1m);
    SoundConcat(from, clauses, s0, s1m, s2);
    SoundLitFront(" FROM ", from + clauses, s0, s2);
    var x := [Lit(" FROM ")] + (from + clauses);
    ParamsInGrow(Holes(column), Names(m), Names(s2.params));
    SoundParamsFront(column, x, s0, s2);
    SoundLitFront("SELECT ", column + x, s0, s2);
    SelectPieces(column, from, clauses);
  }

  lemma SelectPieces(column: Sql, from: Sql, clauses: Sql)
    ensures [Lit("SELECT ")] + (column + ([Lit(" FROM ")] + (from + clauses))) ==
            [Lit("SELECT ")] + column + [Lit(" FROM ")] + from + clauses
  {
  }

  // ---------------------------------------------------------------------
  // What a join specification compiles to

  const Directions: seq<string> := [">", "<", "<>", "><"]

  /** The marker of `[d]…` is `d`. */
  lemma MarkerOf(d: string, rest: string)
    requires d in Directions && |rest| > 0 && IsNameStart(rest[0])
    ensures MarkerAt("[" + d + "]" + rest, 0) == Some(d)
  {
    var s := "[" + d + "]" + rest;
    assert s[0] == '[' && s[1] == d[0];
    if d == "<>" {
      assert s[0..4] == "[<>]";
    } else if d == "<" {
      assert s[2] == ']';
      assert s[0..3] == "[<]";
    } else if d == "><" {
      assert s[0..4] == "[><]";
    } else {
      assert s[2] == ']';
      assert s[0..3] == "[>]";
    }
  }

  /**
   * A join key `[d]table` or `[d]table(alias)` is read as a join of that
   * direction, table and alias.
   */
  lemma JoinKeyMarked(d: string, t: string, alias: Option<string>)
    requires d in Directions && IsName(t) && (alias.Some? ==> IsName(alias.value))
    ensures ParseJoinKey("[" + d + "]" + t + (if alias.Some? then "(" + alias.value + ")" else "")) == Marked(d, t, alias)
  {
    var tail := if alias.Some? then "(" + alias.value + ")" else "";
    var s := "[" + d + "]" + t + tail;
    assert s == "[" + d + "]" + (t + tail);
    MarkerOf(d, t + tail);
    var p := |d| + 2;
    var e := p + |t|;
    assert s[p..e] == t;
    assert forall k :: p + 1 <= k < e ==> s[k] == t[k - p];
    assert s[e..] == tail;
    NameRunEndAt(s, p + 1, e);
    assert IsNameStart(s[p]);
    var al := JoinAliasAt(s, e);
    AliasTail(s, e, alias);
    assert ParseJoinKeyFrom(s, 0) == Marked(d, s[p..e], al);
  }

  lemma AliasTail(s: string, e: nat, alias: Option<string>)
    requires e <= |s| && (alias.Some? ==> IsName(alias.value))
    requires s[e..] == if alias.Some? then "(" + alias.value + ")" else ""
    ensures JoinAliasAt(s, e) == alias
  {
    if alias.Some? {
      var a := alias.value;
      assert s[e] == '(' && s[e + 1] == a[0];
      assert forall k :: e + 2 <= k < e + 1 + |a| ==> s[k] == a[k - e - 1];
      assert s[e + 1 + |a|] == ')';
      NameRunEndAt(s, e + 2, e + 1 + |a|);
      assert s[e + 1..e + 1 + |a|] == a;
    }
  }

  /** `['[d]t' => 'c']` compiles to `<TYPE> JOIN "prefix t" USING ("c")`. */
  lemma UsingJoin(prefix: string, table: Sql, d: string, t: string, c: string, s: St)
    requires d in Directions && IsName(t)
    ensures BuildJoin(prefix, table, [(StrKey("[" + d + "]" + t), Str(c))], s) ==
      Ok(([Lit(JoinWord(d) + " JOIN "), Ident(prefix + t), Lit(" "), Lit("USING (\"" + c + "\")")], s))
  {
    var k := "[" + d + "]" + t;
    JoinKeyMarked(d, t, None);
    assert k + "" == k;
    assert ParseJoinKey(KeyStr(StrKey(k))) == Marked(d, t, None);
    var using := [Lit("USING (\"" + c + "\")")];
    assert JoinRelation(prefix, table, Some(t), Str(c), s) == Ok((using, s));
    assert JoinedTable(prefix, t, None) == Ok([Ident(prefix + t)]);
    SingleJoin(prefix, table, StrKey(k), Str(c), s, d, t, using, s, [Ident(prefix + t)]);
    Flat4(Lit(JoinWord(d) + " JOIN "), Ident(prefix + t), Lit(" "), using[0]);
  }

  lemma Flat4(a: Piece, b: Piece, c: Piece, d: Piece)
    ensures [a] + [b] + [c] + [d] == [a, b, c, d]
  {
  }

  /** A join list of one marked entry is that entry's clause alone. */
  lemma SingleJoin(prefix: string, table: Sql, k: Key, rel: Value, s: St, d: string, t: string, relation: Sql, s1: St, name: Sql)
    requires ParseJoinKey(KeyStr(k)) == Marked(d, t, None)
    requires JoinRelation(prefix, table, Some(t), rel, s) == Ok((relation, s1))
    requires JoinedTable(prefix, t, None) == Ok(name)
    ensures BuildJoin(prefix, table, [(k, rel)], s) == Ok(([Lit(JoinWord(d) + " JOIN ")] + name + [Lit(" ")] + relation, s1))
  {
    var es := [(k, rel)];
    assert es[1..] == [];
    var q := [Lit(JoinWord(d) + " JOIN ")] + name + [Lit(" ")] + relation;
    assert JoinEntries(prefix, table, es, s) == Ok(([q] + [], s1));
    assert [q] + [] == [q];
    assert Join([q], " ") == q;
  }

  /**
   * An ON pair `a => b` of plain column names compiles to
   * `table."a" = "prefix target"."b"`, binding nothing.
   */
  lemma OnPairShape(prefix: string, table: Sql, target: string, a: string, b: string, s: St)
    requires IsName(a) && IsName(b) && IsName(target) && a != "AND"
    ensures OnPair(prefix, table, Some(target), StrKey(a), Str(b), s) ==
      Ok((table + [Lit("."), Ident(a), Lit(" = "), Ident(prefix + target), Lit("."), Ident(b)], s))
  {
    BareColumnQuote(prefix, a);
    BareColumnQuote(prefix, b);
    assert FirstDot(a) == |a|;
    assert TableQuote(prefix, target) == Ok([Ident(prefix + target)]);
    assert ColumnQuoteArg(prefix, Str(b)) == Ok([Ident(b)]);
    OnPairParts(prefix, table, target, StrKey(a), Str(b), s, [Ident(a)], [Ident(prefix + target)], [Ident(b)]);
    EquationFlat(table, Ident(a), Ident(prefix + target), Ident(b));
  }

  lemma OnPairParts(prefix: string, table: Sql, target: string, k: Key, v: Value, s: St, c: Sql, tq: Sql, right: Sql)
    requires !(k == StrKey("AND") && v.Arr?) && ColumnQuote(prefix, KeyStr(k)) == Ok(c)
    requires !(0 < FirstDot(KeyStr(k)) < |KeyStr(k)|)
    requires TableQuote(prefix, target) == Ok(tq) && ColumnQuoteArg(prefix, v) == Ok(right)
    ensures OnPair(prefix, table, Some(target), k, v, s) == Ok((table + [Lit(".")] + c + [Lit(" = ")] + tq + [Lit(".")] + right, s))
  {
  }

  lemma EquationFlat(table: Sql, a: Piece, t: Piece, b: Piece)
    ensures table + [Lit(".")] + [a] + [Lit(" = ")] + [t] + [Lit(".")] + [b] == table + [Lit("."), a, Lit(" = "), t, Lit("."), b]
  {
  }

  /** Joins refer to the table's alias when the table has one. */
  lemma JoinTarget(prefix: string, t: string, a: string)
    requires IsName(t) && IsName(a)
    ensures TableClause(prefix, t + "(" + a + ")") == Ok(([Ident(prefix + t), Lit(" AS "), Ident(prefix + a)], [Ident(prefix + a)]))
  {
    TableAliasOf(t, a);
    assert TableQuote(prefix, t) == Ok([Ident(prefix + t)]);
    assert TableQuote(prefix, a) == Ok([Ident(prefix + a)]);
    assert [Ident(prefix + t)] + [Lit(" AS ")] + [Ident(prefix + a)] == [Ident(prefix + t), Lit(" AS "), Ident(prefix + a)];
  }

  lemma TableAliasOf(t: string, a: string)
    requires IsName(t) && IsName(a)
    ensures TableAliasFrom(t + "(" + a + ")", 0) == Some((t, a))
  {
    var s := t + "(" + a + ")";
    assert forall k :: 1 <= k < |t| ==> s[k] == t[k];
    NameRunEndAt(s, 1, |t|);
    assert s[0] == t[0];
    assert SpaceRunEnd(s, |t|) == |t|;
    assert forall k :: |t| + 2 <= k < |t| + 1 + |a| ==> s[k] == a[k - |t| - 1];
    NameRunEndAt(s, |t| + 2, |t| + 1 + |a|);
    assert s[|t| + 1..|t| + 1 + |a|] == a;
    assert s[0..|t|] == t;
  }

  // ---------------------------------------------------------------------
  // What the overloaded argument lists compile to

  /** A plain table name has no `table(alias)` part. */
  lemma {:induction false} PlainTableName(t: string, p: nat)
    requires IsName(t) && p <= |t|
    ensures TableAliasFrom(t, p) == None
    decreases |t| - p
  {
    if p < |t| {
      if IsNameStart(t[p]) {
        NameRunEndAt(t, p + 1, |t|);
        assert SpaceRunEnd(t, |t|) == |t|;
      }
      PlainTableName(t, p + 1);
    }
  }

  /** A plain column name is read as itself, with no alias and no type. */
  lemma PlainColumnToken(c: string)
    requires IsName(c)
    ensures ParseColumnToken(c) == Some(ColumnToken(c, None, None))
  {
    assert IsColumnRun(c);
    ColumnRunEndOf(c, []);
    assert c + [] == c;
    assert c[0..|c|] == c;
  }

  /** A lone plain column is projected as `"c"` and handed back as the list `['c']`. */
  lemma PlainColumnPush(prefix: string, c: string, isJoin: bool, m: ParamMap)
    requires IsName(c)
    ensures ColumnPush(prefix, Str(c), true, isJoin, m) == Ok(([Ident(c)], Arr([(IntKey(0), Str(c))]), m))
  {
    PlainColumnToken(c);
    BareColumnQuote(prefix, c);
    assert c[0] != '*';
    assert '*' !in c;
    var es := [(IntKey(0), Str(c))];
    assert StringColumn(prefix, c, isJoin) == Ok(([Ident(c)], ColumnToken(c, None, None)));
    assert !Columns.Marked(c);
    var p := Push([[Ident(c)]], false, es, m);
    assert [] + [[Ident(c)]] == [[Ident(c)]];
    assert PushEntry(prefix, es[0], true, isJoin, true, Push([], false, es, m)) == Ok(p);
    assert es[1..] == [];
    assert PushEntries(prefix, es, true, isJoin, true, Push([], false, es, m)) == Ok(p);
    assert Join([[Ident(c)]], ",") == [Ident(c)];
  }

  /**
   * `select(table, 'c', cond)`: with no join, the second argument is the
   * column and the third the condition; the statement is
   * `SELECT "c" FROM "prefix table"` followed by the condition's clauses.
   */
  lemma SelectColumnWhere(prefix: string, t: string, c: string, cond: Value, s: St)
    requires IsName(t) && IsName(c)
    ensures var r := SelectContext(prefix, t, Str(c), cond, Null, Null, s);
      var w := WhereClause(prefix, cond, s);
      && (r.Ok? <==> w.Ok?)
      && (w.Ok? ==> r.value == ([Lit("SELECT ")] + [Ident(c)] + [Lit(" FROM ")] + [Ident(prefix + t)] + w.value.0, Arr([(IntKey(0), Str(c))]), w.value.1))
  {
    assert ResolveOverload(Str(c), cond, Null, Null) == (Str(c), cond);
    PlainColumnPush(prefix, c, false, s.params);
    PlainSelect(prefix, t, Str(c), cond, Null, Null, s, [Ident(c)], Arr([(IntKey(0), Str(c))]), cond);
  }

  /**
   * `count(table, cond)` and the other aggregates given only a condition
   * array: the array becomes the condition and the function is applied
   * to `*`.
   */
  lemma AggregateWhere(prefix: string, t: string, fn: string, cond: Value, s: St)
    requires IsName(t) && cond.Arr? && !IsJoin(cond)
    ensures var r := SelectContext(prefix, t, cond, Null, Null, Str(fn), s);
      var w := WhereClause(prefix, cond, s);
      && (r.Ok? <==> w.Ok?)
      && (w.Ok? ==> r.value == ([Lit("SELECT ")] + [Lit(fn + "("), Lit("*"), Lit(")")] + [Lit(" FROM ")] + [Ident(prefix + t)] + w.value.0, Str("*"), w.value.1))
  {
    assert ResolveOverload(cond, Null, Null, Str(fn)) == (Null, cond);
    AggregateProjection(prefix, fn, cond, s.params);
    PlainSelect(prefix, t, cond, Null, Null, Str(fn), s, [Lit(fn + "("), Lit("*"), Lit(")")], Str("*"), cond);
  }

  lemma AggregateProjection(prefix: string, fn: string, cond: Value, m: ParamMap)
    ensures Projection(prefix, Null, cond, cond, Str(fn), false, m) == Ok(([Lit(fn + "("), Lit("*"), Lit(")")], Str("*"), cond, m))
  {
    assert BuildRaw(prefix, Str(fn), m) == Ok(None);
    assert ColumnPush(prefix, Str("*"), true, false, m) == Ok(([Lit("*")], Str("*"), m));
    assert [Lit(fn + "(")] + [Lit("*")] + [Lit(")")] == [Lit(fn + "("), Lit("*"), Lit(")")];
  }

  /** `has(table, cond)`'s inner query: the constant `1` over the condition. */
  lemma ExistsWhere(prefix: string, t: string, cond: Value, s: St)
    requires IsName(t) && !IsJoin(cond)
    ensures var r := SelectContext(prefix, t, cond, Null, Null, Int(1), s);
      var w := WhereClause(prefix, cond, s);
      && (r.Ok? <==> w.Ok?)
      && (w.Ok? ==> r.value == ([Lit("SELECT ")] + [Lit("1")] + [Lit(" FROM ")] + [Ident(prefix + t)] + w.value.0, if cond.Arr? then Null else cond, w.value.1))
  {
    var (cols, w0) := ResolveOverload(cond, Null, Null, Int(1));
    assert Projection(prefix, cols, w0, cond, Int(1), false, s.params) == Ok(([Lit("1")], if cond.Arr? then Null else cond, cond, s.params));
    PlainSelect(prefix, t, cond, Null, Null, Int(1), s, [Lit("1")], if cond.Arr? then Null else cond, cond);
  }

  /**
   * selectContext() on a plain table without joins, once the projection is
   * known: the projection, the table, then the clauses of the condition.
   */
  lemma PlainSelect(prefix: string, t: string, join: Value, columns: Value, where: Value, columnFn: Value, s: St,
                    column: Sql, cols1: Value, w1: Value)
    requires IsName(t) && !IsJoin(join)
    requires var (cols, w) := ResolveOverload(join, columns, where, columnFn);
      Projection(prefix, cols, w, join, columnFn, false, s.params) == Ok((column, cols1, w1, s.params))
    ensures var r := SelectContext(prefix, t, join, columns, where, columnFn, s);
      var w := WhereClause(prefix, w1, s);
      && (r.Ok? <==> w.Ok?)
      && (w.Ok? ==> r.value == ([Lit("SELECT ")] + column + [Lit(" FROM ")] + [Ident(prefix + t)] + w.value.0, cols1, w.value.1))
  {
    assert FromPart(prefix, t, join, s) == Ok(([Ident(prefix + t)], s)) by {
      PlainTableName(t, 0);
      assert TableQuote(prefix, t) == Ok([Ident(prefix + t)]);
    }
    assert s.(params := s.params) == s;
  }
}
