/**
 * whereClause(): the tail of a SELECT/UPDATE/DELETE statement. A condition
 * array gives, in this order, the WHERE conditions (every entry but the
 * reserved GROUP, ORDER, HAVING, LIMIT, LIKE and MATCH keys), a full-text
 * MATCH … AGAINST, GROUP BY, HAVING, ORDER BY (with FIELD lists) and LIMIT;
 * a raw fragment is appended as it is.
 */
module Clauses {
  import opened Php
  import opened Sql
  import opened Quoting
  import opened Conditions

  /** The keys whereClause() handles itself instead of passing them to dataImplode(). */
  const Reserved: seq<string> := ["GROUP", "ORDER", "HAVING", "LIMIT", "LIKE", "MATCH"]

  predicate IsReserved(k: Key) {
    k.StrKey? && k.s in Reserved
  }

  /** `array_diff_key($where, array_flip(Reserved))`: the entries left to dataImplode(). */
  function ConditionEntries(es: PArray): (r: PArray)
    ensures |r| <= |es|
    ensures forall e :: e in r <==> e in es && !IsReserved(e.0)
  {
    if es == [] then []
    else (if IsReserved(es[0].0) then [] else [es[0]]) + ConditionEntries(es[1..])
  }

  /** array_diff_key() keeps the order of its first argument: filtering splits over concatenation. */
  lemma {:induction false} ConditionEntriesAppend(a: PArray, b: PArray)
    ensures ConditionEntries(a + b) == ConditionEntries(a) + ConditionEntries(b)
    decreases a
  {
    if a == [] {
      assert a + b == b;
    } else {
      assert (a + b)[0] == a[0];
      assert (a + b)[1..] == a[1..] + b;
      ConditionEntriesAppend(a[1..], b);
    }
  }

  /**
   * A kept entry lands right after the entries kept before it, so the
   * conditions are AND-ed in the order they were written.
   */
  lemma ConditionEntriesAt(es: PArray, i: nat)
    requires i < |es| && !IsReserved(es[i].0)
    ensures ConditionEntries(es[..i + 1]) == ConditionEntries(es[..i]) + [es[i]]
    ensures |ConditionEntries(es[..i])| < |ConditionEntries(es)|
    ensures ConditionEntries(es)[|ConditionEntries(es[..i])|] == es[i]
  {
    var pre, one, post := es[..i], [es[i]], es[i + 1..];
    assert es[..i + 1] == pre + one;
    assert es == (pre + one) + post;
    ConditionEntriesKept(es[i]);
    ConditionEntriesAppend(pre, one);
    ConditionEntriesAppend(pre + one, post);
    var r0 := ConditionEntries(pre) + [es[i]];
    assert ConditionEntries(es) == r0 + ConditionEntries(post);
    assert r0[|ConditionEntries(pre)|] == es[i];
  }

  /** A single unreserved entry is kept. */
  lemma ConditionEntriesKept(e: (Key, Value))
    requires !IsReserved(e.0)
    ensures ConditionEntries([e]) == [e]
  {
    assert [e][1..] == [];
  }


  /** `$raw = buildRaw($v, $map)` used as a test: the SQL when it is a raw fragment with truthy text, and the map. */
  function TruthyRaw(prefix: string, v: Value, m: ParamMap): (r: Result<(Option<Sql>, ParamMap)>)
    ensures r.Ok? && r.value.0.Some? ==> v.Raw? && TruthySql(r.value.0.value)
    ensures !v.Raw? ==> r == Ok((None, m))
  {
    var raw :- BuildRaw(prefix, v, m);
    match raw
    case None => Ok((None, m))
    case Some((q, m1)) => Ok((if TruthySql(q) then Some(q) else None, m1))
  }

  /** `array_map([$this, 'columnQuote'], $columns)`: every value quoted as a column. */
  function QuoteColumns(prefix: string, es: PArray): (r: Result<seq<Sql>>)
    ensures r.Ok? <==> forall i :: 0 <= i < |es| ==> ColumnQuoteArg(prefix, es[i].1).Ok?
    ensures r.Ok? ==> |r.value| == |es|
    ensures r.Ok? ==> forall i :: 0 <= i < |es| ==> r.value[i] == ColumnQuoteArg(prefix, es[i].1).value
  {
    if es == [] then Ok([])
    else
      var head := ColumnQuoteArg(prefix, es[0].1);
      var tail := QuoteColumns(prefix, es[1..]);
      assert forall i :: 1 <= i < |es| ==> es[i] == es[1..][i - 1];
      if head.Err? then Err(head.error)
      else if tail.Err? then Err(tail.error)
      else Ok([head.value] + tail.value)
  }

  // ---------------------------------------------------------------------
  // The parts, in the order whereClause() appends them

  /** ` WHERE <conditions joined by AND>`, or nothing when no condition is left. */
  function WherePart(prefix: string, es: PArray, s: St): Result<(Sql, St)> {
    var conditions := ConditionEntries(es);
    if conditions == [] then Ok(([], s))
    else
      var (q, s1) :- Implode(prefix, conditions, " AND", s);
      Ok(([Lit(" WHERE ")] + q, s1))
  }

  /** The full-text search modes MATCH accepts, and the SQL each adds. */
  function ModeText(mode: string): Option<string> {
    if mode == "natural" then Some("IN NATURAL LANGUAGE MODE")
    else if mode == "natural+query" then Some("IN NATURAL LANGUAGE MODE WITH QUERY EXPANSION")
    else if mode == "boolean" then Some("IN BOOLEAN MODE")
    else if mode == "query" then Some("WITH QUERY EXPANSION")
    else None
  }

  /** `isset($match['mode'], $options[$match['mode']])`: the mode suffix, empty for an unknown mode. */
  function ModeSuffix(mode: Value): Result<string> {
    match mode
    case Str(t) => Ok(if ModeText(t).Some? then " " + ModeText(t).value else "")
    case Arr(_) => Err(TypeError("Illegal offset type in isset or empty"))
    case Raw(_) => Err(TypeError("Illegal offset type in isset or empty"))
    case Obj(_) => Err(TypeError("Illegal offset type in isset or empty"))
    case _ => Ok("")
  }

  /**
   * ` WHERE MATCH (cols) AGAINST (:p mode)`, or ` AND  MATCH …` after other
   * conditions; the keyword is bound as a string under a fresh placeholder.
   */
  function MatchPart(prefix: string, es: PArray, afterWhere: bool, s: St): Result<(Sql, St)> {
    var m := Get(es, StrKey("MATCH"));
    if !(IsSet(es, StrKey("MATCH")) && m.Arr? && IsSet(m.entries, StrKey("columns")) && IsSet(m.entries, StrKey("keyword"))) then
      Ok(([], s))
    else
      var mode :- ModeSuffix(Get(m.entries, StrKey("mode")));
      var columns := Get(m.entries, StrKey("columns"));
      if !columns.Arr? then Err(TypeError("array_map(): Argument #2 must be of type array"))
      else
        var quoted :- QuoteColumns(prefix, columns.entries);
        var n := s.guid;
        var s1 := Bind(Draw(s), PhName(n, ""), Binding(Plain(Get(m.entries, StrKey("keyword"))), ParamStr));
        Ok(([Lit(if afterWhere then " AND " else " WHERE"), Lit(" MATCH (")] + Join(quoted, ", ") +
            [Lit(") AGAINST ("), Ph(n, ""), Lit(mode + ")")], s1))
  }

  /** ` GROUP BY` a list of columns, a raw fragment or one column. */
  function GroupPart(prefix: string, es: PArray, s: St): Result<(Sql, St)> {
    if !IsSet(es, StrKey("GROUP")) then Ok(([], s))
    else
      var group := Get(es, StrKey("GROUP"));
      if group.Arr? then
        var quoted :- QuoteColumns(prefix, group.entries);
        Ok(([Lit(" GROUP BY ")] + Join(quoted, ","), s))
      else
        var (raw, m) :- TruthyRaw(prefix, group, s.params);
        if raw.Some? then Ok(([Lit(" GROUP BY ")] + raw.value, s.(params := m)))
        else
          var column :- ColumnQuoteArg(prefix, group);
          Ok(([Lit(" GROUP BY ")] + column, s.(params := m)))
  }

  /** ` HAVING` a raw fragment or a condition array. */
  function HavingPart(prefix: string, es: PArray, s: St): Result<(Sql, St)> {
    if !IsSet(es, StrKey("HAVING")) then Ok(([], s))
    else
      var having := Get(es, StrKey("HAVING"));
      var (raw, m) :- TruthyRaw(prefix, having, s.params);
      if raw.Some? then Ok(([Lit(" HAVING ")] + raw.value, s.(params := m)))
      else if !having.Arr? then Err(TypeError("dataImplode(): Argument #1 must be of type array"))
      else
        var (q, s1) :- Implode(prefix, having.entries, " AND", s.(params := m));
        Ok(([Lit(" HAVING ")] + q, s1))
  }

  /** The values of a FIELD() list: integers as they are, anything else quoted. */
  function FieldValues(es: PArray): (r: Result<seq<string>>)
    ensures r.Ok? ==> |r.value| == |es|
  {
    if es == [] then Ok([])
    else
      var head :- if es[0].1.Int? then Ok(IntStr(es[0].1.i)) else QuoteArg(es[0].1);
      var tail :- FieldValues(es[1..]);
      Ok([head] + tail)
  }

  /** One ORDER entry: `FIELD(col, v, …)`, `col ASC`/`col DESC`, a listed column, or nothing. */
  function OrderItem(prefix: string, e: (Key, Value)): Result<Option<Sql>> {
    var (column, value) := e;
    if value.Arr? then
      var values :- FieldValues(value.entries);
      var col :- ColumnQuote(prefix, KeyStr(column));
      Ok(Some([Lit("FIELD(")] + col + [Lit(", " + ImplodeStr(values, ",") + ")")]))
    else if value == Str("ASC") || value == Str("DESC") then
      var col :- ColumnQuote(prefix, KeyStr(column));
      Ok(Some(col + [Lit(" " + value.s)]))
    else if column.IntKey? then
      var col :- ColumnQuoteArg(prefix, value);
      Ok(Some(col))
    else Ok(None)
  }

  function OrderItems(prefix: string, es: PArray): (r: Result<seq<Sql>>)
    ensures r.Ok? ==> |r.value| <= |es|
  {
    if es == [] then Ok([])
    else
      var head :- OrderItem(prefix, es[0]);
      var tail :- OrderItems(prefix, es[1..]);
      Ok((if head.Some? then [head.value] else []) + tail)
  }

  /** ` ORDER BY` a list of order entries, a raw fragment or one column. */
  function OrderPart(prefix: string, es: PArray, s: St): Result<(Sql, St)> {
    if !IsSet(es, StrKey("ORDER")) then Ok(([], s))
    else
      var order := Get(es, StrKey("ORDER"));
      if order.Arr? then
        var items :- OrderItems(prefix, order.entries);
        Ok(([Lit(" ORDER BY ")] + Join(items, ","), s))
      else
        var (raw, m) :- TruthyRaw(prefix, order, s.params);
        if raw.Some? then Ok(([Lit(" ORDER BY ")] + raw.value, s.(params := m)))
        else
          var column :- ColumnQuoteArg(prefix, order);
          Ok(([Lit(" ORDER BY ")] + column, s.(params := m)))
  }

  /** ` LIMIT n` for a number, ` LIMIT count OFFSET offset` for `[offset, count]` (MySQL). */
  function LimitPart(es: PArray): Sql {
    var limit := Get(es, StrKey("LIMIT"));
    if !IsSet(es, StrKey("LIMIT")) then []
    else if IsNumeric(limit) then [Lit(" LIMIT " + StrCast(limit).value)]
    else if limit.Arr? && IsNumeric(Get(limit.entries, IntKey(0))) && IsNumeric(Get(limit.entries, IntKey(1))) then
      [Lit(" LIMIT " + StrCast(Get(limit.entries, IntKey(1))).value + " OFFSET " + StrCast(Get(limit.entries, IntKey(0))).value)]
    else []
  }

  /** whereClause(): the clause text and the new state. */
  function WhereClause(prefix: string, where: Value, s: St): Result<(Sql, St)> {
    if where.Arr? then
      var es := where.entries;
      var (w, s1) :- WherePart(prefix, es, s);
      var (mt, s2) :- MatchPart(prefix, es, w != [], s1);
      var (g, s3) :- GroupPart(prefix, es, s2);
      var (h, s4) :- HavingPart(prefix, es, s3);
      var (o, s5) :- OrderPart(prefix, es, s4);
      Ok((w + mt + g + h + o + LimitPart(es), s5))
    else
      var (raw, m) :- TruthyRaw(prefix, where, s.params);
      Ok((if raw.Some? then [Lit(" ")] + raw.value else [], s.(params := m)))
  }

  // ---------------------------------------------------------------------
  // Placeholder soundness

  /** Filtering keeps a well-formed array well-formed. */
  lemma {:induction false} ConditionEntriesWf(es: PArray)
    requires WfEntries(es)
    ensures WfEntries(ConditionEntries(es))
    decreases es
  {
    if es != [] {
      assert WfEntry(es[0]);
      var rest := es[1..];
      assert WfEntries(rest) by {
        forall i | 0 <= i < |rest| ensures WfEntry(rest[i]) { assert rest[i] == es[i + 1]; }
        forall i, j | 0 <= i < j < |rest| ensures rest[i].0 != rest[j].0 { assert rest[i] == es[i + 1] && rest[j] == es[j + 1]; }
      }
      ConditionEntriesWf(rest);
      var r := ConditionEntries(es);
      var tail := ConditionEntries(rest);
      forall i, j | 0 <= i < j < |r| ensures r[i].0 != r[j].0 {
        if !IsReserved(es[0].0) && i == 0 {
          assert r[j] in tail;
          assert r[j] in rest;
          var k :| 0 <= k < |rest| && rest[k] == r[j];
          assert rest[k] == es[k + 1];
        }
      }
      forall i | 0 <= i < |r| ensures WfEntry(r[i]) {
        assert r[i] in es;
      }
    }
  }

  lemma QuoteColumnsNoHoles(prefix: string, es: PArray)
    requires QuoteColumns(prefix, es).Ok?
    ensures Holes(Flatten(QuoteColumns(prefix, es).value)) == []
    decreases es
  {
    var qs := QuoteColumns(prefix, es).value;
    if es != [] {
      QuoteColumnsNoHoles(prefix, es[1..]);
      assert qs[1..] == QuoteColumns(prefix, es[1..]).value;
      HolesConcat(qs[0], Flatten(qs[1..]));
    }
  }

  /** A truthy raw fragment only mentions parameters that the new map binds. */
  lemma TruthyRawSound(prefix: string, v: Value, s0: St, s: St)
    requires WfValue(v) && Grows(s0, s) && TruthyRaw(prefix, v, s.params).Ok?
    ensures var (raw, m) := TruthyRaw(prefix, v, s.params).value;
      Grows(s0, s.(params := m)) && (raw.Some? ==> Sound(raw.value, s0, s.(params := m)))
  {
    if v.Raw? {
      BuildRawHoles(prefix, v, s.params);
      var (raw, m) := TruthyRaw(prefix, v, s.params).value;
      if raw.Some? {
        SoundParams(raw.value, s0, s.(params := m));
      }
    }
  }

  lemma LitThen(w: string, q: Sql, s0: St, s1: St)
    requires Sound(q, s0, s1)
    ensures Sound([Lit(w)] + q, s0, s1)
  {
    HolesConcat([Lit(w)], q);
    LitNoHoles(w);
  }

  lemma WherePartSound(prefix: string, es: PArray, s0: St)
    requires WfEntries(es) && WherePart(prefix, es, s0).Ok?
    ensures var (q, s1) := WherePart(prefix, es, s0).value; Sound(q, s0, s1)
  {
    var conditions := ConditionEntries(es);
    if conditions != [] {
      ConditionEntriesWf(es);
      ImplodeSound(prefix, conditions, " AND", s0);
      var (q, s1) := Implode(prefix, conditions, " AND", s0).value;
      LitThen(" WHERE ", q, s0, s1);
    }
  }

  lemma MatchSqlHoles(w: string, quoted: seq<Sql>, n: nat, mode: string)
    requires Holes(Flatten(quoted)) == []
    ensures Holes([Lit(w), Lit(" MATCH (")] + Join(quoted, ", ") + [Lit(") AGAINST ("), Ph(n, ""), Lit(mode + ")")]) == [Ph(n, "")]
  {
    var head := [Lit(w), Lit(" MATCH (")];
    var tail := [Lit(") AGAINST ("), Ph(n, ""), Lit(mode + ")")];
    HolesJoin(quoted, ", ");
    Render3(tail[0], tail[1], tail[2]);
    assert Holes(head) == [] by {
      assert head[1..] == [head[1]];
      assert [head[1]][1..] == [];
    }
    assert Holes([tail[0]]) == [] && Holes([tail[2]]) == [] by {
      LitNoHoles(") AGAINST (");
      LitNoHoles(mode + ")");
    }
    assert Holes([tail[1]]) == [Ph(n, "")] by {
      assert [tail[1]][1..] == [];
    }
    HolesConcat(head, Join(quoted, ", "));
    HolesConcat(head + Join(quoted, ", "), tail);
  }

  lemma MatchPartSound(prefix: string, es: PArray, afterWhere: bool, s0: St)
    requires MatchPart(prefix, es, afterWhere, s0).Ok?
    ensures var (q, s1) := MatchPart(prefix, es, afterWhere, s0).value; Sound(q, s0, s1)
  {
    var m := Get(es, StrKey("MATCH"));
    if IsSet(es, StrKey("MATCH")) && m.Arr? && IsSet(m.entries, StrKey("columns")) && IsSet(m.entries, StrKey("keyword")) {
      var mode := ModeSuffix(Get(m.entries, StrKey("mode"))).value;
      var columns := Get(m.entries, StrKey("columns"));
      var quoted := QuoteColumns(prefix, columns.entries).value;
      var n := s0.guid;
      var (q, s1) := MatchPart(prefix, es, afterWhere, s0).value;
      assert q == [Lit(if afterWhere then " AND " else " WHERE"), Lit(" MATCH (")] + Join(quoted, ", ") + [Lit(") AGAINST ("), Ph(n, ""), Lit(mode + ")")];
      QuoteColumnsNoHoles(prefix, columns.entries);
      MatchSqlHoles(if afterWhere then " AND " else " WHERE", quoted, n, mode);
      assert s1 == Bind(Draw(s0), PhName(n, ""), Binding(Plain(Get(m.entries, StrKey("keyword"))), ParamStr));
      assert HoleName(Ph(n, "")) in Names(s1.params);
    }
  }

  lemma GroupPartSound(prefix: string, es: PArray, s0: St)
    requires WfEntries(es) && GroupPart(prefix, es, s0).Ok?
    ensures var (q, s1) := GroupPart(prefix, es, s0).value; Sound(q, s0, s1)
  {
    if IsSet(es, StrKey("GROUP")) {
      var group := Get(es, StrKey("GROUP"));
      GetWf(es, StrKey("GROUP"));
      var (q, s1) := GroupPart(prefix, es, s0).value;
      if group.Arr? {
        var quoted := QuoteColumns(prefix, group.entries).value;
        QuoteColumnsNoHoles(prefix, group.entries);
        HolesJoin(quoted, ",");
        SoundNoHoles(Join(quoted, ","), s0, s1);
        LitThen(" GROUP BY ", Join(quoted, ","), s0, s1);
      } else {
        TruthyRawSound(prefix, group, s0, s0);
        var (raw, m) := TruthyRaw(prefix, group, s0.params).value;
        if raw.Some? {
          LitThen(" GROUP BY ", raw.value, s0, s1);
        } else {
          var column := ColumnQuoteArg(prefix, group).value;
          SoundNoHoles(column, s0, s1);
          LitThen(" GROUP BY ", column, s0, s1);
        }
      }
    }
  }

  lemma HavingPartSound(prefix: string, es: PArray, s0: St)
    requires WfEntries(es) && HavingPart(prefix, es, s0).Ok?
    ensures var (q, s1) := HavingPart(prefix, es, s0).value; Sound(q, s0, s1)
  {
    if IsSet(es, StrKey("HAVING")) {
      var having := Get(es, StrKey("HAVING"));
      GetWf(es, StrKey("HAVING"));
      var (q, s1) := HavingPart(prefix, es, s0).value;
      TruthyRawSound(prefix, having, s0, s0);
      var (raw, m) := TruthyRaw(prefix, having, s0.params).value;
      if raw.Some? {
        LitThen(" HAVING ", raw.value, s0, s1);
      } else {
        var s := s0.(params := m);
        ImplodeSound(prefix, having.entries, " AND", s);
        var (h, _) := Implode(prefix, having.entries, " AND", s).value;
        assert Sound(h, s0, s1);
        LitThen(" HAVING ", h, s0, s1);
      }
    }
  }

  lemma {:induction false} OrderItemsNoHoles(prefix: string, es: PArray)
    requires OrderItems(prefix, es).Ok?
    ensures Holes(Flatten(OrderItems(prefix, es).value)) == []
    decreases es
  {
    if es != [] {
      OrderItemsNoHoles(prefix, es[1..]);
      var head := OrderItem(prefix, es[0]).value;
      var tail := OrderItems(prefix, es[1..]).value;
      if head.Some? {
        var (column, value) := es[0];
        if value.Arr? {
          var vals := FieldValues(value.entries).value;
          var col := ColumnQuote(prefix, KeyStr(column)).value;
          HolesConcat([Lit("FIELD(")], col);
          LitNoHoles("FIELD(");
          HolesLit([Lit("FIELD(")] + col, ", " + ImplodeStr(vals, ",") + ")");
        } else if value == Str("ASC") || value == Str("DESC") {
          HolesLit(ColumnQuote(prefix, KeyStr(column)).value, " " + value.s);
        }
        assert ([head.value] + tail)[1..] == tail;
        HolesConcat(head.value, Flatten(tail));
      } else {
        assert [] + tail == tail;
      }
    }
  }

  lemma OrderPartSound(prefix: string, es: PArray, s0: St)
    requires WfEntries(es) && OrderPart(prefix, es, s0).Ok?
    ensures var (q, s1) := OrderPart(prefix, es, s0).value; Sound(q, s0, s1)
  {
    if IsSet(es, StrKey("ORDER")) {
      var order := Get(es, StrKey("ORDER"));
      GetWf(es, StrKey("ORDER"));
      var (q, s1) := OrderPart(prefix, es, s0).value;
      if order.Arr? {
        var items := OrderItems(prefix, order.entries).value;
        OrderItemsNoHoles(prefix, order.entries);
        HolesJoin(items, ",");
        SoundNoHoles(Join(items, ","), s0, s1);
        LitThen(" ORDER BY ", Join(items, ","), s0, s1);
      } else {
        TruthyRawSound(prefix, order, s0, s0);
        var (raw, m) := TruthyRaw(prefix, order, s0.params).value;
        if raw.Some? {
          LitThen(" ORDER BY ", raw.value, s0, s1);
        } else {
          var column := ColumnQuoteArg(prefix, order).value;
          SoundNoHoles(column, s0, s1);
          LitThen(" ORDER BY ", column, s0, s1);
        }
      }
    }
  }

  lemma LimitPartNoHoles(es: PArray)
    ensures Holes(LimitPart(es)) == []
  {
    var l := LimitPart(es);
    if l != [] {
      LitNoHoles(l[0].text);
      assert l == [Lit(l[0].text)];
    }
  }

  /**
   * Every placeholder whereClause() writes is bound in the map it leaves,
   * was drawn while it ran, and occurs once.
   */
  lemma WhereClauseSound(prefix: string, where: Value, s0: St)
    requires WfValue(where) && WhereClause(prefix, where, s0).Ok?
    ensures var (q, s1) := WhereClause(prefix, where, s0).value; Sound(q, s0, s1)
  {
    var (q, s5) := WhereClause(prefix, where, s0).value;
    if where.Arr? {
      var es := where.entries;
      var (w, s1) := WherePart(prefix, es, s0).value;
      var (mt, s2) := MatchPart(prefix, es, w != [], s1).value;
      var (g, s3) := GroupPart(prefix, es, s2).value;
      var (h, s4) := HavingPart(prefix, es, s3).value;
      var (o, _) := OrderPart(prefix, es, s4).value;
      WherePartSound(prefix, es, s0);
      MatchPartSound(prefix, es, w != [], s1);
      GroupPartSound(prefix, es, s2);
      HavingPartSound(prefix, es, s3);
      OrderPartSound(prefix, es, s4);
      LimitPartNoHoles(es);
      SoundConcat(w, mt, s0, s1, s2);
      SoundConcat(w + mt, g, s0, s2, s3);
      SoundConcat(w + mt + g, h, s0, s3, s4);
      SoundConcat(w + mt + g + h, o, s0, s4, s5);
      SoundNoHoles(LimitPart(es), s5, s5);
      SoundConcat(w + mt + g + h + o, LimitPart(es), s0, s5, s5);
    } else {
      TruthyRawSound(prefix, where, s0, s0);
      var (raw, m) := TruthyRaw(prefix, where, s0.params).value;
      if raw.Some? {
        LitThen(" ", raw.value, s0, s5);
      }
    }
  }

  // ---------------------------------------------------------------------
  // What the clause reads like

  /** A condition array without reserved keys is ` WHERE ` and its conditions joined by AND. */
  lemma OnlyConditions(prefix: string, es: PArray, s: St)
    requires es != [] && forall i :: 0 <= i < |es| ==> !IsReserved(es[i].0)
    ensures var r := WhereClause(prefix, Arr(es), s);
      var c := Implode(prefix, es, " AND", s);
      (r.Ok? <==> c.Ok?) && (r.Ok? ==> r.value == ([Lit(" WHERE ")] + c.value.0, c.value.1))
  {
    AllKept(es);
    NoReservedKey(es, "MATCH");
    NoReservedKey(es, "GROUP");
    NoReservedKey(es, "HAVING");
    NoReservedKey(es, "ORDER");
    NoReservedKey(es, "LIMIT");
    WhereOnlyPart(prefix, es, s);
  }

  /** Without MATCH, GROUP, HAVING, ORDER and LIMIT keys the clause is its WHERE part alone. */
  lemma WhereOnlyPart(prefix: string, es: PArray, s: St)
    requires !HasKey(es, StrKey("MATCH")) && !HasKey(es, StrKey("GROUP")) && !HasKey(es, StrKey("HAVING"))
    requires !HasKey(es, StrKey("ORDER")) && !HasKey(es, StrKey("LIMIT"))
    ensures WhereClause(prefix, Arr(es), s) == WherePart(prefix, es, s)
  {
    if WherePart(prefix, es, s).Ok? {
      var (w, s1) := WherePart(prefix, es, s).value;
      assert MatchPart(prefix, es, w != [], s1) == Ok(([], s1));
      assert GroupPart(prefix, es, s1) == Ok(([], s1));
      assert HavingPart(prefix, es, s1) == Ok(([], s1));
      assert OrderPart(prefix, es, s1) == Ok(([], s1));
      assert LimitPart(es) == [];
      assert w + [] + [] + [] + [] + [] == w;
    }
  }

  lemma NoReservedKey(es: PArray, k: string)
    requires k in Reserved && forall i :: 0 <= i < |es| ==> !IsReserved(es[i].0)
    ensures !HasKey(es, StrKey(k))
  {
  }

  lemma {:induction false} AllKept(es: PArray)
    requires forall i :: 0 <= i < |es| ==> !IsReserved(es[i].0)
    ensures ConditionEntries(es) == es
    decreases es
  {
    if es != [] {
      AllKept(es[1..]);
    }
  }

  /** `LIMIT => n` is ` LIMIT n`; `LIMIT => [offset, count]` is ` LIMIT count OFFSET offset`. */
  lemma LimitForms(n: int, offset: int, count: int)
    ensures LimitPart([(StrKey("LIMIT"), Int(n))]) == [Lit(" LIMIT " + IntStr(n))]
    ensures LimitPart([(StrKey("LIMIT"), Arr([(IntKey(0), Int(offset)), (IntKey(1), Int(count))]))]) ==
      [Lit(" LIMIT " + IntStr(count) + " OFFSET " + IntStr(offset))]
  {
    var es := [(StrKey("LIMIT"), Int(n))];
    assert es[0].0 == StrKey("LIMIT");
    assert IndexOf(es, StrKey("LIMIT")) == 0;
    var pair := [(IntKey(0), Int(offset)), (IntKey(1), Int(count))];
    assert pair[0].0 == IntKey(0) && pair[1].0 == IntKey(1);
    assert IndexOf(pair, IntKey(0)) == 0;
    assert pair[1..][0].0 == IntKey(1);
    assert IndexOf(pair, IntKey(1)) == 1;
    var ls := [(StrKey("LIMIT"), Arr(pair))];
    assert ls[0].0 == StrKey("LIMIT");
    assert IndexOf(ls, StrKey("LIMIT")) == 0;
  }

  /**
   * The clauses come out in a fixed order whatever the order of the keys:
   * `[LIMIT => n, ORDER => 'o', GROUP => 'g']` is ` GROUP BY "g" ORDER BY "o" LIMIT n`.
   */
  lemma ClauseOrder(prefix: string, es: PArray, g: string, o: string, n: int, s: St)
    requires IsName(g) && IsName(o)
    requires es == [(StrKey("LIMIT"), Int(n)), (StrKey("ORDER"), Str(o)), (StrKey("GROUP"), Str(g))]
    ensures WhereClause(prefix, Arr(es), s) ==
      Ok(([Lit(" GROUP BY "), Ident(g), Lit(" ORDER BY "), Ident(o), Lit(" LIMIT " + IntStr(n))], s))
  {
    var a, b, l: Sql := [Lit(" GROUP BY "), Ident(g)], [Lit(" ORDER BY "), Ident(o)], [Lit(" LIMIT " + IntStr(n))];
    ClauseOrderParts(prefix, es, g, o, n, s);
    Concat5(a, b, l);
  }

  lemma Concat5(a: Sql, b: Sql, l: Sql)
    requires |a| == 2 && |b| == 2 && |l| == 1
    ensures [] + [] + a + [] + b + l == [a[0], a[1], b[0], b[1], l[0]]
  {
  }

  lemma ClauseOrderParts(prefix: string, es: PArray, g: string, o: string, n: int, s: St)
    requires IsName(g) && IsName(o)
    requires es == [(StrKey("LIMIT"), Int(n)), (StrKey("ORDER"), Str(o)), (StrKey("GROUP"), Str(g))]
    ensures WherePart(prefix, es, s) == Ok(([], s))
    ensures MatchPart(prefix, es, false, s) == Ok(([], s))
    ensures GroupPart(prefix, es, s) == Ok(([Lit(" GROUP BY "), Ident(g)], s))
    ensures HavingPart(prefix, es, s) == Ok(([], s))
    ensures OrderPart(prefix, es, s) == Ok(([Lit(" ORDER BY "), Ident(o)], s))
    ensures LimitPart(es) == [Lit(" LIMIT " + IntStr(n))]
  {
    ThreeKeys(es, n, o, g);
    assert ConditionEntries(es[2..]) == [];
    assert ConditionEntries(es[1..]) == [];
    assert ConditionEntries(es) == [];
    GroupByName(prefix, es, g, s);
    OrderByName(prefix, es, o, s);
  }

  /** `GROUP => 'name'` is ` GROUP BY "name"`. */
  lemma GroupByName(prefix: string, es: PArray, g: string, s: St)
    requires IsName(g) && IsSet(es, StrKey("GROUP")) && Get(es, StrKey("GROUP")) == Str(g)
    ensures GroupPart(prefix, es, s) == Ok(([Lit(" GROUP BY "), Ident(g)], s))
  {
    BareColumnQuote(prefix, g);
    assert TruthyRaw(prefix, Str(g), s.params) == Ok((None, s.params));
    assert ColumnQuoteArg(prefix, Str(g)) == Ok([Ident(g)]);
    assert s.(params := s.params) == s;
    assert [Lit(" GROUP BY ")] + [Ident(g)] == [Lit(" GROUP BY "), Ident(g)];
  }

  /** `ORDER => 'name'` is ` ORDER BY "name"`. */
  lemma OrderByName(prefix: string, es: PArray, o: string, s: St)
    requires IsName(o) && IsSet(es, StrKey("ORDER")) && Get(es, StrKey("ORDER")) == Str(o)
    ensures OrderPart(prefix, es, s) == Ok(([Lit(" ORDER BY "), Ident(o)], s))
  {
    BareColumnQuote(prefix, o);
    assert TruthyRaw(prefix, Str(o), s.params) == Ok((None, s.params));
    assert ColumnQuoteArg(prefix, Str(o)) == Ok([Ident(o)]);
    assert s.(params := s.params) == s;
    assert [Lit(" ORDER BY ")] + [Ident(o)] == [Lit(" ORDER BY "), Ident(o)];
  }

  lemma ThreeKeys(es: PArray, n: int, o: string, g: string)
    requires es == [(StrKey("LIMIT"), Int(n)), (StrKey("ORDER"), Str(o)), (StrKey("GROUP"), Str(g))]
    ensures Get(es, StrKey("LIMIT")) == Int(n) && Get(es, StrKey("ORDER")) == Str(o) && Get(es, StrKey("GROUP")) == Str(g)
    ensures IsSet(es, StrKey("LIMIT")) && IsSet(es, StrKey("ORDER")) && IsSet(es, StrKey("GROUP"))
    ensures !HasKey(es, StrKey("MATCH")) && !HasKey(es, StrKey("HAVING"))
  {
    assert es[0].0 == StrKey("LIMIT") && es[1].0 == StrKey("ORDER") && es[2].0 == StrKey("GROUP");
    assert IndexOf(es, StrKey("LIMIT")) == 0;
    assert es[1..][0].0 == StrKey("ORDER");
    assert IndexOf(es, StrKey("ORDER")) == 1;
    assert es[1..][1..] == es[2..] && es[2..][0].0 == StrKey("GROUP");
    assert IndexOf(es, StrKey("GROUP")) == 2;
  }
}
