/**
 * The DB object: the placeholder counter, the executor with its log and
 * debug switch, the transaction state machine over a connection pool, the
 * loops of the builder that append to the object's parameter map, and the
 * public statement methods that compile a query and run it.
 *
 * The database driver is not modelled: every driver call takes its outcome
 * from a parameter, and a connection is an opaque handle.
 */
module Database {
  import opened Php
  import opened Sql
  import opened Quoting
  import opened Patterns
  import opened Conditions
  import opened Columns
  import opened Joins = Select
  import opened Shaper
  import opened Statements

  /** A connection handed out by the pool. */
  datatype Conn = Conn(id: nat)

  /** A prepared statement: its connection, its SQL, what was bound to it, and whether it executed. */
  datatype Stmt = Stmt(conn: Conn, query: Sql, bound: ParamMap, executed: bool)

  /** What the driver does with one exec(): prepare fails, prepare and execute run, or a call raises. */
  datatype ExecDriver =
    | PrepareFails(info: string)
    | Executes(ok: bool, info: string, lastId: string)
    | Raises(msg: string)

  /** What exec() gives back: false, the last insert id, the statement, or an exception. */
  datatype ExecResult =
    | ExecFalse
    | ExecId(id: string)
    | ExecStatement(stmt: Stmt)
    | ExecThrew(e: Error)

  /**
   * `exec(...)->rowCount()`: a statement answers its row count (`rowCount`,
   * from the driver); false or a last insert id has no rowCount() to call.
   */
  function RowCount(x: ExecResult, rowCount: nat): (r: Result<int>)
    ensures r.Ok? <==> x.ExecStatement?
    ensures r.Ok? ==> r.value == rowCount
    ensures x.ExecThrew? ==> r == Err(x.e)
    ensures x.ExecFalse? || x.ExecId? ==> r.Err? && r.error.TypeError?
  {
    match x
    case ExecStatement(_) => Ok(rowCount)
    case ExecThrew(e) => Err(e)
    case ExecFalse => Err(TypeError("Call to a member function rowCount() on bool"))
    case ExecId(_) => Err(TypeError(CallOnString("rowCount")))
  }

  /** exec() hands back the last insert id, not the statement, when the driver reports one. */
  predicate IdReturned(d: ExecDriver) {
    d.Executes? && d.lastId != "0" && d.lastId != ""
  }

  /** The message of the Error PHP raises when `name()` is called on a string. */
  function CallOnString(name: string): string {
    "Call to a member function " + name + "() on string"
  }

  /**
   * select() once exec() handed back the insert id: the column map is still
   * built, then fetchAll() (for `*`) or fetch() is called on the string.
   */
  function SelectOnId(columns: Value): (r: Result<Value>)
    ensures r.Err?
    ensures ColumnMapOf(columns, [], true).Ok? ==> r.error.TypeError?
  {
    var _ :- ColumnMapOf(columns, [], true);
    Err(TypeError(CallOnString(if columns == Str("*") then "fetchAll" else "fetch")))
  }

  /** One transaction command the driver is asked to run. */
  datatype TxOp = TxBegin | TxCommit | TxRollBack

  /** The outcome of one driver call. */
  datatype DriverCall = Succeeds | Fails(msg: string)

  /** How a method without a value ends: normally or with an exception. */
  datatype Outcome = Done | Threw(e: Error)

  /** What the callback given to action() does: return a value, throw an Exception, or throw an Error. */
  datatype Callback = Returns(v: Value) | RaisesException(msg: string) | RaisesError(msg: string)

  datatype ActionResult = Returned(v: Value) | ActionThrew(e: Error)

  /** `acc` in front of the join clauses `r` holds, or `r`'s error. */
  function PrefixedJoins(acc: seq<Sql>, r: Result<(seq<Sql>, St)>): Result<(seq<Sql>, St)> {
    if r.Ok? then Ok((acc + r.value.0, r.value.1)) else r
  }

  lemma PrefixedJoinsNothing(r: Result<(seq<Sql>, St)>)
    ensures PrefixedJoins([], r) == r
  {
    if r.Ok? {
      assert [] + r.value.0 == r.value.0;
    }
  }

  lemma PrefixedJoinsAppend(a: seq<Sql>, b: seq<Sql>, r: Result<(seq<Sql>, St)>)
    ensures PrefixedJoins(a, PrefixedJoins(b, r)) == PrefixedJoins(a + b, r)
  {
    if r.Ok? {
      assert a + (b + r.value.0) == (a + b) + r.value.0;
    }
  }

  /** One pass of buildJoin()'s loop over a key without a join marker: nothing is added. */
  lemma JoinEntriesUnmarked(prefix: string, table: Sql, es: PArray, s: St)
    requires es != [] && ParseJoinKey(KeyStr(es[0].0)).Unmarked?
    ensures JoinEntries(prefix, table, es, s) == JoinEntries(prefix, table, es[1..], s)
  {
  }

  /** One pass of buildJoin()'s loop over a marked key whose relation and table compile. */
  lemma JoinEntriesMarked(prefix: string, table: Sql, es: PArray, s: St, d: string, t: string, alias: Option<string>, relation: Sql, s1: St, name: Sql)
    requires es != [] && ParseJoinKey(KeyStr(es[0].0)) == Marked(d, t, alias)
    requires JoinRelation(prefix, table, Some(if alias.Some? then alias.value else t), es[0].1, s) == Ok((relation, s1))
    requires JoinedTable(prefix, t, alias) == Ok(name)
    ensures JoinEntries(prefix, table, es, s)
         == PrefixedJoins([[Lit(JoinWord(d) + " JOIN ")] + name + [Lit(" ")] + relation], JoinEntries(prefix, table, es[1..], s1))
  {
  }

  /** Two runs of writes, one after the other, are the run of both. */
  lemma {:induction false} PutAllAppend(a: PArray, w1: PArray, w2: PArray)
    ensures PutAll(a, w1 + w2) == PutAll(PutAll(a, w1), w2)
    decreases w1
  {
    if w1 != [] {
      assert (w1 + w2)[0] == w1[0] && (w1 + w2)[1..] == w1[1..] + w2;
      PutAllAppend(Put(a, w1[0].0, w1[0].1), w1[1..], w2);
    } else {
      assert w1 + w2 == w2;
    }
  }

  /** The connection pool, seen only through the handles it hands out and takes back. */
  class Pool {
    var taken: nat
    var returned: seq<Option<Conn>>

    constructor()
      ensures taken == 0 && returned == []
    {
      taken := 0;
      returned := [];
    }

    /** getConnection(): a handle that was never handed out before. */
    method GetConnection() returns (c: Conn)
      modifies this
      ensures c == Conn(old(taken)) && taken == old(taken) + 1 && returned == old(returned)
    {
      c := Conn(taken);
      taken := taken + 1;
    }

    /** close(): the handle goes back to the pool. */
    method Close(c: Option<Conn>)
      modifies this
      ensures taken == old(taken) && returned == old(returned) + [c]
    {
      returned := returned + [c];
    }
  }

  class DB {
    const prefix: string
    const pool: Pool
    var guid: nat
    var inTransaction: bool
    /** The held connection; None while the typed property is still uninitialised. */
    var pdo: Option<Conn>
    var statement: Option<Stmt>
    var logs: seq<(Sql, ParamMap)>
    var logging: bool
    var debugMode: bool
    var errorInfo: Option<string>
    /** What debug mode echoed instead of running, in order. */
    var echoed: seq<(Sql, ParamMap)>
    /** The Coroutine::defer() closures registered and not yet run. */
    var deferred: nat
    /** The transaction commands the driver ran, with their connection, in order. */
    var sent: seq<(Conn, TxOp)>

    /** A transaction always runs on a held connection. */
    predicate Valid()
      reads this
    {
      inTransaction ==> pdo.Some?
    }

    constructor(prefix: string, pool: Pool)
      ensures this.prefix == prefix && this.pool == pool && Valid()
      ensures guid == 0 && !inTransaction && pdo.None? && statement.None? && logs == []
      ensures !logging && !debugMode && errorInfo.None? && echoed == [] && deferred == 0 && sent == []
    {
      this.prefix := prefix;
      this.pool := pool;
      guid := 0;
      inTransaction := false;
      pdo := None;
      statement := None;
      logs := [];
      logging := false;
      debugMode := false;
      errorInfo := None;
      echoed := [];
      deferred := 0;
      sent := [];
    }

    // -------------------------------------------------------------------
    // mapKey()

    /** mapKey(): `:MeD<guid>_mK`, and the counter moves on. */
    method MapKey() returns (k: string)
      modifies this`guid
      ensures k == MapKeyName(old(guid)) && guid == old(guid) + 1
    {
      k := MapKeyName(guid);
      guid := guid + 1;
    }

    // -------------------------------------------------------------------
    // Connections

    /** realGetConn(): outside a transaction a fresh connection is taken; inside one the held one is kept. */
    method RealGetConn()
      requires Valid()
      modifies this`pdo, pool
      ensures Valid() && pdo.Some?
      ensures old(inTransaction) ==> pdo == old(pdo) && pool.taken == old(pool.taken)
      ensures !old(inTransaction) ==> pdo == Some(Conn(old(pool.taken))) && pool.taken == old(pool.taken) + 1
      ensures pool.returned == old(pool.returned)
    {
      if !inTransaction {
        var c := pool.GetConnection();
        pdo := Some(c);
      }
    }

    /**
     * release(): a null connection ends the transaction; outside a
     * transaction the connection goes back to the pool and the answer is true.
     */
    method Release(conn: Option<Conn>) returns (b: bool)
      modifies this`inTransaction, pool
      ensures inTransaction == (old(inTransaction) && conn.Some?)
      ensures b == !inTransaction
      ensures pool.taken == old(pool.taken)
      ensures pool.returned == old(pool.returned) + (if b then [conn] else [])
    {
      if conn.None? {
        inTransaction := false;
      }
      if !inTransaction {
        pool.Close(conn);
        return true;
      }
      return false;
    }

    // -------------------------------------------------------------------
    // exec()

    /**
     * What one exec() of `query` with `m` did, driven by `d`: the connection
     * it took and gave back, what it logged or echoed, the statement and
     * error info it left, and what it returned.
     */
    twostate predicate Ran(query: Sql, m: ParamMap, d: ExecDriver, r: ExecResult)
      reads this, pool
    {
      && pdo.Some?
      && inTransaction == old(inTransaction)
      && (old(inTransaction) ==> pdo == old(pdo) && pool.taken == old(pool.taken))
      && (!old(inTransaction) ==> pdo == Some(Conn(old(pool.taken))) && pool.taken == old(pool.taken) + 1)
      && !debugMode
      && logging == old(logging)
      && if old(debugMode) then
           && r == ExecFalse && statement.None? && errorInfo == old(errorInfo)
           && echoed == old(echoed) + [(query, m)] && logs == old(logs)
           && pool.returned == old(pool.returned) + (if old(inTransaction) then [] else [pdo])
         else
           && echoed == old(echoed)
           && logs == (if logging then old(logs) else []) + [(query, m)]
           && match d
              case Raises(msg) =>
                // the rethrow skips release(): the connection stays out of the pool
                && r == ExecThrew(DriverError(msg)) && statement.None? && errorInfo == old(errorInfo)
                && pool.returned == old(pool.returned)
              case PrepareFails(info) =>
                && r == ExecFalse && statement.None? && errorInfo == Some(info)
                && pool.returned == old(pool.returned) + (if old(inTransaction) then [] else [pdo])
              case Executes(ok, info, lastId) =>
                var stmt := Stmt(pdo.value, query, m, ok);
                && statement == (if ok then Some(stmt) else None)
                && errorInfo == Some(info)
                && r == (if IdReturned(d) then ExecId(lastId) else ExecStatement(stmt))
                && pool.returned == old(pool.returned) + (if old(inTransaction) then [] else [pdo])
    }

    /** exec(): run `query` with the parameters `m`. */
    method Exec(query: Sql, m: ParamMap, d: ExecDriver) returns (r: ExecResult)
      requires Valid()
      modifies this`pdo, this`inTransaction, this`statement, this`logs, this`debugMode, this`errorInfo, this`echoed, pool
      ensures Valid()
      ensures Ran(query, m, d, r)
    {
      RealGetConn();
      statement := None;
      if debugMode {
        echoed := echoed + [(query, m)];
        debugMode := false;
        var released := Release(pdo);
        return ExecFalse;
      }
      logs := if logging then logs + [(query, m)] else [(query, m)];
      match d
      case Raises(msg) =>
        r := ExecThrew(DriverError(msg));
      case PrepareFails(info) =>
        errorInfo := Some(info);
        statement := None;
        var released := Release(pdo);
        r := ExecFalse;
      case Executes(ok, info, lastId) =>
        var stmt := Stmt(pdo.value, query, m, ok);
        statement := Some(stmt);
        errorInfo := Some(info);
        if !ok {
          statement := None;
        }
        var released := Release(pdo);
        if lastId != "0" && lastId != "" {
          r := ExecId(lastId);
        } else {
          r := ExecStatement(stmt);
        }
    }

    /** query(): a raw statement with its own parameters, run as it stands. */
    method Query(f: Fragment, d: ExecDriver) returns (r: ExecResult)
      requires Valid()
      modifies this`pdo, this`inTransaction, this`statement, this`logs, this`debugMode, this`errorInfo, this`echoed, pool
      ensures Valid()
      ensures match BuildRaw(prefix, Raw(f), [])
        case Err(e) => r == ExecThrew(e) && unchanged(this, pool)
        case Ok(raw) => raw.Some? && Ran(raw.value.0, raw.value.1, d, r)
    {
      var raw := BuildRaw(prefix, Raw(f), []);
      if raw.Err? {
        return ExecThrew(raw.error);
      }
      r := Exec(raw.value.value.0, raw.value.value.1, d);
    }

    /** debug(): the next exec() echoes its statement instead of running it. */
    method Debug()
      modifies this`debugMode
      ensures debugMode
    {
      debugMode := true;
    }

    /**
     * log(): every logged statement as `generate` renders it, in order
     * (generate() itself is a parameter).
     */
    method Log(generate: (Sql, ParamMap) -> string) returns (r: seq<string>)
      ensures |r| == |logs|
      ensures forall i :: 0 <= i < |logs| ==> r[i] == generate(logs[i].0, logs[i].1)
    {
      r := [];
      var i := 0;
      while i < |logs|
        invariant 0 <= i <= |logs| && |r| == i
        invariant forall j :: 0 <= j < i ==> r[j] == generate(logs[j].0, logs[j].1)
      {
        r := r + [generate(logs[i].0, logs[i].1)];
        i := i + 1;
      }
    }

    /** last(): null without a log, else the last logged statement rendered. */
    method Last(generate: (Sql, ParamMap) -> string) returns (r: Option<string>)
      ensures r.None? <==> logs == []
      ensures r.Some? ==> r.value == generate(logs[|logs| - 1].0, logs[|logs| - 1].1)
    {
      if logs == [] {
        return None;
      }
      var entry := logs[|logs| - 1];
      r := Some(generate(entry.0, entry.1));
    }

    // -------------------------------------------------------------------
    // The builder's loops over `&$map` and the counter

    /**
     * dataImplode(): one condition per entry, pushed in order, then joined
     * by the conjunctor; the parameters and the counter move on as the
     * condition compiler says.
     */
    method DataImplode(data: PArray, conjunctor: string, m: ParamMap) returns (r: Result<(Sql, ParamMap)>)
      modifies this`guid
      ensures match Implode(prefix, data, conjunctor, St(m, old(guid)))
        case Ok((q, s1)) => r == Ok((q, s1.params)) && guid == s1.guid
        case Err(e) => r == Err(e)
    {
      var stack: seq<Sql> := [];
      var params := m;
      var i := 0;
      while i < |data|
        invariant 0 <= i <= |data|
        invariant Conditions.Conditions(prefix, data, [], St(m, old(guid))) == Conditions.Conditions(prefix, data[i..], stack, St(params, guid))
      {
        assert data[i..][0] == data[i] && data[i..][1..] == data[i + 1..];
        var c := Condition(prefix, data[i], St(params, guid));
        if c.Err? {
          return Err(c.error);
        }
        stack := stack + c.value.0;
        params := c.value.1.params;
        guid := c.value.1.guid;
        i := i + 1;
      }
      assert data[i..] == [];
      r := Ok((Join(stack, conjunctor + " "), params));
    }

    /**
     * columnPush(): `*` stays as it is; otherwise every entry of the
     * column list (a lone string being a one-entry list) adds its
     * projection, and the list comes back rewritten with aliases.
     */
    method ColumnPush(columns: Value, root: bool, isJoin: bool, m: ParamMap) returns (r: Result<(Sql, Value, ParamMap)>)
      ensures r == Columns.ColumnPush(prefix, columns, root, isJoin, m)
    {
      if columns == Str("*") {
        return Ok(([Lit("*")], columns, m));
      }
      var listed := Listed(columns);
      if !listed.Arr? {
        return Ok(([], columns, m));
      }
      var es := listed.entries;
      var single := |es| == 1;
      var p := Push([], false, es, m);
      var i := 0;
      while i < |es|
        invariant 0 <= i <= |es|
        invariant PushEntries(prefix, es, root, isJoin, single, Push([], false, es, m))
               == PushEntries(prefix, es[i..], root, isJoin, single, p)
      {
        assert es[i..][0] == es[i] && es[i..][1..] == es[i + 1..];
        var next := PushEntry(prefix, es[i], root, isJoin, single, p);
        if next.Err? {
          return Err(next.error);
        }
        p := next.value;
        i := i + 1;
      }
      assert es[i..] == [];
      r := Ok((Join(p.stack, ","), Arr(p.cols), p.m));
    }

    /** columnMap(): every entry of the column list records where its value will be read. */
    method ColumnMap(columns: Value, stack: Shaper.ColumnMap, root: bool) returns (r: Result<Shaper.ColumnMap>)
      ensures r == ColumnMapOf(columns, stack, root)
    {
      if columns == Str("*") || !columns.Arr? {
        return Ok(stack);
      }
      var es := columns.entries;
      var group := root && |es| == 1;
      var cm := stack;
      var i := 0;
      while i < |es|
        invariant 0 <= i <= |es|
        invariant MapEntries(es, stack, group) == MapEntries(es[i..], cm, group)
      {
        assert es[i..][0] == es[i] && es[i..][1..] == es[i + 1..];
        var next := MapEntry(es[i], cm, group);
        if next.Err? {
          return Err(next.error);
        }
        cm := next.value;
        i := i + 1;
      }
      assert es[i..] == [];
      r := Ok(cm);
    }

    /**
     * One pass of dataMap() below the root: every entry of the column list
     * writes its value into `stack`, in order.
     */
    method DataMapPass(data: PArray, es: PArray, cm: Shaper.ColumnMap, stack: PArray, foreign: (string, Value) -> Value) returns (r: Result<PArray>)
      ensures DataWrites(data, es, cm, foreign).Ok? ==> r == Ok(PutAll(stack, DataWrites(data, es, cm, foreign).value))
      ensures DataWrites(data, es, cm, foreign).Err? ==> r == Err(DataWrites(data, es, cm, foreign).error)
    {
      var cur := stack;
      ghost var acc: PArray := [];
      var i := 0;
      assert es[i..] == es;
      PrefixedNothing(DataWrites(data, es, cm, foreign));
      while i < |es|
        invariant 0 <= i <= |es|
        invariant cur == PutAll(stack, acc)
        invariant DataWrites(data, es, cm, foreign) == Prefixed(acc, DataWrites(data, es[i..], cm, foreign))
      {
        assert es[i..][0] == es[i] && es[i..][1..] == es[i + 1..];
        var w := DataWrite(data, es[i], cm, foreign);
        if w.Err? {
          return Err(w.error);
        }
        assert DataWrites(data, es[i..], cm, foreign) == Prefixed(w.value, DataWrites(data, es[i + 1..], cm, foreign));
        PrefixedAppend(acc, w.value, DataWrites(data, es[i + 1..], cm, foreign));
        PutAllAppend(stack, acc, w.value);
        cur := PutAll(cur, w.value);
        acc := acc + w.value;
        i := i + 1;
      }
      assert es[i..] == [];
      assert acc + [] == acc;
      r := Ok(cur);
    }

    /**
     * dataMap() at the root with `$result`: a single named group is
     * rebuilt once per column of the row and stored under the row's group
     * value each time; any other column list appends the row's stack.
     */
    method DataMap(data: PArray, columns: PArray, cm: Shaper.ColumnMap, result: PArray, foreign: (string, Value) -> Value) returns (r: Result<PArray>)
      ensures r == DataRow(data, columns, cm, result, foreign)
    {
      if |columns| == 1 && columns[0].1.Arr? {
        var inner := columns[0].1.entries;
        var dataKey := StripTable(KeyStr(columns[0].0));
        var cur: PArray := [];
        var res := result;
        var j := 0;
        while j < |data|
          invariant 0 <= j <= |data|
          invariant j == 0 ==> cur == [] && res == result
          invariant j > 0 ==> DataWrites(data, inner, cm, foreign).Ok? && ArrayKey(Php.Get(data, NormKey(dataKey))).Some?
          invariant j > 0 ==>
            DataRow(data, columns, cm, result, foreign)
            == Ok(GroupRepeat(|data| - j, cur, DataWrites(data, inner, cm, foreign).value, ArrayKey(Php.Get(data, NormKey(dataKey))).value, res))
        {
          var next := DataMapPass(data, inner, cm, cur, foreign);
          if next.Err? {
            return Err(next.error);
          }
          var index := ArrayKey(Php.Get(data, NormKey(dataKey)));
          if index.None? {
            return Err(OffsetError);
          }
          var w := DataWrites(data, inner, cm, foreign).value;
          assert DataRow(data, columns, cm, result, foreign) == Ok(GroupRepeat(|data| - j, cur, w, index.value, res));
          cur := next.value;
          res := Put(res, index.value, Arr(cur));
          j := j + 1;
        }
        r := Ok(res);
      } else {
        var stack := DataMapPass(data, columns, cm, [], foreign);
        if stack.Err? {
          return Err(stack.error);
        }
        r := Ok(Append(result, Arr(stack.value)));
      }
    }

    /**
     * buildJoin(): every marked key of the join specification adds
     * `<DIRECTION> JOIN table relation`, the clauses joined by spaces.
     */
    method BuildJoin(table: Sql, join: PArray, m: ParamMap) returns (r: Result<(Sql, ParamMap)>)
      modifies this`guid
      ensures match Joins.BuildJoin(prefix, table, join, St(m, old(guid)))
        case Ok((q, s1)) => r == Ok((q, s1.params)) && guid == s1.guid
        case Err(e) => r == Err(e)
    {
      var tableJoin: seq<Sql> := [];
      var params := m;
      var i := 0;
      assert join[i..] == join;
      PrefixedJoinsNothing(JoinEntries(prefix, table, join, St(m, guid)));
      while i < |join|
        invariant 0 <= i <= |join|
        invariant JoinEntries(prefix, table, join, St(m, old(guid)))
               == PrefixedJoins(tableJoin, JoinEntries(prefix, table, join[i..], St(params, guid)))
      {
        assert join[i..][0] == join[i] && join[i..][1..] == join[i + 1..];
        var (k, rel) := join[i];
        match ParseJoinKey(KeyStr(k)) {
          case Unmarked =>
            JoinEntriesUnmarked(prefix, table, join[i..], St(params, guid));
          case NoMatch =>
            var relation := JoinRelation(prefix, table, None, rel, St(params, guid));
            if relation.Err? {
              return Err(relation.error);
            }
            return Err(TypeError("tableQuote(): argument must be of type string"));
          case Marked(d, t, alias) =>
            var relation := JoinRelation(prefix, table, Some(if alias.Some? then alias.value else t), rel, St(params, guid));
            if relation.Err? {
              return Err(relation.error);
            }
            var name := JoinedTable(prefix, t, alias);
            if name.Err? {
              return Err(name.error);
            }
            var clause := [Lit(JoinWord(d) + " JOIN ")] + name.value + [Lit(" ")] + relation.value.0;
            JoinEntriesMarked(prefix, table, join[i..], St(params, guid), d, t, alias, relation.value.0, relation.value.1, name.value);
            PrefixedJoinsAppend(tableJoin, [clause], JoinEntries(prefix, table, join[i + 1..], relation.value.1));
            tableJoin := tableJoin + [clause];
            params := relation.value.1.params;
            guid := relation.value.1.guid;
        }
        i := i + 1;
      }
      assert join[i..] == [];
      assert tableJoin + [] == tableJoin;
      r := Ok((Join(tableJoin, " "), params));
    }

    // -------------------------------------------------------------------
    // The public statements: compile with a fresh map, then exec()

    /**
     * Runs a compiled statement: a compile error is thrown before anything
     * changes; otherwise the counter takes the compiler's value and the
     * statement goes to exec() with the compiled map.
     */
    method Run(compiled: Result<(Sql, St)>, d: ExecDriver) returns (r: ExecResult)
      requires Valid()
      modifies this`guid, this`pdo, this`inTransaction, this`statement, this`logs, this`debugMode, this`errorInfo, this`echoed, pool
      ensures Valid()
      ensures match compiled
        case Err(e) => r == ExecThrew(e) && unchanged(this, pool)
        case Ok((q, s1)) => guid == s1.guid && Ran(q, s1.params, d, r)
    {
      if compiled.Err? {
        return ExecThrew(compiled.error);
      }
      guid := compiled.value.1.guid;
      r := Exec(compiled.value.0, compiled.value.1.params, d);
    }

    /** insert(): one INSERT of every row. */
    method Insert(table: string, values: PArray, d: ExecDriver) returns (r: ExecResult)
      requires Valid()
      modifies this`guid, this`pdo, this`inTransaction, this`statement, this`logs, this`debugMode, this`errorInfo, this`echoed, pool
      ensures Valid()
      ensures match InsertQuery(prefix, table, values, St([], old(guid)))
        case Err(e) => r == ExecThrew(e) && unchanged(this, pool)
        case Ok((q, s1)) => guid == s1.guid && Ran(q, s1.params, d, r)
    {
      r := Run(InsertQuery(prefix, table, values, St([], guid)), d);
    }

    /** update(): `UPDATE table SET ...` with the where clause, answering the row count. */
    method Update(table: string, data: Value, where: Value, d: ExecDriver, rowCount: nat) returns (r: Result<int>)
      requires Valid()
      modifies this`guid, this`pdo, this`inTransaction, this`statement, this`logs, this`debugMode, this`errorInfo, this`echoed, pool
      ensures Valid()
      ensures match UpdateQuery(prefix, table, data, where, St([], old(guid)))
        case Err(e) => r == Err(e) && unchanged(this, pool)
        case Ok((q, s1)) => guid == s1.guid && exists x :: Ran(q, s1.params, d, x) && r == RowCount(x, rowCount)
    {
      var x := Run(UpdateQuery(prefix, table, data, where, St([], guid)), d);
      r := RowCount(x, rowCount);
    }

    /** replace(): `UPDATE table SET c = REPLACE(c, a, b), ...` with the where clause. */
    method Replace(table: string, columns: PArray, where: Value, d: ExecDriver) returns (r: ExecResult)
      requires Valid()
      modifies this`guid, this`pdo, this`inTransaction, this`statement, this`logs, this`debugMode, this`errorInfo, this`echoed, pool
      ensures Valid()
      ensures match ReplaceQuery(prefix, table, columns, where, St([], old(guid)))
        case Err(e) => r == ExecThrew(e) && unchanged(this, pool)
        case Ok((q, s1)) => guid == s1.guid && Ran(q, s1.params, d, r)
    {
      r := Run(ReplaceQuery(prefix, table, columns, where, St([], guid)), d);
    }

    /**
     * delete(): `DELETE FROM table` with the where clause, answering the
     * statement's row count (`rowCount`, from the driver). Only a statement
     * has a row count: on false or an id the call itself fails.
     */
    method Delete(table: string, where: Value, d: ExecDriver, rowCount: nat) returns (r: Result<int>)
      requires Valid()
      modifies this`guid, this`pdo, this`inTransaction, this`statement, this`logs, this`debugMode, this`errorInfo, this`echoed, pool
      ensures Valid()
      ensures match DeleteQuery(prefix, table, where, St([], old(guid)))
        case Err(e) => r == Err(e) && unchanged(this, pool)
        case Ok((q, s1)) => guid == s1.guid && exists x :: Ran(q, s1.params, d, x) && r == RowCount(x, rowCount)
    {
      var x := Run(DeleteQuery(prefix, table, where, St([], guid)), d);
      r := RowCount(x, rowCount);
    }

    /** create(): `CREATE TABLE IF NOT EXISTS ...`, with no parameters. */
    method Create(table: string, columns: Value, options: Value, d: ExecDriver) returns (r: ExecResult)
      requires Valid()
      modifies this`guid, this`pdo, this`inTransaction, this`statement, this`logs, this`debugMode, this`errorInfo, this`echoed, pool
      ensures Valid()
      ensures match CreateQuery(prefix, table, columns, options)
        case Err(e) => r == ExecThrew(e) && unchanged(this, pool)
        case Ok(q) => guid == old(guid) && Ran(q, [], d, r)
    {
      var q := CreateQuery(prefix, table, columns, options);
      if q.Err? {
        return ExecThrew(q.error);
      }
      r := Exec(q.value, [], d);
    }

    /** drop(): `DROP TABLE IF EXISTS table`, with no parameters. */
    method Drop(table: string, d: ExecDriver) returns (r: ExecResult)
      requires Valid()
      modifies this`guid, this`pdo, this`inTransaction, this`statement, this`logs, this`debugMode, this`errorInfo, this`echoed, pool
      ensures Valid()
      ensures match DropQuery(prefix, table)
        case Err(e) => r == ExecThrew(e) && unchanged(this, pool)
        case Ok(q) => guid == old(guid) && Ran(q, [], d, r)
    {
      var q := DropQuery(prefix, table);
      if q.Err? {
        return ExecThrew(q.error);
      }
      r := Exec(q.value, [], d);
    }

    /**
     * select() without a callback: the rows the driver fetches (`rows`)
     * shaped by the column list selectContext() left; no statement gives
     * an empty list. `foreign` stands for unserialize() and json_decode().
     */
    method Select(table: string, join: Value, columns: Value, where: Value, d: ExecDriver, rows: seq<PArray>, foreign: (string, Value) -> Value) returns (r: Result<Value>)
      requires Valid()
      modifies this`guid, this`pdo, this`inTransaction, this`statement, this`logs, this`debugMode, this`errorInfo, this`echoed, pool
      ensures Valid()
      ensures match SelectContext(prefix, table, join, columns, where, Null, St([], old(guid)))
        case Err(e) => r == Err(e) && unchanged(this, pool)
        case Ok((q, cols, s1)) =>
          && guid == s1.guid
          && (exists x :: Ran(q, s1.params, d, x))
          && r == if !old(debugMode) && d.Raises? then Err(DriverError(d.msg))
                  else if statement.Some? && IdReturned(d) then SelectOnId(cols)
                  else SelectRows(cols, if where == Null then join else columns, if statement.Some? then Some(rows) else None, foreign)
    {
      var column := if where == Null then join else columns;
      var compiled := SelectContext(prefix, table, join, columns, where, Null, St([], guid));
      if compiled.Err? {
        return Err(compiled.error);
      }
      var (q, cols, s1) := compiled.value;
      guid := s1.guid;
      var x := Exec(q, s1.params, d);
      assert Ran(q, s1.params, d, x);
      if x.ExecThrew? {
        return Err(x.e);
      }
      if statement.Some? && x.ExecId? {
        return SelectOnId(cols);
      }
      r := SelectRows(cols, column, if statement.Some? then Some(rows) else None, foreign);
    }

    /** rand(): select() ordered by `RAND()`. */
    method Rand(table: string, join: Value, columns: Value, where: Value, d: ExecDriver, rows: seq<PArray>, foreign: (string, Value) -> Value) returns (r: Result<Value>)
      requires Valid()
      modifies this`guid, this`pdo, this`inTransaction, this`statement, this`logs, this`debugMode, this`errorInfo, this`echoed, pool
      ensures Valid()
      ensures RandArgs(join, columns, where).Err? ==> r == Err(RandArgs(join, columns, where).error) && unchanged(this, pool)
      ensures RandArgs(join, columns, where).Ok? ==>
        var (cols0, where0) := RandArgs(join, columns, where).value;
        match SelectContext(prefix, table, join, cols0, where0, Null, St([], old(guid)))
        case Err(e) => r == Err(e) && unchanged(this, pool)
        case Ok((q, cols, s1)) =>
          && guid == s1.guid
          && (exists x :: Ran(q, s1.params, d, x))
          && r == if !old(debugMode) && d.Raises? then Err(DriverError(d.msg))
                  else if statement.Some? && IdReturned(d) then SelectOnId(cols)
                  else SelectRows(cols, if where0 == Null then join else cols0, if statement.Some? then Some(rows) else None, foreign)
    {
      var args := RandArgs(join, columns, where);
      if args.Err? {
        return Err(args.error);
      }
      r := Select(table, join, args.value.0, args.value.1, d, rows, foreign);
    }

    /**
     * get(): the first fetched row (`rows`), shaped, or one value of it for
     * a single column; false without a statement and `[]` without a row.
     */
    method Get(table: string, join: Value, columns: Value, where: Value, d: ExecDriver, rows: seq<PArray>, foreign: (string, Value) -> Value) returns (r: Result<Value>)
      requires Valid()
      modifies this`guid, this`pdo, this`inTransaction, this`statement, this`logs, this`debugMode, this`errorInfo, this`echoed, pool
      ensures Valid()
      ensures match GetQuery(prefix, table, join, columns, where, St([], old(guid)))
        case Err(e) => r == Err(e) && unchanged(this, pool)
        case Ok((q, cols, column, s1)) =>
          && guid == s1.guid
          && (exists x :: Ran(q, s1.params, d, x))
          && r == if !old(debugMode) && d.Raises? then Err(DriverError(d.msg))
                  else if statement.Some? && IdReturned(d) then Err(Thrown(CallOnString("fetchAll")))
                  else GetRow(cols, column, if statement.Some? then Some(rows) else None, foreign)
    {
      var compiled := GetQuery(prefix, table, join, columns, where, St([], guid));
      if compiled.Err? {
        return Err(compiled.error);
      }
      var (q, cols, column, s1) := compiled.value;
      guid := s1.guid;
      var x := Exec(q, s1.params, d);
      assert Ran(q, s1.params, d, x);
      if x.ExecThrew? {
        return Err(x.e);
      }
      if statement.Some? && x.ExecId? {
        // get()'s catch turns the Error into an Exception with its message
        return Err(Thrown(CallOnString("fetchAll")));
      }
      r := GetRow(cols, column, if statement.Some? then Some(rows) else None, foreign);
    }

    /** has(): whether the fetched column (`fetched`) reads as true; false without a statement. */
    method Has(table: string, join: Value, where: Value, d: ExecDriver, fetched: Value) returns (r: Result<bool>)
      requires Valid()
      modifies this`guid, this`pdo, this`inTransaction, this`statement, this`logs, this`debugMode, this`errorInfo, this`echoed, pool
      ensures Valid()
      ensures match HasQuery(prefix, table, join, where, St([], old(guid)))
        case Err(e) => r == Err(e) && unchanged(this, pool)
        case Ok((q, s1)) =>
          && guid == s1.guid
          && (exists x :: Ran(q, s1.params, d, x))
          && r == if !old(debugMode) && d.Raises? then Err(DriverError(d.msg))
                  else if statement.Some? && IdReturned(d) then Err(TypeError(CallOnString("fetchColumn")))
                  else Ok(statement.Some? && Exists(fetched))
    {
      var compiled := HasQuery(prefix, table, join, where, St([], guid));
      if compiled.Err? {
        return Err(compiled.error);
      }
      var (q, s1) := compiled.value;
      guid := s1.guid;
      var x := Exec(q, s1.params, d);
      assert Ran(q, s1.params, d, x);
      if x.ExecThrew? {
        return Err(x.e);
      }
      if statement.Some? && x.ExecId? {
        return Err(TypeError(CallOnString("fetchColumn")));
      }
      r := Ok(statement.Some? && Exists(fetched));
    }

    /**
     * aggregate(): the fetched column as a string (`fetched`), or null
     * without a statement.
     */
    method Aggregate(fn: string, table: string, join: Value, column: Value, where: Value, d: ExecDriver, fetched: string) returns (r: Result<Option<string>>)
      requires Valid()
      modifies this`guid, this`pdo, this`inTransaction, this`statement, this`logs, this`debugMode, this`errorInfo, this`echoed, pool
      ensures Valid()
      ensures match AggregateQuery(prefix, fn, table, join, column, where, St([], old(guid)))
        case Err(e) => r == Err(e) && unchanged(this, pool)
        case Ok((q, s1)) =>
          && guid == s1.guid
          && (exists x :: Ran(q, s1.params, d, x))
          && r == if !old(debugMode) && d.Raises? then Err(DriverError(d.msg))
                  else if statement.Some? && IdReturned(d) then Err(TypeError(CallOnString("fetchColumn")))
                  else Ok(if statement.Some? then Some(fetched) else None)
    {
      var compiled := AggregateQuery(prefix, fn, table, join, column, where, St([], guid));
      if compiled.Err? {
        return Err(compiled.error);
      }
      var (q, s1) := compiled.value;
      guid := s1.guid;
      var x := Exec(q, s1.params, d);
      assert Ran(q, s1.params, d, x);
      if x.ExecThrew? {
        return Err(x.e);
      }
      if statement.Some? && x.ExecId? {
        return Err(TypeError(CallOnString("fetchColumn")));
      }
      r := Ok(if statement.Some? then Some(fetched) else None);
    }

    /** count(): the COUNT aggregate as an int, null reading as 0. */
    method Count(table: string, join: Value, column: Value, where: Value, d: ExecDriver, fetched: string) returns (r: Result<int>)
      requires Valid()
      modifies this`guid, this`pdo, this`inTransaction, this`statement, this`logs, this`debugMode, this`errorInfo, this`echoed, pool
      ensures Valid()
      ensures match AggregateQuery(prefix, "COUNT", table, join, column, where, St([], old(guid)))
        case Err(e) => r == Err(e) && unchanged(this, pool)
        case Ok((q, s1)) =>
          && guid == s1.guid
          && (exists x :: Ran(q, s1.params, d, x))
          && r == if !old(debugMode) && d.Raises? then Err(DriverError(d.msg))
                  else if statement.Some? && IdReturned(d) then Err(TypeError(CallOnString("fetchColumn")))
                  else Ok(CountOf(if statement.Some? then Some(fetched) else None))
    {
      var agg := Aggregate("COUNT", table, join, column, where, d, fetched);
      if agg.Err? {
        return Err(agg.error);
      }
      r := Ok(CountOf(agg.value));
    }

    // -------------------------------------------------------------------
    // Transactions

    /**
     * beginTransaction(): refused inside a transaction; otherwise a
     * connection is taken, the driver begins, and a rollback is deferred to
     * the end of the coroutine. When the driver fails, the connection taken
     * stays out of the pool.
     */
    method BeginTransaction(d: DriverCall) returns (r: Outcome)
      requires Valid()
      modifies this`pdo, this`inTransaction, this`deferred, this`sent, pool
      ensures Valid()
      ensures old(inTransaction) ==> r == Threw(TransactionActive) && unchanged(this, pool)
      ensures !old(inTransaction) ==>
        && pdo == Some(Conn(old(pool.taken))) && pool.taken == old(pool.taken) + 1
        && pool.returned == old(pool.returned)
        && match d
           case Fails(msg) =>
             r == Threw(DriverError(msg)) && !inTransaction && deferred == old(deferred) && sent == old(sent)
           case Succeeds =>
             r == Done && inTransaction && deferred == old(deferred) + 1 && sent == old(sent) + [(pdo.value, TxBegin)]
    {
      if inTransaction {
        return Threw(TransactionActive);
      }
      RealGetConn();
      match d
      case Fails(msg) =>
        r := Threw(DriverError(msg));
      case Succeeds =>
        sent := sent + [(pdo.value, TxBegin)];
        inTransaction := true;
        deferred := deferred + 1;
        r := Done;
    }

    /**
     * The body commit() and rollBack() share: the driver runs `op` on the
     * held connection, the flag clears and the connection goes back.
     * Anything that throws on the way, including a connection never taken,
     * is swallowed and changes nothing.
     */
    method EndTransaction(op: TxOp, d: DriverCall)
      requires Valid()
      modifies this`inTransaction, this`sent, pool
      ensures Valid()
      ensures pool.taken == old(pool.taken)
      ensures pdo.None? || d.Fails? ==> unchanged(this, pool)
      ensures pdo.Some? && d.Succeeds? ==>
        && !inTransaction
        && sent == old(sent) + [(pdo.value, op)]
        && pool.returned == old(pool.returned) + [pdo]
    {
      if pdo.None? || d.Fails? {
        return;
      }
      sent := sent + [(pdo.value, op)];
      inTransaction := false;
      var released := Release(pdo);
    }

    /** commit(): ends the transaction with COMMIT; driver errors are swallowed. */
    method Commit(d: DriverCall)
      requires Valid()
      modifies this`inTransaction, this`sent, pool
      ensures Valid()
      ensures pool.taken == old(pool.taken)
      ensures pdo.None? || d.Fails? ==> unchanged(this, pool)
      ensures pdo.Some? && d.Succeeds? ==>
        !inTransaction && sent == old(sent) + [(pdo.value, TxCommit)] && pool.returned == old(pool.returned) + [pdo]
    {
      EndTransaction(TxCommit, d);
    }

    /** rollBack(): ends the transaction with ROLLBACK; driver errors are swallowed. */
    method RollBack(d: DriverCall)
      requires Valid()
      modifies this`inTransaction, this`sent, pool
      ensures Valid()
      ensures pool.taken == old(pool.taken)
      ensures pdo.None? || d.Fails? ==> unchanged(this, pool)
      ensures pdo.Some? && d.Succeeds? ==>
        !inTransaction && sent == old(sent) + [(pdo.value, TxRollBack)] && pool.returned == old(pool.returned) + [pdo]
    {
      EndTransaction(TxRollBack, d);
    }

    /**
     * action(): begin, run the callback, then roll back when it returned
     * false or threw an Exception, and commit otherwise. An Error from the
     * callback is not caught by the inner handler, so the transaction stays
     * open until the deferred rollback. `begin` and `finish` are the
     * driver's answers to BEGIN and to COMMIT/ROLLBACK; what the callback
     * itself does to this object is not modelled.
     */
    method Action(cb: Callback, begin: DriverCall, finish: DriverCall) returns (r: ActionResult)
      requires Valid()
      modifies this`pdo, this`inTransaction, this`deferred, this`sent, pool
      ensures Valid()
      ensures old(inTransaction) ==> r == ActionThrew(TransactionActive) && unchanged(this, pool)
      ensures !old(inTransaction) && begin.Fails? ==>
        r == ActionThrew(DriverError(begin.msg)) && !inTransaction && sent == old(sent)
        && pool.returned == old(pool.returned)
      ensures !old(inTransaction) && begin.Succeeds? ==>
        var c := Conn(old(pool.taken));
        var finished := if finish.Succeeds? then [Some(c)] else [];
        && pdo == Some(c) && deferred == old(deferred) + 1
        && match cb
           case Returns(v) =>
             var op := if v == Bool(false) then TxRollBack else TxCommit;
             && r == Returned(v) && inTransaction == finish.Fails?
             && sent == old(sent) + [(c, TxBegin)] + (if finish.Succeeds? then [(c, op)] else [])
             && pool.returned == old(pool.returned) + finished
           case RaisesException(msg) =>
             && r == ActionThrew(Thrown(msg)) && inTransaction == finish.Fails?
             && sent == old(sent) + [(c, TxBegin)] + (if finish.Succeeds? then [(c, TxRollBack)] else [])
             && pool.returned == old(pool.returned) + finished
           case RaisesError(msg) =>
             && r == ActionThrew(Thrown(msg)) && inTransaction
             && sent == old(sent) + [(c, TxBegin)]
             && pool.returned == old(pool.returned)
    {
      var begun := BeginTransaction(begin);
      if begun.Threw? {
        return ActionThrew(begun.e);
      }
      match cb
      case Returns(v) =>
        if v == Bool(false) {
          RollBack(finish);
        } else {
          Commit(finish);
        }
        r := Returned(v);
      case RaisesException(msg) =>
        RollBack(finish);
        r := ActionThrew(Thrown(msg));
      case RaisesError(msg) =>
        r := ActionThrew(Thrown(msg));
    }

    /**
     * The end of the coroutine: every deferred closure runs, and rolls back
     * while a transaction is still open. `calls[i]` is the driver's answer
     * to the rollback the i-th closure would attempt.
     */
    method ScopeExit(calls: seq<DriverCall>)
      requires Valid() && |calls| == deferred
      modifies this`inTransaction, this`sent, this`deferred, pool
      ensures Valid() && deferred == 0 && pool.taken == old(pool.taken)
      ensures !inTransaction <==> !old(inTransaction) || exists i :: 0 <= i < |calls| && calls[i].Succeeds?
      ensures sent == old(sent) + (if old(inTransaction) && !inTransaction then [(pdo.value, TxRollBack)] else [])
      ensures pool.returned == old(pool.returned) + (if old(inTransaction) && !inTransaction then [pdo] else [])
    {
      var i := 0;
      while i < |calls|
        invariant 0 <= i <= |calls| && Valid()
        invariant pool.taken == old(pool.taken)
        invariant inTransaction == (old(inTransaction) && forall j :: 0 <= j < i ==> calls[j].Fails?)
        invariant sent == old(sent) + (if old(inTransaction) && !inTransaction then [(pdo.value, TxRollBack)] else [])
        invariant pool.returned == old(pool.returned) + (if old(inTransaction) && !inTransaction then [pdo] else [])
      {
        if inTransaction {
          RollBack(calls[i]);
        }
        i := i + 1;
      }
      deferred := 0;
    }
  }
}
