/**
 * Turning fetched rows back into the shape the caller asked for.
 * columnMap() records, for every projected column, the key its value comes
 * back under and its `[Type]` hint; dataMap() reads a row through that map,
 * applies the hint's cast and rebuilds named groups; select() and get()
 * then hand back all rows, one row, or one column's values.
 */
module Shaper {
  import opened Php
  import opened Patterns

  /** One columnMap() entry: `[$columnKey]` or `[$columnKey, $type]`. */
  datatype Mapped = Mapped(column: string, hint: Option<string>)

  type ColumnMap = seq<(Key, Mapped)>

  /** The key `$a[$v]` uses for a scalar `$v`; arrays and objects are an illegal offset. */
  function ArrayKey(v: Value): (r: Option<Key>)
    ensures r.Some? <==> Subject(v).Some?
  {
    match v
    case Null => Some(StrKey(""))
    case Bool(b) => Some(IntKey(if b then 1 else 0))
    case Int(i) => Some(NormKey(IntStr(i)))
    case Str(s) => Some(NormKey(s))
    case _ => None
  }

  const SubjectError := TypeError("preg_match(): Argument #2 ($subject) must be of type string")
  const OffsetError := TypeError("Illegal offset type")
  const ColumnsError := TypeError("dataMap(): Argument #2 ($columns) must be of type array")

  /**
   * What a matched column token maps to: its alias if it has one, else the
   * column, with its hint. A token that does not match at all leaves
   * `$keyMatch['column']` unset, so the key is null, which PHP stores as `""`.
   */
  function MappedOf(t: Option<ColumnToken>): (r: Mapped)
    ensures t.None? ==> r == Mapped("", None)
    ensures t.Some? ==> r.hint == t.value.hint
    ensures t.Some? && t.value.alias.Some? ==> r.column == t.value.alias.value
    ensures t.Some? && t.value.alias.None? ==> r.column == t.value.column
  {
    match t
    case None => Mapped("", None)
    case Some(c) => Mapped(if c.alias.Some? then c.alias.value else c.column, c.hint)
  }

  // ---------------------------------------------------------------------
  // columnMap()

  /**
   * columnMap(): `*` adds nothing; otherwise every entry of the column
   * list is recorded under the key dataMap() will look it up by.
   */
  function ColumnMapOf(columns: Value, stack: ColumnMap, root: bool): Result<ColumnMap>
    decreases columns, 2
  {
    if columns == Str("*") then Ok(stack)
    else if columns.Arr? then MapEntries(columns.entries, stack, root && |columns.entries| == 1)
    else Ok(stack)
  }

  function MapEntries(es: PArray, stack: ColumnMap, group: bool): Result<ColumnMap>
    decreases es, 1
  {
    if es == [] then Ok(stack)
    else
      var stack1 :- MapEntry(es[0], stack, group);
      MapEntries(es[1..], stack1, group)
  }

  /** One pass of columnMap()'s loop; `group` is `$root && count($columns) === 1`. */
  function MapEntry(e: (Key, Value), stack: ColumnMap, group: bool): Result<ColumnMap>
    decreases e, 0
  {
    var (k, v) := e;
    if k.IntKey? then
      match ArrayKey(v)
      case None => Err(SubjectError)
      case Some(key) => Ok(Put(stack, key, MappedOf(ParseMappedColumn(Subject(v).value, true))))
    else if v.Raw? then
      Ok(Put(stack, k, MappedOf(ParseMappedColumn(k.s, false))))
    else if v.Arr? then
      var stack1 := if group then Put(stack, k, Mapped(k.s, Some("String"))) else stack;
      ColumnMapOf(v, stack1, false)
    else Ok(stack)
  }

  /** `$columnMap[$k]`: a missing entry reads as null, whose `[0]` is null and whose `[1]` is unset. */
  function Lookup(cm: ColumnMap, k: Key): (r: Mapped)
    ensures !HasKey(cm, k) ==> r == Mapped("", None)
  {
    if HasKey(cm, k) then cm[IndexOf(cm, k)].1 else Mapped("", None)
  }

  // ---------------------------------------------------------------------
  // dataMap()

  /** `(int)$v` (the exponent form of numeric strings is not modelled). */
  function IntCast(v: Value): int {
    match v
    case Null => 0
    case Bool(b) => if b then 1 else 0
    case Int(i) => i
    case Str(s) => IntOfStr(s)
    case Arr(es) => if es == [] then 0 else 1
    case Raw(_) => 1
    case Obj(_) => 1
  }

  /**
   * The `switch ($map[1])` of dataMap() on a non-null item: Int, Bool and
   * String are PHP casts; Number, Object and JSON go through `foreign`
   * (the float cast, unserialize() and json_decode()). Any other hint
   * stores nothing.
   */
  function Cast(hint: string, item: Value, foreign: (string, Value) -> Value): (r: Result<Option<Value>>)
    ensures hint == "Int" ==> r == Ok(Some(Int(IntCast(item))))
    ensures hint == "Bool" ==> r == Ok(Some(Bool(!Empty(item))))
    ensures hint == "String" ==> (r.Ok? <==> StrCast(item).Some?)
    ensures hint == "String" && r.Ok? ==> r.value == Some(Str(StrCast(item).value))
    ensures hint !in AllTypes ==> r == Ok(None)
    ensures hint in AllTypes && r.Ok? ==> r.value.Some?
  {
    if hint == "Number" || hint == "Object" || hint == "JSON" then Ok(Some(foreign(hint, item)))
    else if hint == "Int" then Ok(Some(Int(IntCast(item))))
    else if hint == "Bool" then Ok(Some(Bool(!Empty(item))))
    else if hint == "String" then
      match StrCast(item)
      case None => Err(TypeError("Object could not be converted to string"))
      case Some(s) => Ok(Some(Str(s)))
    else Ok(None)
  }

  /** `$stack[$k] = $v` for every write in turn. */
  function PutAll(a: PArray, w: PArray): PArray
    decreases w
  {
    if w == [] then a else PutAll(Put(a, w[0].0, w[0].1), w[1..])
  }

  /**
   * The assignments one non-root pass of dataMap() makes to `$stack`, in
   * order: a column (int key, or raw value) is read from the row under
   * the key columnMap() recorded for it and cast by its hint; a named
   * group becomes the sub-array its own pass builds.
   */
  function DataWrites(data: PArray, es: PArray, cm: ColumnMap, foreign: (string, Value) -> Value): Result<PArray>
    decreases es, 1
  {
    if es == [] then Ok([])
    else
      var w :- DataWrite(data, es[0], cm, foreign);
      var rest :- DataWrites(data, es[1..], cm, foreign);
      Ok(w + rest)
  }

  function DataWrite(data: PArray, e: (Key, Value), cm: ColumnMap, foreign: (string, Value) -> Value): Result<PArray>
    decreases e, 0
  {
    var (k, v) := e;
    if k.IntKey? || v.Raw? then
      var mk :- if v.Raw? then Ok(k) else if ArrayKey(v).Some? then Ok(ArrayKey(v).value) else Err(OffsetError);
      var mapped := Lookup(cm, mk);
      var ck := NormKey(mapped.column);
      var item := Get(data, ck);
      if mapped.hint.None? then Ok([(ck, item)])
      else if v.Raw? && mapped.hint.value in ["Object", "JSON"] then Ok([])
      else if item == Null then Ok([(ck, Null)])
      else
        var c :- Cast(mapped.hint.value, item, foreign);
        Ok(if c.Some? then [(ck, c.value)] else [])
    else if v.Arr? then
      var sub :- DataWrites(data, v.entries, cm, foreign);
      Ok([(k, Arr(PutAll([], sub)))])
    else Err(ColumnsError)
  }

  /** `$result[] = $v`: the next int key is one past the largest int key, or 0. */
  function NextIndex(a: PArray): (r: int)
    ensures forall i :: 0 <= i < |a| && a[i].0.IntKey? ==> a[i].0.i < r
    ensures r >= 0
  {
    if a == [] then 0
    else
      var r := NextIndex(a[..|a| - 1]);
      var last := a[|a| - 1].0;
      if last.IntKey? && last.i >= r then last.i + 1 else r
  }

  function Append(a: PArray, v: Value): PArray {
    a + [(IntKey(NextIndex(a)), v)]
  }

  /**
   * The loop of dataMap()'s grouping branch, which runs once per column
   * of the row and redoes the same pass every time: `cur` is
   * `$currentStack`, `w` the pass's writes and `ik` the row's group key.
   */
  function GroupRepeat(n: nat, cur: PArray, w: PArray, ik: Key, result: PArray): PArray
    decreases n
  {
    if n == 0 then result
    else
      var cur1 := PutAll(cur, w);
      GroupRepeat(n - 1, cur1, w, ik, Put(result, ik, Arr(cur1)))
  }

  /**
   * dataMap() at the root for one row, with `$result` passed: a column list
   * that is a single named group stores the row under the group column's
   * value (its `table.` prefix stripped); any other list appends the row.
   */
  function DataRow(data: PArray, columns: PArray, cm: ColumnMap, result: PArray, foreign: (string, Value) -> Value): Result<PArray>
  {
    if |columns| == 1 && columns[0].1.Arr? then
      if data == [] then Ok(result)
      else
        var w :- DataWrites(data, columns[0].1.entries, cm, foreign);
        var dataKey := StripTable(KeyStr(columns[0].0));
        match ArrayKey(Get(data, NormKey(dataKey)))
        case None => Err(OffsetError)
        case Some(ik) => Ok(GroupRepeat(|data|, [], w, ik, result))
    else
      var w :- DataWrites(data, columns, cm, foreign);
      Ok(Append(result, Arr(PutAll([], w))))
  }

  // ---------------------------------------------------------------------
  // What select() and get() return

  /** `is_string($column) && $column !== '*'`. */
  predicate IsSingle(column: Value) {
    column.Str? && column.s != "*"
  }

  /** `$v[$k]` on a row: null when the row is not an array or lacks the key. */
  function Index(v: Value, k: Key): Value {
    if v.Arr? then Get(v.entries, k) else Null
  }

  /** `$columnMap[$column][0]` as a key: the key select() and get() read a single column by. */
  function SingleKey(cm: ColumnMap, column: string): Key {
    NormKey(Lookup(cm, NormKey(column)).column)
  }

  /**
   * The key a single column should be read by: the column as columnPush()
   * rewrote it (its alias when it has one), which is what columnMap()
   * recorded; a lone string column is always rewritten to a one-entry list.
   */
  function ResultKey(cm: ColumnMap, columns: Value, column: string): Key {
    if columns.Arr? && |columns.entries| == 1 && columns.entries[0].1.Str? then SingleKey(cm, columns.entries[0].1.s)
    else SingleKey(cm, column)
  }

  /** `[$item[$k] for each $item]`, as a list. */
  function Column(result: PArray, k: Key): (r: PArray)
    ensures |r| == |result|
    ensures forall i :: 0 <= i < |r| ==> r[i] == (IntKey(i), Index(result[i].1, k))
  {
    seq(|result|, i requires 0 <= i < |result| => (IntKey(i), Index(result[i].1, k)))
  }

  /** `$statement->fetchAll()` as a PHP list. */
  function Rows(rows: seq<PArray>): (r: PArray)
    ensures |r| == |rows|
    ensures forall i :: 0 <= i < |r| ==> r[i] == (IntKey(i), Arr(rows[i]))
  {
    seq(|rows|, i requires 0 <= i < |rows| => (IntKey(i), Arr(rows[i])))
  }

  /** The loop of select() that passes every fetched row through dataMap(). */
  function ShapeRows(rows: seq<PArray>, columns: Value, cm: ColumnMap, result: PArray, foreign: (string, Value) -> Value): Result<PArray>
    decreases |rows|
  {
    if rows == [] then Ok(result)
    else if !columns.Arr? then Err(ColumnsError)
    else
      var result1 :- DataRow(rows[0], columns.entries, cm, result, foreign);
      ShapeRows(rows[1..], columns, cm, result1, foreign)
  }

  /**
   * select() without a callback, once the statement ran: `columns` is the
   * column list as selectContext() rewrote it, `cm` its column map,
   * `column` the argument the single-column flag was read from, `rows` the
   * fetched rows or None when there is no statement, and `key` the key a
   * single column is read by.
   */
  function SelectShape(columns: Value, cm: ColumnMap, column: Value, rows: Option<seq<PArray>>, key: Key, foreign: (string, Value) -> Value): Result<Value> {
    if rows.None? then Ok(Arr([]))
    else if columns == Str("*") then Ok(Arr(Rows(rows.value)))
    else
      var result :- ShapeRows(rows.value, columns, cm, [], foreign);
      if IsSingle(column) then Ok(Arr(Column(result, key)))
      else Ok(Arr(result))
  }

  /** The text of a single-column argument. */
  function ColumnText(column: Value): string {
    if column.Str? then column.s else ""
  }

  /** select() as written: a single column is read by `$columnMap[$column][0]`. */
  function SelectRowsAsWritten(columns: Value, column: Value, rows: Option<seq<PArray>>, foreign: (string, Value) -> Value): Result<Value> {
    var cm :- ColumnMapOf(columns, [], true);
    SelectShape(columns, cm, column, rows, SingleKey(cm, ColumnText(column)), foreign)
  }

  /** select() with a single column read by the key its rewritten column was recorded under. */
  function SelectRows(columns: Value, column: Value, rows: Option<seq<PArray>>, foreign: (string, Value) -> Value): Result<Value> {
    var cm :- ColumnMapOf(columns, [], true);
    SelectShape(columns, cm, column, rows, ResultKey(cm, columns, ColumnText(column)), foreign)
  }

  /**
   * get() once the statement ran: false without a statement, `[]` without
   * a row, the first row as fetched for `*`, else the first row shaped,
   * or one value of it for a single column, read by `key`.
   */
  function GetShape(columns: Value, cm: ColumnMap, column: Value, rows: seq<PArray>, key: Key, foreign: (string, Value) -> Value): Result<Value>
    requires rows != [] && column != Str("*")
  {
    if !columns.Arr? then Err(ColumnsError)
    else
      var result :- DataRow(rows[0], columns.entries, cm, [], foreign);
      var first := Get(result, IntKey(0));
      if IsSingle(column) then Ok(Index(first, key)) else Ok(first)
  }

  /** get() as written: a single column is read by `$columnMap[$column][0]`. */
  function GetRowAsWritten(columns: Value, column: Value, rows: Option<seq<PArray>>, foreign: (string, Value) -> Value): Result<Value> {
    if rows.None? then Ok(Bool(false))
    else if rows.value == [] then Ok(Arr([]))
    else if column == Str("*") then Ok(Arr(rows.value[0]))
    else
      var cm :- ColumnMapOf(columns, [], true);
      GetShape(columns, cm, column, rows.value, SingleKey(cm, ColumnText(column)), foreign)
  }

  /** get() with a single column read by the key its rewritten column was recorded under. */
  function GetRow(columns: Value, column: Value, rows: Option<seq<PArray>>, foreign: (string, Value) -> Value): Result<Value> {
    if rows.None? then Ok(Bool(false))
    else if rows.value == [] then Ok(Arr([]))
    else if column == Str("*") then Ok(Arr(rows.value[0]))
    else
      var cm :- ColumnMapOf(columns, [], true);
      GetShape(columns, cm, column, rows.value, ResultKey(cm, columns, ColumnText(column)), foreign)
  }

  // ---------------------------------------------------------------------
  // `$stack[$k] = $v`, repeated

  lemma PutFacts(a: PArray, k: Key, v: Value)
    requires UniqueKeys(a)
    ensures var r := Put(a, k, v);
      && UniqueKeys(r) && HasKey(r, k) && |r| >= |a|
      && (HasKey(a, k) ==> |r| == |a|)
      && (forall i :: 0 <= i < |a| ==> r[i].0 == a[i].0 && (a[i].0 != k ==> r[i] == a[i]))
      && (forall i :: |a| <= i < |r| ==> r[i].0 == k)
      && (forall i :: 0 <= i < |r| && r[i].0 == k ==> r[i].1 == v)
  {
    var r := Put(a, k, v);
    if HasKey(a, k) {
      var x := IndexOf(a, k);
      assert r == a[x := (k, v)];
      assert r[x].0 == k;
      forall i | 0 <= i < |r| && r[i].0 == k ensures r[i].1 == v {
        assert a[x].0 == k;
      }
    } else {
      assert r == a + [(k, v)];
      assert r[|a|].0 == k;
    }
  }

  /** The value the last write to `k` stores. */
  function LastWrite(w: PArray, k: Key): Value
    requires HasKey(w, k)
    decreases |w|
  {
    if HasKey(w[1..], k) then LastWrite(w[1..], k)
    else
      assert w[0].0 == k by { HasKeyFront(w, k); }
      w[0].1
  }

  lemma HasKeyTail(w: PArray, k: Key)
    requires w != [] && HasKey(w[1..], k)
    ensures HasKey(w, k)
  {
    var i :| 0 <= i < |w[1..]| && w[1..][i].0 == k;
    assert w[i + 1].0 == k;
  }

  lemma HasKeyFront(w: PArray, k: Key)
    requires HasKey(w, k)
    ensures w[0].0 == k || HasKey(w[1..], k)
  {
    var i :| 0 <= i < |w| && w[i].0 == k;
    if i > 0 { assert w[1..][i - 1].0 == k; }
  }

  /**
   * What a run of writes leaves: the keys already there stay where they
   * are, new keys come after them, every written key ends up holding its
   * last write and every other entry is untouched.
   */
  lemma {:induction false} PutAllFacts(t: PArray, w: PArray)
    requires UniqueKeys(t)
    ensures var r := PutAll(t, w);
      && UniqueKeys(r) && |r| >= |t|
      && (forall i :: 0 <= i < |t| ==> r[i].0 == t[i].0 && (!HasKey(w, t[i].0) ==> r[i] == t[i]))
      && (forall i :: |t| <= i < |r| ==> HasKey(w, r[i].0))
      && (forall i :: 0 <= i < |r| && HasKey(w, r[i].0) ==> r[i].1 == LastWrite(w, r[i].0))
      && (forall j :: 0 <= j < |w| ==> HasKey(r, w[j].0))
      && ((forall j :: 0 <= j < |w| ==> HasKey(t, w[j].0)) ==> |r| == |t|)
    decreases w
  {
    if w != [] {
      var (k, v) := w[0];
      var w' := w[1..];
      var t' := Put(t, k, v);
      PutFacts(t, k, v);
      PutAllFacts(t', w');
      var r := PutAll(t', w');
      assert r == PutAll(t, w);
      forall i | 0 <= i < |t| && !HasKey(w, t[i].0) ensures r[i] == t[i] {
        if HasKey(w', t[i].0) { HasKeyTail(w, t[i].0); }
        assert t[i].0 != k;
      }
      forall i | |t| <= i < |r| ensures HasKey(w, r[i].0) {
        if i < |t'| { assert r[i].0 == t'[i].0 == k; }
        else { HasKeyTail(w, r[i].0); }
      }
      forall i | 0 <= i < |r| && HasKey(w, r[i].0) ensures r[i].1 == LastWrite(w, r[i].0) {
        var x := r[i].0;
        if !HasKey(w', x) {
          HasKeyFront(w, x);
          assert i < |t'|;
          assert r[i] == t'[i];
        }
      }
      forall j | 0 <= j < |w| ensures HasKey(r, w[j].0) {
        if j == 0 {
          var x := IndexOf(t', k);
          assert r[x].0 == k;
        } else {
          assert w[j] == w'[j - 1];
        }
      }
      if forall j :: 0 <= j < |w| ==> HasKey(t, w[j].0) {
        forall j | 0 <= j < |w'| ensures HasKey(t', w'[j].0) {
          assert w'[j] == w[j + 1];
          var x := IndexOf(t, w[j + 1].0);
          assert t'[x].0 == w'[j].0;
        }
      }
    }
  }

  /** Redoing the same writes changes nothing. */
  lemma PutAllTwice(w: PArray)
    ensures PutAll(PutAll([], w), w) == PutAll([], w)
  {
    var p := PutAll([], w);
    PutAllFacts([], w);
    PutAllFacts(p, w);
    var q := PutAll(p, w);
    assert |q| == |p|;
    forall i | 0 <= i < |q| ensures q[i] == p[i] {
      if HasKey(w, p[i].0) {
        assert q[i].1 == LastWrite(w, q[i].0);
      }
    }
  }

  lemma PutTwice(a: PArray, k: Key, x: Value, y: Value)
    ensures Put(Put(a, k, x), k, y) == Put(a, k, y)
  {
    if !HasKey(a, k) {
      var b := a + [(k, x)];
      assert b[|a|].0 == k;
      assert IndexOf(b, k) == |a|;
      assert HasKey(b, k);
      assert Put(b, k, y) == b[|a| := (k, y)] == a + [(k, y)];
    }
  }

  /** dataMap()'s grouping loop ends as one pass would. */
  lemma {:induction false} GroupRepeatOnce(n: nat, w: PArray, ik: Key, result: PArray)
    requires n >= 1
    ensures GroupRepeat(n, [], w, ik, result) == Put(result, ik, Arr(PutAll([], w)))
  {
    var p := PutAll([], w);
    assert GroupRepeat(n, [], w, ik, result) == GroupRepeat(n - 1, p, w, ik, Put(result, ik, Arr(p)));
    GroupRepeatSettled(n - 1, w, ik, result);
  }

  lemma {:induction false} GroupRepeatSettled(n: nat, w: PArray, ik: Key, result: PArray)
    ensures var p := PutAll([], w);
      GroupRepeat(n, p, w, ik, Put(result, ik, Arr(p))) == Put(result, ik, Arr(p))
    decreases n
  {
    var p := PutAll([], w);
    if n > 0 {
      var r := Put(result, ik, Arr(p));
      PutAllTwice(w);
      PutTwice(result, ik, Arr(p), Arr(p));
      GroupRepeatFixed(n, p, w, ik, r);
      GroupRepeatSettled(n - 1, w, ik, result);
    }
  }

  /** A pass that rewrites nothing leaves one pass fewer to go. */
  lemma GroupRepeatFixed(n: nat, p: PArray, w: PArray, ik: Key, r: PArray)
    requires n > 0 && PutAll(p, w) == p && Put(r, ik, Arr(p)) == r
    ensures GroupRepeat(n, p, w, ik, r) == GroupRepeat(n - 1, p, w, ik, r)
  {
  }

  // ---------------------------------------------------------------------
  // Rows grouped under a column's value

  /**
   * A single named group `g => [...]` stores the row under the row's value
   * of `g` (with any `table.` prefix dropped), holding what one pass of
   * the group's columns builds.
   */
  lemma GroupedRow(data: PArray, g: string, inner: PArray, cm: ColumnMap, result: PArray, foreign: (string, Value) -> Value)
    requires data != []
    requires DataWrites(data, inner, cm, foreign).Ok?
    requires ArrayKey(Get(data, NormKey(StripTable(g)))).Some?
    ensures DataRow(data, [(StrKey(g), Arr(inner))], cm, result, foreign) ==
      Ok(Put(result, ArrayKey(Get(data, NormKey(StripTable(g)))).value, Arr(PutAll([], DataWrites(data, inner, cm, foreign).value))))
  {
    var w := DataWrites(data, inner, cm, foreign).value;
    var ik := ArrayKey(Get(data, NormKey(StripTable(g)))).value;
    assert KeyStr(StrKey(g)) == g;
    GroupRepeatOnce(|data|, w, ik, result);
  }

  /** A later row with the same group value replaces the earlier one in place. */
  lemma SameGroupOverwrites(d1: PArray, d2: PArray, g: string, inner: PArray, cm: ColumnMap, result: PArray, foreign: (string, Value) -> Value)
    requires d1 != [] && d2 != []
    requires DataWrites(d1, inner, cm, foreign).Ok? && DataWrites(d2, inner, cm, foreign).Ok?
    requires ArrayKey(Get(d1, NormKey(StripTable(g)))).Some?
    requires ArrayKey(Get(d2, NormKey(StripTable(g)))) == ArrayKey(Get(d1, NormKey(StripTable(g))))
    ensures var cols := [(StrKey(g), Arr(inner))];
      var r1 := DataRow(d1, cols, cm, result, foreign);
      r1.Ok? && DataRow(d2, cols, cm, r1.value, foreign) == DataRow(d2, cols, cm, result, foreign)
  {
    var cols := [(StrKey(g), Arr(inner))];
    var ik := ArrayKey(Get(d1, NormKey(StripTable(g)))).value;
    var a := Arr(PutAll([], DataWrites(d1, inner, cm, foreign).value));
    var b := Arr(PutAll([], DataWrites(d2, inner, cm, foreign).value));
    GroupedRow(d1, g, inner, cm, result, foreign);
    GroupedRow(d2, g, inner, cm, Put(result, ik, a), foreign);
    GroupedRow(d2, g, inner, cm, result, foreign);
    PutTwice(result, ik, a, b);
  }

  // ---------------------------------------------------------------------
  // A single column

  /** A name is never a decimal, so PHP keeps it as a string key. */
  lemma NameKey(a: string)
    requires IsName(a)
    ensures NormKey(a) == StrKey(a)
  {
    assert !IsDigit(a[0]) && a[0] != '-';
  }

  /** A plain name, read as a mapped column, is itself with no alias and no hint. */
  lemma PlainMappedColumn(a: string, withAlias: bool)
    requires IsName(a)
    ensures ParseMappedColumn(a, withAlias) == Some(ColumnToken(a, None, None))
  {
    NameRunEndAt(a, 1, |a|);
    assert a[0..|a|] == a;
  }

  lemma PlainColumnMap(a: string)
    requires IsName(a)
    ensures ColumnMapOf(Arr([(IntKey(0), Str(a))]), [], true) == Ok([(StrKey(a), Mapped(a, None))])
  {
    NameKey(a);
    PlainMappedColumn(a, true);
    var es := [(IntKey(0), Str(a))];
    var cm := [(StrKey(a), Mapped(a, None))];
    assert ArrayKey(Str(a)) == Some(StrKey(a));
    assert MappedOf(ParseMappedColumn(a, true)) == Mapped(a, None);
    assert Put([], StrKey(a), Mapped(a, None)) == cm;
    assert MapEntry(es[0], [], true) == Ok(cm);
    assert es[1..] == [];
    assert MapEntries(es, [], true) == MapEntries(es[1..], cm, true);
  }

  /** One pass over the single plain column `a` reads the row's `a`. */
  lemma SingleColumnWrites(row: PArray, a: string, foreign: (string, Value) -> Value)
    requires IsName(a)
    ensures DataWrites(row, [(IntKey(0), Str(a))], [(StrKey(a), Mapped(a, None))], foreign) == Ok([(StrKey(a), Get(row, StrKey(a)))])
  {
    NameKey(a);
    var cols := [(IntKey(0), Str(a))];
    var cm := [(StrKey(a), Mapped(a, None))];
    assert cm[0].0 == StrKey(a);
    assert Lookup(cm, StrKey(a)) == Mapped(a, None);
    assert ArrayKey(Str(a)) == Some(StrKey(a));
    assert DataWrite(row, cols[0], cm, foreign) == Ok([(StrKey(a), Get(row, StrKey(a)))]);
    assert cols[1..] == [];
    assert DataWrites(row, cols[1..], cm, foreign) == Ok([]);
    assert [(StrKey(a), Get(row, StrKey(a)))] + [] == [(StrKey(a), Get(row, StrKey(a)))];
  }

  /** A list whose keys are 0, 1, ... appends at its length. */
  lemma {:induction false} NextIndexOfList(a: PArray)
    requires forall i :: 0 <= i < |a| ==> a[i].0 == IntKey(i)
    ensures NextIndex(a) == |a|
    decreases |a|
  {
    if a != [] {
      NextIndexOfList(a[..|a| - 1]);
    }
  }

  /** What select() builds for a single plain column `a`: one `[a => value]` row per fetched row. */
  function SingleRows(rows: seq<PArray>, a: string, from: nat): (r: PArray)
    ensures |r| == |rows|
    ensures forall i :: 0 <= i < |rows| ==> r[i] == (IntKey(from + i), Arr([(StrKey(a), Get(rows[i], StrKey(a)))]))
  {
    seq(|rows|, i requires 0 <= i < |rows| => (IntKey(from + i), Arr([(StrKey(a), Get(rows[i], StrKey(a)))])))
  }

  /** One more row of the single column `a` appended to a list. */
  lemma SingleRow(row: PArray, a: string, prefix: PArray, foreign: (string, Value) -> Value)
    requires IsName(a)
    requires forall i :: 0 <= i < |prefix| ==> prefix[i].0 == IntKey(i)
    ensures DataRow(row, [(IntKey(0), Str(a))], [(StrKey(a), Mapped(a, None))], prefix, foreign) ==
      Ok(prefix + [(IntKey(|prefix|), Arr([(StrKey(a), Get(row, StrKey(a)))]))])
  {
    var item := Get(row, StrKey(a));
    SingleColumnWrites(row, a, foreign);
    assert Put([], StrKey(a), item) == [(StrKey(a), item)];
    assert PutAll([], [(StrKey(a), item)]) == [(StrKey(a), item)];
    NextIndexOfList(prefix);
  }

  lemma {:induction false} ShapeSingleRows(rows: seq<PArray>, a: string, prefix: PArray, foreign: (string, Value) -> Value)
    requires IsName(a)
    requires forall i :: 0 <= i < |prefix| ==> prefix[i].0 == IntKey(i)
    ensures ShapeRows(rows, Arr([(IntKey(0), Str(a))]), [(StrKey(a), Mapped(a, None))], prefix, foreign) ==
      Ok(prefix + SingleRows(rows, a, |prefix|))
    decreases |rows|
  {
    var cols := Arr([(IntKey(0), Str(a))]);
    var cm := [(StrKey(a), Mapped(a, None))];
    if rows != [] {
      var x := (IntKey(|prefix|), Arr([(StrKey(a), Get(rows[0], StrKey(a)))]));
      SingleRow(rows[0], a, prefix, foreign);
      var p1 := prefix + [x];
      assert forall i :: 0 <= i < |p1| ==> p1[i].0 == IntKey(i);
      assert ShapeRows(rows, cols, cm, prefix, foreign) == ShapeRows(rows[1..], cols, cm, p1, foreign);
      ShapeSingleRows(rows[1..], a, p1, foreign);
      SingleRowsCons(rows, a, |prefix|);
      Assoc(prefix, [x], SingleRows(rows[1..], a, |p1|));
    } else {
      assert SingleRows(rows, a, |prefix|) == [];
      assert prefix + [] == prefix;
    }
  }

  lemma Assoc<T>(a: seq<T>, b: seq<T>, c: seq<T>)
    ensures (a + b) + c == a + (b + c)
  {
  }

  lemma SingleRowsCons(rows: seq<PArray>, a: string, from: nat)
    requires rows != []
    ensures SingleRows(rows, a, from) ==
      [(IntKey(from), Arr([(StrKey(a), Get(rows[0], StrKey(a)))]))] + SingleRows(rows[1..], a, from + 1)
  {
  }

  lemma GetSingle(k: Key, x: Value, k2: Key)
    ensures Get([(k, x)], k2) == if k == k2 then x else Null
  {
    if k == k2 { assert [(k, x)][0].0 == k2; }
  }

  /** Reading key `k` out of each single-column row. */
  lemma ColumnOfSingleRows(rows: seq<PArray>, a: string, k: Key)
    ensures Column(SingleRows(rows, a, 0), k) ==
      seq(|rows|, i requires 0 <= i < |rows| => (IntKey(i), if k == StrKey(a) then Get(rows[i], StrKey(a)) else Null))
  {
    var r := SingleRows(rows, a, 0);
    forall i | 0 <= i < |rows| ensures Index(r[i].1, k) == if k == StrKey(a) then Get(rows[i], StrKey(a)) else Null {
      GetSingle(StrKey(a), Get(rows[i], StrKey(a)), k);
    }
  }

  /** The one-column list `[a]` with its column map and shaped rows. */
  lemma SingleColumnSelect(a: string, rows: seq<PArray>, foreign: (string, Value) -> Value)
    requires IsName(a)
    ensures var columns := Arr([(IntKey(0), Str(a))]);
      && ColumnMapOf(columns, [], true) == Ok([(StrKey(a), Mapped(a, None))])
      && ShapeRows(rows, columns, [(StrKey(a), Mapped(a, None))], [], foreign) == Ok(SingleRows(rows, a, 0))
  {
    PlainColumnMap(a);
    ShapeSingleRows(rows, a, [], foreign);
    assert [] + SingleRows(rows, a, 0) == SingleRows(rows, a, 0);
  }

  /** `select(table, 'a')` returns every row's `a`, in order. */
  lemma SelectSingleColumn(a: string, rows: seq<PArray>, foreign: (string, Value) -> Value)
    requires IsName(a)
    ensures SelectRows(Arr([(IntKey(0), Str(a))]), Str(a), Some(rows), foreign) ==
      Ok(Arr(seq(|rows|, i requires 0 <= i < |rows| => (IntKey(i), Get(rows[i], StrKey(a))))))
  {
    SelectAliasedColumn(a, a, rows, foreign);
  }

  /**
   * After columnPush() rewrote an aliased lone column to its alias `a`,
   * select() returns every row's `a`, whatever the column was written as.
   */
  lemma SelectAliasedColumn(c: string, a: string, rows: seq<PArray>, foreign: (string, Value) -> Value)
    requires IsName(a) && c != "*"
    ensures SelectRows(Arr([(IntKey(0), Str(a))]), Str(c), Some(rows), foreign) ==
      Ok(Arr(seq(|rows|, i requires 0 <= i < |rows| => (IntKey(i), Get(rows[i], StrKey(a))))))
  {
    var columns := Arr([(IntKey(0), Str(a))]);
    var cm := [(StrKey(a), Mapped(a, None))];
    SingleColumnSelect(a, rows, foreign);
    assert ResultKey(cm, columns, c) == StrKey(a) by {
      NameKey(a);
      assert cm[0].0 == StrKey(a);
    }
    var result := SingleRows(rows, a, 0);
    assert SelectRows(columns, Str(c), Some(rows), foreign) == Ok(Arr(Column(result, StrKey(a))));
    ColumnOfSingleRows(rows, a, StrKey(a));
    var expected := seq(|rows|, i requires 0 <= i < |rows| => (IntKey(i), Get(rows[i], StrKey(a))));
    assert Column(result, StrKey(a)) == expected;
  }

  /**
   * As written, the same selection reads every shaped row by
   * `$columnMap['c(a)'][0]`, which columnMap() never recorded, so every
   * value comes back null.
   */
  lemma SelectAliasedColumnAsWritten(c: string, a: string, rows: seq<PArray>, foreign: (string, Value) -> Value)
    requires IsName(c) && IsName(a)
    ensures SelectRowsAsWritten(Arr([(IntKey(0), Str(a))]), Str(c + "(" + a + ")"), Some(rows), foreign) ==
      Ok(Arr(seq(|rows|, i requires 0 <= i < |rows| => (IntKey(i), Null))))
  {
    var s := c + "(" + a + ")";
    var columns := Arr([(IntKey(0), Str(a))]);
    var cm := [(StrKey(a), Mapped(a, None))];
    SingleColumnSelect(a, rows, foreign);
    assert SingleKey(cm, s) == StrKey("") by {
      assert s[|c|] == '(';
      assert NormKey(s) == StrKey(s) by { assert !IsDigit(s[0]) && s[0] != '-'; }
      assert StrKey(s) != StrKey(a) by {
        assert forall i :: 0 <= i < |a| ==> a[i] != '(';
      }
      assert !HasKey(cm, StrKey(s));
    }
    assert s != "*" by { assert s[|c|] == '('; }
    var result := SingleRows(rows, a, 0);
    assert SelectRowsAsWritten(columns, Str(s), Some(rows), foreign) == Ok(Arr(Column(result, StrKey(""))));
    assert StrKey("") != StrKey(a);
    ColumnOfSingleRows(rows, a, StrKey(""));
    var expected := seq(|rows|, i requires 0 <= i < |rows| => (IntKey(i), Null));
    assert Column(result, StrKey("")) == expected;
  }

  /** As written, the row `['a' => 'x']` of `select(table, 'c(a)')` comes back as `[null]`. */
  lemma AliasedColumnReadsNull(foreign: (string, Value) -> Value)
    ensures SelectRowsAsWritten(Arr([(IntKey(0), Str("a"))]), Str("c(a)"), Some([[(StrKey("a"), Str("x"))]]), foreign) ==
      Ok(Arr([(IntKey(0), Null)]))
  {
    var rows := [[(StrKey("a"), Str("x"))]];
    assert "c" + "(" + "a" + ")" == "c(a)";
    SelectAliasedColumnAsWritten("c", "a", rows, foreign);
    assert seq(|rows|, i requires 0 <= i < |rows| => (IntKey(i), Null)) == [(IntKey(0), Null)];
  }

  /** Read by its rewritten key, the same row comes back as `['x']`. */
  lemma AliasedColumnReadsValue(foreign: (string, Value) -> Value)
    ensures SelectRows(Arr([(IntKey(0), Str("a"))]), Str("c(a)"), Some([[(StrKey("a"), Str("x"))]]), foreign) ==
      Ok(Arr([(IntKey(0), Str("x"))]))
  {
    var rows := [[(StrKey("a"), Str("x"))]];
    SelectAliasedColumn("c(a)", "a", rows, foreign);
    GetSingle(StrKey("a"), Str("x"), StrKey("a"));
    assert seq(|rows|, i requires 0 <= i < |rows| => (IntKey(i), Get(rows[i], StrKey("a")))) == [(IntKey(0), Str("x"))];
  }

  /** get() on the single column `a`: the first row's `a`, read by key `k`. */
  lemma GetSingleColumn(a: string, c: string, rows: seq<PArray>, k: Key, foreign: (string, Value) -> Value)
    requires IsName(a) && rows != [] && c != "*"
    ensures GetShape(Arr([(IntKey(0), Str(a))]), [(StrKey(a), Mapped(a, None))], Str(c), rows, k, foreign) ==
      Ok(if k == StrKey(a) then Get(rows[0], StrKey(a)) else Null)
  {
    var x := Get(rows[0], StrKey(a));
    SingleRow(rows[0], a, [], foreign);
    assert [] + [(IntKey(0), Arr([(StrKey(a), x)]))] == [(IntKey(0), Arr([(StrKey(a), x)]))];
    GetSingle(IntKey(0), Arr([(StrKey(a), x)]), IntKey(0));
    GetSingle(StrKey(a), x, k);
  }

  /**
   * After columnPush() rewrote an aliased lone column to its alias `a`,
   * get() returns the first row's `a`, false without a statement and `[]`
   * without a row.
   */
  lemma GetAliasedColumn(c: string, a: string, rows: Option<seq<PArray>>, foreign: (string, Value) -> Value)
    requires IsName(a) && c != "*"
    ensures GetRow(Arr([(IntKey(0), Str(a))]), Str(c), rows, foreign) ==
      if rows.None? then Ok(Bool(false))
      else if rows.value == [] then Ok(Arr([]))
      else Ok(Get(rows.value[0], StrKey(a)))
  {
    if rows.Some? && rows.value != [] {
      var columns := Arr([(IntKey(0), Str(a))]);
      var cm := [(StrKey(a), Mapped(a, None))];
      PlainColumnMap(a);
      assert ResultKey(cm, columns, c) == StrKey(a) by {
        NameKey(a);
        assert cm[0].0 == StrKey(a);
      }
      GetSingleColumn(a, c, rows.value, StrKey(a), foreign);
    }
  }

  /** As written, get() on the column written `c(a)` returns null for every fetched row. */
  lemma GetAliasedColumnAsWritten(c: string, a: string, rows: seq<PArray>, foreign: (string, Value) -> Value)
    requires IsName(c) && IsName(a) && rows != []
    ensures GetRowAsWritten(Arr([(IntKey(0), Str(a))]), Str(c + "(" + a + ")"), Some(rows), foreign) == Ok(Null)
  {
    var s := c + "(" + a + ")";
    var columns := Arr([(IntKey(0), Str(a))]);
    var cm := [(StrKey(a), Mapped(a, None))];
    PlainColumnMap(a);
    assert SingleKey(cm, s) == StrKey("") by {
      assert s[|c|] == '(';
      assert NormKey(s) == StrKey(s) by { assert !IsDigit(s[0]) && s[0] != '-'; }
      assert StrKey(s) != StrKey(a) by {
        assert forall i :: 0 <= i < |a| ==> a[i] != '(';
      }
      assert !HasKey(cm, StrKey(s));
    }
    assert s != "*" by { assert s[|c|] == '('; }
    GetSingleColumn(a, s, rows, StrKey(""), foreign);
  }

  /** As written, `get(table, 'c(a)')` on the row `['a' => 'x']` returns null, where `'x'` is meant. */
  lemma GetAliasedColumnReadsNull(foreign: (string, Value) -> Value)
    ensures GetRowAsWritten(Arr([(IntKey(0), Str("a"))]), Str("c(a)"), Some([[(StrKey("a"), Str("x"))]]), foreign) == Ok(Null)
    ensures GetRow(Arr([(IntKey(0), Str("a"))]), Str("c(a)"), Some([[(StrKey("a"), Str("x"))]]), foreign) == Ok(Str("x"))
  {
    assert "c" + "(" + "a" + ")" == "c(a)";
    GetAliasedColumnAsWritten("c", "a", [[(StrKey("a"), Str("x"))]], foreign);
    GetAliasedColumn("c(a)", "a", Some([[(StrKey("a"), Str("x"))]]), foreign);
    GetSingle(StrKey("a"), Str("x"), StrKey("a"));
  }

  // ---------------------------------------------------------------------
  // Type hints

  /** A word read at `i` where the text is `h]` is `h` itself. */
  lemma MatchedWord(s: string, i: nat, h: string, w: string)
    requires i <= |s| && s[i..] == h + "]" && ']' !in h
    requires i + |w| < |s| && s[i..i + |w|] == w && s[i + |w|] == ']'
    ensures w == h
  {
    assert s[i + |w|] == (h + "]")[|w|];
    assert forall k :: 0 <= k < |h| ==> (h + "]")[k] == h[k];
    assert |w| == |h|;
    assert s[i..i + |w|] == (h + "]")[..|w|];
  }

  lemma {:induction false} WordAtIs(s: string, i: nat, words: seq<string>, h: string)
    requires i <= |s| && s[i..] == h + "]" && ']' !in h && h in words
    ensures WordAt(s, i, words) == Some(h)
    decreases words
  {
    var w := words[0];
    assert s[i..i + |h|] == (h + "]")[..|h|] == h;
    assert s[i + |h|] == (h + "]")[|h|] == ']';
    if i + |w| < |s| && s[i..i + |w|] == w && s[i + |w|] == ']' {
      MatchedWord(s, i, h, w);
    } else {
      WordAtIs(s, i, words[1..], h);
    }
  }

  /** `a [H]` is read as the column `a` with the hint `H`. */
  lemma HintedToken(a: string, h: string)
    requires IsName(a) && h in AllTypes
    ensures ParseMappedColumn(a + " [" + h + "]", true) == Some(ColumnToken(a, None, Some(h)))
  {
    var s := a + " [" + h + "]";
    assert forall k :: 0 <= k < |a| ==> s[k] == a[k];
    assert s[|a|] == ' ' && s[|a| + 1] == '[';
    assert s[|a| + 2..] == h + "]";
    assert s[0..|a|] == a;
    HintedTokenAt(s, |a|, h);
  }

  /** A name of length `n`, a space and a bracketed type: the column and its hint. */
  lemma HintedTokenAt(s: string, n: nat, h: string)
    requires 0 < n && n + 2 <= |s| && IsNameStart(s[0]) && forall k :: 1 <= k < n ==> IsNameChar(s[k])
    requires s[n] == ' ' && s[n + 1] == '[' && s[n + 2..] == h + "]" && h in AllTypes
    ensures ParseMappedColumn(s, true) == Some(ColumnToken(s[0..n], None, Some(h)))
  {
    NameRunEndAt(s, 1, n);
    assert SpaceRunEnd(s, n + 1) == n + 1;
    assert AliasAt(s, n) == None;
    WordAtIs(s, n + 2, AllTypes, h);
    assert TypeAt(s, n, AllTypes) == Some(h);
  }

  /**
   * A column written `a [H]`, alone in the list, is read from the row's `a`:
   * null stays null whatever the hint, anything else goes through the
   * hint's cast.
   */
  lemma HintedColumn(a: string, h: string, row: PArray, foreign: (string, Value) -> Value)
    requires IsName(a) && h in AllTypes
    ensures var s := a + " [" + h + "]";
      var cols := [(IntKey(0), Str(s))];
      var cm := [(StrKey(s), Mapped(a, Some(h)))];
      var item := Get(row, StrKey(a));
      && ColumnMapOf(Arr(cols), [], true) == Ok(cm)
      && (item == Null ==> DataWrites(row, cols, cm, foreign) == Ok([(StrKey(a), Null)]))
      && (item != Null ==> (DataWrites(row, cols, cm, foreign).Ok? <==> Cast(h, item, foreign).Ok?))
      && (item != Null && Cast(h, item, foreign).Ok? ==>
            DataWrites(row, cols, cm, foreign) == Ok([(StrKey(a), Cast(h, item, foreign).value.value)]))
  {
    var s := a + " [" + h + "]";
    HintedColumnMap(a, h);
    MappedWrites(s, a, h, row, foreign);
  }

  lemma HintedColumnMap(a: string, h: string)
    requires IsName(a) && h in AllTypes
    ensures var s := a + " [" + h + "]";
      && ArrayKey(Str(s)) == Some(StrKey(s))
      && ColumnMapOf(Arr([(IntKey(0), Str(s))]), [], true) == Ok([(StrKey(s), Mapped(a, Some(h)))])
  {
    var s := a + " [" + h + "]";
    var cols := [(IntKey(0), Str(s))];
    var cm := [(StrKey(s), Mapped(a, Some(h)))];
    HintedToken(a, h);
    NameKey(a);
    assert NormKey(s) == StrKey(s) by { assert !IsDigit(s[0]) && s[0] != '-'; }
    assert ArrayKey(Str(s)) == Some(StrKey(s));
    assert Put([], StrKey(s), Mapped(a, Some(h))) == cm;
    assert MapEntry(cols[0], [], true) == Ok(cm);
    assert cols[1..] == [];
    assert MapEntries(cols, [], true) == MapEntries(cols[1..], cm, true);
  }

  /** One int-keyed column mapped to `a` with hint `h`: the row's `a`, cast unless it is null. */
  lemma MappedWrites(s: string, a: string, h: string, row: PArray, foreign: (string, Value) -> Value)
    requires IsName(a) && h in AllTypes && ArrayKey(Str(s)) == Some(StrKey(s))
    ensures var cols := [(IntKey(0), Str(s))];
      var cm := [(StrKey(s), Mapped(a, Some(h)))];
      var item := Get(row, StrKey(a));
      && (item == Null ==> DataWrites(row, cols, cm, foreign) == Ok([(StrKey(a), Null)]))
      && (item != Null ==> (DataWrites(row, cols, cm, foreign).Ok? <==> Cast(h, item, foreign).Ok?))
      && (item != Null && Cast(h, item, foreign).Ok? ==>
            DataWrites(row, cols, cm, foreign) == Ok([(StrKey(a), Cast(h, item, foreign).value.value)]))
  {
    var cols := [(IntKey(0), Str(s))];
    var cm := [(StrKey(s), Mapped(a, Some(h)))];
    NameKey(a);
    assert cols[1..] == [];
    assert cm[0].0 == StrKey(s);
    assert Lookup(cm, StrKey(s)) == Mapped(a, Some(h));
    assert DataWrites(row, cols[1..], cm, foreign) == Ok([]);
    var item := Get(row, StrKey(a));
    var c := Cast(h, item, foreign);
    if item == Null {
      assert DataWrite(row, cols[0], cm, foreign) == Ok([(StrKey(a), Null)]);
      assert [(StrKey(a), Null)] + [] == [(StrKey(a), Null)];
    } else if c.Ok? {
      assert DataWrite(row, cols[0], cm, foreign) == Ok([(StrKey(a), c.value.value)]);
      assert [(StrKey(a), c.value.value)] + [] == [(StrKey(a), c.value.value)];
    }
  }
}
