/**
 * The statement builders: insert(), update(), delete(), replace(), create(),
 * drop(), and the query side of get(), has(), rand() and the aggregates.
 * Each builder is a function from its arguments and the compile state (the
 * parameter map and the placeholder counter) to the statement and the new
 * state; the class in db.dfy runs them through exec().
 */
module Statements {
  import opened Php
  import opened Sql
  import opened Quoting
  import opened Patterns
  import opened Conditions
  import opened Clauses
  import opened Select

  // ---------------------------------------------------------------------
  // The key patterns the builders strip and match

  /** ASCII lower case, as the `i` flag compares letters. */
  function Lower(c: char): char {
    if 'A' <= c <= 'Z' then (c as int + 32) as char else c
  }

  predicate SameLetters(a: string, b: string) {
    |a| == |b| && forall i :: 0 <= i < |a| ==> Lower(a[i]) == Lower(b[i])
  }

  /** `s[..e]` ends with `[w]` for one of `words`, letters in any case. */
  predicate HintBefore(s: string, e: nat, words: seq<string>)
    requires e <= |s|
  {
    exists w :: w in words && HintIs(s, e, w)
  }

  predicate HintIs(s: string, e: nat, w: string)
    requires e <= |s|
  {
    |w| + 2 <= e && s[e - |w| - 2] == '[' && s[e - 1] == ']' && SameLetters(s[e - |w| - 1..e - 1], w)
  }

  /** The length of the first of `words` whose `[w]` ends `s[..e]`. */
  function HintLength(s: string, e: nat, words: seq<string>): (r: nat)
    requires e <= |s| && HintBefore(s, e, words)
    ensures r + 2 <= e
    ensures exists w :: w in words && |w| == r && HintIs(s, e, w)
  {
    if HintIs(s, e, words[0]) then |words[0]|
    else HintLength(s, e, words[1..])
  }

  /** The start of the run of whitespace that ends at `e`. */
  function SpaceRunStart(s: string, e: nat): (r: nat)
    requires e <= |s|
    ensures r <= e
    ensures forall k :: r <= k < e ==> IsSpace(s[k])
    ensures r == 0 || !IsSpace(s[r - 1])
  {
    if e > 0 && IsSpace(s[e - 1]) then SpaceRunStart(s, e - 1) else e
  }

  /**
   * `preg_replace('/\s*\[(w1|w2|...)]$/i', '', $s)`: a trailing `[w]` hint
   * and the whitespace before it removed. `$` also matches before a final
   * newline, which then stays.
   */
  function StripHint(s: string, words: seq<string>): (r: string)
    ensures |r| <= |s|
  {
    var e := HintEnd(s, words);
    if e > |s| then s else StripAt(s, e, words)
  }

  /** Where the `[w]` hint the pattern matches ends: at the end, before a final newline, or past `s` when there is none. */
  function HintEnd(s: string, words: seq<string>): (e: nat)
    ensures e <= |s| ==> HintBefore(s, e, words)
  {
    if HintBefore(s, |s|, words) then |s|
    else if |s| > 0 && s[|s| - 1] == '\n' && HintBefore(s, |s| - 1, words) then |s| - 1
    else |s| + 1
  }

  /** `s` without the hint that ends at `e` and the whitespace before it. */
  function StripAt(s: string, e: nat, words: seq<string>): (r: string)
    requires e <= |s| && HintBefore(s, e, words)
    ensures |r| <= |s|
  {
    var b := SpaceRunStart(s, e - HintLength(s, e, words) - 2);
    s[..b] + s[e..]
  }

  const JsonHint: seq<string> := ["JSON"]
  const UpdateHints: seq<string> := ["JSON", "+", "-", "*", "/"]

  predicate OccursAt(s: string, w: string, k: nat) {
    k + |w| <= |s| && s[k..k + |w|] == w
  }

  /** The first position at or after `i` where `w` occurs in `s`. */
  function FindFrom(s: string, w: string, i: nat): (r: Option<nat>)
    requires i <= |s|
    ensures r.Some? ==> i <= r.value && OccursAt(s, w, r.value)
    ensures r.Some? ==> forall k :: i <= k < r.value ==> !OccursAt(s, w, k)
    ensures r.None? ==> forall k :: i <= k ==> !OccursAt(s, w, k)
    decreases |s| - i
  {
    if i + |w| > |s| then None
    else if OccursAt(s, w, i) then Some(i)
    else FindFrom(s, w, i + 1)
  }

  /** `strpos($key, '[JSON]') === strlen($key) - 6`: the first `[JSON]` of the key ends it. */
  predicate JsonKey(k: Key) {
    var s := KeyStr(k);
    var f := FindFrom(s, "[JSON]", 0);
    f.Some? && f.value == |s| - 6
  }

  /** `[a-zA-Z0-9_]` */
  predicate IsWordChar(c: char) {
    ('a' <= c <= 'z') || ('A' <= c <= 'Z') || ('0' <= c <= '9') || c == '_'
  }

  function WordStartFrom(s: string, i: nat): (r: nat)
    requires i <= |s|
    ensures i <= r <= |s|
    ensures r < |s| ==> IsWordChar(s[r])
    ensures forall k :: i <= k < r ==> !IsWordChar(s[k])
    decreases |s| - i
  {
    if i == |s| || IsWordChar(s[i]) then i else WordStartFrom(s, i + 1)
  }

  function WordRunEnd(s: string, i: nat): (r: nat)
    requires i <= |s|
    ensures i <= r <= |s|
    ensures forall k :: i <= k < r ==> IsWordChar(s[k])
    ensures r < |s| ==> !IsWordChar(s[r])
    decreases |s| - i
  {
    if i < |s| && IsWordChar(s[i]) then WordRunEnd(s, i + 1) else i
  }

  /**
   * The `operator` group of `#(?<column>[a-zA-Z0-9_]+)(\[(?<operator>[+\-*\/])])?#`:
   * the first run of word characters, when `[op]` follows it directly.
   */
  function UpdateOperator(s: string): (r: Option<string>)
    ensures r.Some? ==> r.value in ["+", "-", "*", "/"]
  {
    var a := WordStartFrom(s, 0);
    var b := WordRunEnd(s, a);
    if a < b && b + 3 <= |s| && s[b] == '[' && s[b + 2] == ']' && s[b + 1] in "+-*/" then Some([s[b + 1]])
    else None
  }

  // ---------------------------------------------------------------------
  // Bindings

  /** `[json_encode($v) or serialize($v), PDO::PARAM_STR]` for an array value. */
  function ArrayBinding(k: Key, v: Value): Binding {
    Binding(if JsonKey(k) then JsonEncoded(v) else Serialized(v), ParamStr)
  }

  /** A key read back as a value: `$old` of `foreach ($replacements as $old => $new)`. */
  function KeyValue(k: Key): Value {
    match k
    case IntKey(i) => Int(i)
    case StrKey(s) => Str(s)
  }

  /** The generated placeholder `:MeD<n>_mK`. */
  function MapKeyName(n: nat): string {
    PhName(n, "")
  }

  // ---------------------------------------------------------------------
  // insert()

  /** `if (!isset($values[0])) $values = [$values];`: the rows to insert. */
  function InsertRows(values: PArray): (r: seq<Value>)
    ensures IsSet(values, IntKey(0)) ==> |r| == |values| && forall i :: 0 <= i < |r| ==> r[i] == values[i].1
    ensures !IsSet(values, IntKey(0)) ==> r == [Arr(values)]
  {
    if IsSet(values, IntKey(0)) then seq(|values|, i requires 0 <= i < |values| => values[i].1)
    else [Arr(values)]
  }

  /** The keys of an array; anything else has none to iterate. */
  function KeysOf(v: Value): (r: seq<Key>)
    ensures v.Arr? ==> |r| == |v.entries| && forall i :: 0 <= i < |r| ==> r[i] == v.entries[i].0
    ensures !v.Arr? ==> r == []
  {
    if v.Arr? then seq(|v.entries|, i requires 0 <= i < |v.entries| => v.entries[i].0) else []
  }

  /** `array_unique()` of `seen + ks`, keeping first occurrences in order. */
  function AddNew(seen: seq<Key>, ks: seq<Key>): (r: seq<Key>)
    decreases ks
  {
    if ks == [] then seen
    else AddNew(if ks[0] in seen then seen else seen + [ks[0]], ks[1..])
  }

  /** The columns of insert(): every row's keys, each once, in order of first appearance. */
  function InsertColumns(rows: seq<Value>, seen: seq<Key>): seq<Key>
    decreases rows
  {
    if rows == [] then seen else InsertColumns(rows[1..], AddNew(seen, KeysOf(rows[0])))
  }

  /** `$data[$key]` on a row: an array is read, null, booleans and integers read as null; strings and objects are refused. */
  function RowItem(data: Value, k: Key): Result<Value> {
    match data
    case Arr(es) => Ok(Get(es, k))
    case Str(_) => Err(TypeError("Cannot access offset of type string on string"))
    case Raw(_) => Err(TypeError("Cannot use object of type Raw as array"))
    case Obj(c) => Err(TypeError("Cannot use object of type " + c + " as array"))
    case _ => Ok(Null)
  }

  /**
   * One value of a row: a raw fragment with truthy text as it is; otherwise
   * a new placeholder, bound by the value's type, an object (a raw fragment
   * with empty text included) serialized as a string.
   */
  function InsertValue(prefix: string, k: Key, v: Value, s: St): Result<(Sql, St)> {
    var (raw, m) :- TruthyRaw(prefix, v, s.params);
    if raw.Some? then Ok((raw.value, s.(params := m)))
    else
      var n := s.guid;
      var s1 := Draw(s.(params := m));
      match v
      case Arr(_) => Ok(([Ph(n, "")], Bind(s1, MapKeyName(n), ArrayBinding(k, v))))
      case Raw(_) => Ok(([Ph(n, "")], Bind(s1, MapKeyName(n), Binding(Serialized(v), ParamStr))))
      case Obj(_) => Ok(([Ph(n, "")], Bind(s1, MapKeyName(n), Binding(Serialized(v), ParamStr))))
      case _ => Ok(([Ph(n, "")], Bind(s1, MapKeyName(n), TypeMap(v))))
  }

  /**
   * InsertValue as the `switch` is written: the `object` case serializes
   * into the local variable and breaks before the binding, so the object's
   * placeholder is left in the statement unbound.
   */
  function InsertValueAsWritten(prefix: string, k: Key, v: Value, s: St): Result<(Sql, St)> {
    var (raw, m) :- TruthyRaw(prefix, v, s.params);
    if raw.Some? then Ok((raw.value, s.(params := m)))
    else
      var n := s.guid;
      var s1 := Draw(s.(params := m));
      match v
      case Arr(_) => Ok(([Ph(n, "")], Bind(s1, MapKeyName(n), ArrayBinding(k, v))))
      case Raw(_) => Ok(([Ph(n, "")], s1))
      case Obj(_) => Ok(([Ph(n, "")], s1))
      case _ => Ok(([Ph(n, "")], Bind(s1, MapKeyName(n), TypeMap(v))))
  }

  /** The values of one row, one per column, in column order. */
  function InsertValues(prefix: string, data: Value, cols: seq<Key>, s: St): Result<(seq<Sql>, St)>
    decreases cols
  {
    if cols == [] then Ok(([], s))
    else
      var v :- RowItem(data, cols[0]);
      var (q, s1) :- InsertValue(prefix, cols[0], v, s);
      var (qs, s2) :- InsertValues(prefix, data, cols[1..], s1);
      Ok(([q] + qs, s2))
  }

  /** `'(' . implode(', ', $values) . ')'` for every row, in order. */
  function InsertTuples(prefix: string, rows: seq<Value>, cols: seq<Key>, s: St): Result<(seq<Sql>, St)>
    decreases rows
  {
    if rows == [] then Ok(([], s))
    else
      var (vs, s1) :- InsertValues(prefix, rows[0], cols, s);
      var (ts, s2) :- InsertTuples(prefix, rows[1..], cols, s1);
      Ok(([[Lit("(")] + Join(vs, ", ") + [Lit(")")]] + ts, s2))
  }

  /** The quoted column list, each key without a trailing `[JSON]`. */
  function InsertFields(prefix: string, cols: seq<Key>): Result<seq<Sql>>
    decreases cols
  {
    if cols == [] then Ok([])
    else
      var f :- ColumnQuote(prefix, StripHint(KeyStr(cols[0]), JsonHint));
      var fs :- InsertFields(prefix, cols[1..]);
      Ok([f] + fs)
  }

  /** insert(): `INSERT INTO table (fields) VALUES (row), (row), ...`. */
  function InsertQuery(prefix: string, table: string, values: PArray, s: St): Result<(Sql, St)> {
    var rows := InsertRows(values);
    var cols := InsertColumns(rows, []);
    var (tuples, s1) :- InsertTuples(prefix, rows, cols, s);
    var fields :- InsertFields(prefix, cols);
    var t :- TableQuote(prefix, table);
    Ok(([Lit("INSERT INTO ")] + t + [Lit(" (")] + Join(fields, ", ") + [Lit(") VALUES ")] + Join(tuples, ", "), s1))
  }

  // ---------------------------------------------------------------------
  // update()

  /** The entries `foreach` visits: an array's, none otherwise. */
  function EntriesOf(v: Value): PArray {
    if v.Arr? then v.entries else []
  }

  /**
   * One `SET` field: a raw fragment with truthy text; `col = col op value`
   * for a `col[op]` key with a numeric value (nothing for a non-numeric
   * one); otherwise `col = placeholder`, bound by the value's type. Every
   * entry but a raw one draws a placeholder, used or not.
   */
  function UpdateField(prefix: string, k: Key, v: Value, s: St): Result<(Option<Sql>, St)> {
    var column :- ColumnQuote(prefix, StripHint(KeyStr(k), UpdateHints));
    var (raw, m) :- TruthyRaw(prefix, v, s.params);
    if raw.Some? then Ok((Some(column + [Lit(" = ")] + raw.value), s.(params := m)))
    else Ok(UpdateValue(column, k, v, s.(params := m)))
  }

  /** The field of a value that is not a raw fragment with text, `column` being the quoted column. */
  function UpdateValue(column: Sql, k: Key, v: Value, s: St): (Option<Sql>, St) {
    var n := s.guid;
    var s1 := Draw(s);
    match UpdateOperator(KeyStr(k))
    case Some(op) =>
      if IsNumeric(v) then (Some(column + [Lit(" = ")] + column + [Lit(" " + op + " " + StrCast(v).value)]), s1)
      else (None, s1)
    case None => (Some(column + [Lit(" = "), Ph(n, "")]), Bind(s1, MapKeyName(n), FieldBinding(k, v)))
  }

  /** The binding of an update() value: arrays as JSON or serialized, objects serialized, scalars by type. */
  function FieldBinding(k: Key, v: Value): Binding {
    match v
    case Arr(_) => ArrayBinding(k, v)
    case Raw(_) => Binding(Serialized(v), ParamStr)
    case Obj(_) => Binding(Serialized(v), ParamStr)
    case _ => TypeMap(v)
  }

  function UpdateFields(prefix: string, es: PArray, s: St): Result<(seq<Sql>, St)>
    decreases es
  {
    if es == [] then Ok(([], s))
    else
      var (f, s1) :- UpdateField(prefix, es[0].0, es[0].1, s);
      var (fs, s2) :- UpdateFields(prefix, es[1..], s1);
      Ok(((if f.Some? then [f.value] else []) + fs, s2))
  }

  /** update(): `UPDATE table SET fields` and the where clause. */
  function UpdateQuery(prefix: string, table: string, data: Value, where: Value, s: St): Result<(Sql, St)> {
    var (fields, s1) :- UpdateFields(prefix, EntriesOf(data), s);
    var t :- TableQuote(prefix, table);
    var (w, s2) :- WhereClause(prefix, where, s1);
    Ok(([Lit("UPDATE ")] + t + [Lit(" SET ")] + Join(fields, ", ") + w, s2))
  }

  // ---------------------------------------------------------------------
  // delete(), drop()

  function DeleteQuery(prefix: string, table: string, where: Value, s: St): Result<(Sql, St)> {
    var t :- TableQuote(prefix, table);
    var (w, s1) :- WhereClause(prefix, where, s);
    Ok(([Lit("DELETE FROM ")] + t + w, s1))
  }

  function DropQuery(prefix: string, table: string): Result<Sql> {
    var t :- TableQuote(prefix, table);
    Ok([Lit("DROP TABLE IF EXISTS ")] + t)
  }

  // ---------------------------------------------------------------------
  // replace()

  /** `col = REPLACE(col, :MeD<n>_mKa, :MeD<n>_mKb)` for each old => new pair, each pair drawing one counter value. */
  function ReplacePairs(prefix: string, column: Key, rs: PArray, s: St): Result<(seq<Sql>, St)>
    decreases rs
  {
    if rs == [] then Ok(([], s))
    else
      var n := s.guid;
      var c :- ColumnQuote(prefix, KeyStr(column));
      var (qs, s1) :- ReplacePairs(prefix, column, rs[1..], PairBound(s, rs[0]));
      Ok(([ReplaceItem(c, n)] + qs, s1))
  }

  /** The state after one pair: a counter value drawn, `a` bound to the old text and `b` to the new, both as strings. */
  function PairBound(s: St, pair: (Key, Value)): St {
    var n := s.guid;
    Bind(Bind(Draw(s), PhName(n, "a"), Binding(Plain(KeyValue(pair.0)), ParamStr)), PhName(n, "b"), Binding(Plain(pair.1), ParamStr))
  }

  /** The SET item of one old => new pair of column `c`, drawn with counter `n`. */
  function ReplaceItem(c: Sql, n: nat): Sql {
    c + [Lit(" = REPLACE(")] + c + [Lit(", "), Ph(n, "a"), Lit(", "), Ph(n, "b"), Lit(")")]
  }

  /** The replacements of every column whose value is an array; other columns are skipped. */
  function ReplaceColumns(prefix: string, es: PArray, s: St): Result<(seq<Sql>, St)>
    decreases es
  {
    if es == [] then Ok(([], s))
    else
      var (qs, s1) :- if es[0].1.Arr? then ReplacePairs(prefix, es[0].0, es[0].1.entries, s) else Ok(([], s));
      var (rest, s2) :- ReplaceColumns(prefix, es[1..], s1);
      Ok((qs + rest, s2))
  }

  /** replace(): `UPDATE table SET replacements` and the where clause; an error when there is no replacement. */
  function ReplaceQuery(prefix: string, table: string, columns: PArray, where: Value, s: St): Result<(Sql, St)> {
    var (stack, s1) :- ReplaceColumns(prefix, columns, s);
    if stack == [] then Err(NoReplacementColumns)
    else
      var t :- TableQuote(prefix, table);
      var (w, s2) :- WhereClause(prefix, where, s1);
      Ok(([Lit("UPDATE ")] + t + [Lit(" SET ")] + Join(stack, ", ") + w, s2))
  }

  // ---------------------------------------------------------------------
  // create()

  /**
   * `preg_replace('/<([\p{L}_][\p{L}\p{N}@$#\-_]*)>/u', '"$1"', $s)` from
   * position `i` on, `lit` being the text read since the last name.
   */
  function AngleQuote(s: string, i: nat, lit: string): Sql
    requires i <= |s|
    decreases |s| - i
  {
    if i == |s| then [Lit(lit)]
    else if s[i] == '<' && i + 1 < |s| && IsNameStart(s[i + 1]) && NameRunEnd(s, i + 1) < |s| && s[NameRunEnd(s, i + 1)] == '>' then
      var j := NameRunEnd(s, i + 1);
      [Lit(lit), Ident(s[i + 1..j])] + AngleQuote(s, j + 1, "")
    else AngleQuote(s, i + 1, lit + [s[i]])
  }

  /** The text of a definition listed under an integer key: a string with its `<name>`s quoted, a scalar or array as text. */
  function DefinitionSql(d: Value): Result<Sql> {
    match d
    case Str(t) => Ok(AngleQuote(t, 0, ""))
    case Arr(_) => Ok([Lit("Array")])
    case Raw(_) => Err(TypeError("preg_replace(): Argument #3 ($subject) must be of type array|string"))
    case Obj(_) => Err(TypeError("preg_replace(): Argument #3 ($subject) must be of type array|string"))
    case _ => Ok([Lit(StrCast(d).value)])
  }

  /** `implode(' ', $definition)` */
  function WordsText(es: PArray): (r: Result<string>)
    decreases es
  {
    if es == [] then Ok("")
    else
      var h :- if StrCast(es[0].1).Some? then Ok(StrCast(es[0].1).value) else Err(Unconvertible);
      var t :- WordsText(es[1..]);
      Ok(if |es| == 1 then h else h + " " + t)
  }

  /** One column of create(): a definition under an integer key, or a named column with its definition words. */
  function CreateColumn(prefix: string, e: (Key, Value)): Result<Option<Sql>> {
    if e.0.IntKey? then
      var q :- DefinitionSql(e.1);
      Ok(Some(q))
    else if e.1.Arr? then
      var c :- ColumnQuote(prefix, e.0.s);
      var w :- WordsText(e.1.entries);
      Ok(Some(c + [Lit(" " + w)]))
    else if e.1.Str? then
      var c :- ColumnQuote(prefix, e.0.s);
      Ok(Some(c + [Lit(" " + e.1.s)]))
    else Ok(None)
  }

  function CreateColumns(prefix: string, es: PArray): Result<seq<Sql>>
    decreases es
  {
    if es == [] then Ok([])
    else
      var c :- CreateColumn(prefix, es[0]);
      var cs :- CreateColumns(prefix, es[1..]);
      Ok((if c.Some? then [c.value] else []) + cs)
  }

  /** `"{$key} = {$value}"` for every string or integer option. */
  function OptionItems(es: PArray): seq<string>
    decreases es
  {
    if es == [] then []
    else (if es[0].1.Str? || es[0].1.Int? then [KeyStr(es[0].0) + " = " + StrCast(es[0].1).value] else []) + OptionItems(es[1..])
  }

  /** The table options: listed ones joined by `, `, or a string as it is, after a space. */
  function TableOption(options: Value): string {
    if options.Arr? then " " + ImplodeStr(OptionItems(options.entries), ", ")
    else if options.Str? then " " + options.s
    else ""
  }

  /** create(): `CREATE TABLE IF NOT EXISTS table (columns)options`. */
  function CreateQuery(prefix: string, table: string, columns: Value, options: Value): Result<Sql> {
    var t :- TableQuote(prefix, table);
    var cs :- CreateColumns(prefix, EntriesOf(columns));
    Ok([Lit("CREATE TABLE IF NOT EXISTS ")] + t + [Lit(" (")] + Join(cs, ", ") + [Lit(")" + TableOption(options))])
  }

  // ---------------------------------------------------------------------
  // get(), has(), rand() and the aggregates

  /**
   * get()'s arguments once `LIMIT 1` was added: to the where clause, or,
   * without one, to whichever argument holds it; and the argument the
   * single-column flag is read from.
   */
  function GetArgs(join: Value, columns: Value, where: Value): Result<(Value, Value, Value)> {
    if where == Null then
      if IsJoin(join) then
        var w :- SetKey(where, StrKey("LIMIT"), Int(1));
        Ok((columns, w, join))
      else
        var c :- SetKey(columns, StrKey("LIMIT"), Int(1));
        Ok((c, where, join))
    else
      var w :- SetKey(where, StrKey("LIMIT"), Int(1));
      Ok((columns, w, columns))
  }

  /** The query of get(): the SELECT of the arguments with `LIMIT 1`, the columns it leaves, and the single-column argument. */
  function GetQuery(prefix: string, table: string, join: Value, columns: Value, where: Value, s: St): Result<(Sql, Value, Value, St)> {
    var (cols, w, column) :- GetArgs(join, columns, where);
    var (q, cols1, s1) :- SelectContext(prefix, table, join, cols, w, Null, s);
    Ok((q, cols1, column, s1))
  }

  /** has(): `SELECT EXISTS(SELECT 1 FROM ...)`. */
  function HasQuery(prefix: string, table: string, join: Value, where: Value, s: St): Result<(Sql, St)> {
    var (q, _, s1) :- SelectContext(prefix, table, join, Null, where, Int(1), s);
    Ok(([Lit("SELECT EXISTS(")] + q + [Lit(")")], s1))
  }

  /** rand(): select()'s arguments with `ORDER => RAND()` added where get() would add its LIMIT. */
  function RandArgs(join: Value, columns: Value, where: Value): Result<(Value, Value)> {
    var order := Raw(Fragment([FText("RAND()")], []));
    if where == Null then
      if IsJoin(join) then
        var w :- SetKey(where, StrKey("ORDER"), order);
        Ok((columns, w))
      else
        var c :- SetKey(columns, StrKey("ORDER"), order);
        Ok((c, where))
    else
      var w :- SetKey(where, StrKey("ORDER"), order);
      Ok((columns, w))
  }

  /** aggregate(): `SELECT FN(columns) FROM ...` for COUNT, AVG, MAX, MIN and SUM. */
  function AggregateQuery(prefix: string, fn: string, table: string, join: Value, column: Value, where: Value, s: St): Result<(Sql, St)> {
    var (q, _, s1) :- SelectContext(prefix, table, join, column, where, Str(fn), s);
    Ok((q, s1))
  }

  /** has()'s answer: the fetched column is the string `'1'`, the integer 1 or true. */
  predicate Exists(v: Value) {
    v == Str("1") || v == Int(1) || v == Bool(true)
  }

  /** count(): `(int)` of aggregate()'s string, null reading as 0. */
  function CountOf(agg: Option<string>): int {
    if agg.None? then 0 else IntOfStr(agg.value)
  }

  // ---------------------------------------------------------------------
  // replace(): what it writes and binds

  lemma ReplaceTailHoles(n: nat)
    ensures Holes([Lit(", "), Ph(n, "a"), Lit(", "), Ph(n, "b"), Lit(")")]) == [Ph(n, "a"), Ph(n, "b")]
  {
    var t5: Sql := [Lit(")")];
    var t4: Sql := [Ph(n, "b")] + t5;
    var t3: Sql := [Lit(", ")] + t4;
    var t2: Sql := [Ph(n, "a")] + t3;
    var t1: Sql := [Lit(", ")] + t2;
    assert t5[1..] == [] && t4[1..] == t5 && t3[1..] == t4 && t2[1..] == t3 && t1[1..] == t2;
    assert Holes(t5) == [];
    assert Holes(t4) == [Ph(n, "b")];
    assert Holes(t3) == [Ph(n, "b")];
    assert Holes(t2) == [Ph(n, "a"), Ph(n, "b")];
    assert t1 == [Lit(", "), Ph(n, "a"), Lit(", "), Ph(n, "b"), Lit(")")];
  }

  lemma ReplaceItemHoles(c: Sql, n: nat)
    requires Holes(c) == []
    ensures Holes(ReplaceItem(c, n)) == [Ph(n, "a"), Ph(n, "b")]
  {
    HolesConcat(c, [Lit(" = REPLACE(")]);
    HolesConcat(c + [Lit(" = REPLACE(")], c);
    HolesConcat(c + [Lit(" = REPLACE(")] + c, [Lit(", "), Ph(n, "a"), Lit(", "), Ph(n, "b"), Lit(")")]);
    LitNoHoles(" = REPLACE(");
    ReplaceTailHoles(n);
  }

  /** One pair's item is sound: both its placeholders are bound, fresh and distinct. */
  lemma ReplaceItemSound(c: Sql, s0: St, pair: (Key, Value))
    requires Holes(c) == []
    ensures Sound(ReplaceItem(c, s0.guid), s0, PairBound(s0, pair))
    ensures PairBound(s0, pair).guid == s0.guid + 1
  {
    var n, s1 := s0.guid, PairBound(s0, pair);
    ReplaceItemHoles(c, n);
    assert s1.guid == n + 1 && Names(s1.params) == Names(s0.params) + {PhName(n, "a"), PhName(n, "b")};
    TwoPhSound(ReplaceItem(c, n), n, s0, s1);
  }

  /** A statement whose placeholders are the two drawn with counter `n`, both bound. */
  lemma TwoPhSound(q: Sql, n: nat, s0: St, s1: St)
    requires Holes(q) == [Ph(n, "a"), Ph(n, "b")]
    requires Grows(s0, s1) && s0.guid == n < s1.guid
    requires PhName(n, "a") in Names(s1.params) && PhName(n, "b") in Names(s1.params)
    ensures Sound(q, s0, s1)
  {
    assert Ph(n, "a") != Ph(n, "b");
  }

  /**
   * Each old => new pair adds one item naming a fresh counter value, binds
   * `:MeD<n>_mKa` to the old text and `:MeD<n>_mKb` to the new one, and
   * every placeholder written is bound and unique.
   */
  lemma {:induction false} ReplacePairsSound(prefix: string, column: Key, rs: PArray, s0: St)
    requires ReplacePairs(prefix, column, rs, s0).Ok?
    ensures var (qs, s1) := ReplacePairs(prefix, column, rs, s0).value;
      |qs| == |rs| && s1.guid == s0.guid + |rs| && Sound(Flatten(qs), s0, s1)
    decreases rs
  {
    if rs != [] {
      var c := ColumnQuote(prefix, KeyStr(column)).value;
      var s1 := PairBound(s0, rs[0]);
      ReplacePairsSound(prefix, column, rs[1..], s1);
      var (qs, s2) := ReplacePairs(prefix, column, rs[1..], s1).value;
      ReplaceItemSound(c, s0, rs[0]);
      SoundConcat(ReplaceItem(c, s0.guid), Flatten(qs), s0, s1, s2);
      assert ([ReplaceItem(c, s0.guid)] + qs)[1..] == qs;
    }
  }

  lemma {:induction false} ReplaceColumnsSound(prefix: string, es: PArray, s0: St)
    requires ReplaceColumns(prefix, es, s0).Ok?
    ensures var (qs, s1) := ReplaceColumns(prefix, es, s0).value; Sound(Flatten(qs), s0, s1)
    decreases es
  {
    if es != [] {
      var (qs, s1) := if es[0].1.Arr? then ReplacePairs(prefix, es[0].0, es[0].1.entries, s0).value else ([], s0);
      if es[0].1.Arr? {
        ReplacePairsSound(prefix, es[0].0, es[0].1.entries, s0);
      }
      ReplaceColumnsSound(prefix, es[1..], s1);
      var (rest, s2) := ReplaceColumns(prefix, es[1..], s1).value;
      SoundConcat(Flatten(qs), Flatten(rest), s0, s1, s2);
      FlattenConcat(qs, rest);
    }
  }

  /** A successful replace() is the UPDATE of the quoted table, the joined items and the where clause. */
  lemma ReplaceQueryParts(prefix: string, table: string, columns: PArray, where: Value, s0: St)
    requires ReplaceQuery(prefix, table, columns, where, s0).Ok?
    ensures var (stack, s1) := ReplaceColumns(prefix, columns, s0).value;
      && ReplaceColumns(prefix, columns, s0).Ok? && stack != []
      && TableQuote(prefix, table).Ok? && WhereClause(prefix, where, s1).Ok?
      && ReplaceQuery(prefix, table, columns, where, s0).value ==
         ([Lit("UPDATE ")] + TableQuote(prefix, table).value + [Lit(" SET ")] + Join(stack, ", ") + WhereClause(prefix, where, s1).value.0,
          WhereClause(prefix, where, s1).value.1)
  {
  }

  lemma UpdateAssembly(t: Sql, stack: seq<Sql>, w: Sql, s0: St, s1: St, s2: St)
    requires Holes(t) == [] && Sound(Flatten(stack), s0, s1) && Sound(w, s1, s2)
    ensures Sound([Lit("UPDATE ")] + t + [Lit(" SET ")] + Join(stack, ", ") + w, s0, s2)
  {
    SoundJoin(stack, ", ", s0, s1);
    SoundConcat(Join(stack, ", "), w, s0, s1, s2);
    HolesConcat([Lit("UPDATE ")], t);
    HolesConcat([Lit("UPDATE ")] + t, [Lit(" SET ")]);
    LitNoHoles("UPDATE ");
    LitNoHoles(" SET ");
    assert Holes([]) == [];
    SoundWrap([Lit("UPDATE ")] + t + [Lit(" SET ")], Join(stack, ", ") + w, [], s0, s2);
    assert [Lit("UPDATE ")] + t + [Lit(" SET ")] + (Join(stack, ", ") + w) + [] ==
      [Lit("UPDATE ")] + t + [Lit(" SET ")] + Join(stack, ", ") + w;
  }

  /**
   * Every placeholder in replace()'s statement is bound in its map, was
   * drawn while it was compiled, and occurs once.
   */
  lemma ReplaceSound(prefix: string, table: string, columns: PArray, where: Value, s0: St)
    requires WfValue(where) && ReplaceQuery(prefix, table, columns, where, s0).Ok?
    ensures var (q, s2) := ReplaceQuery(prefix, table, columns, where, s0).value; Sound(q, s0, s2)
  {
    ReplaceQueryParts(prefix, table, columns, where, s0);
    var (stack, s1) := ReplaceColumns(prefix, columns, s0).value;
    ReplaceColumnsSound(prefix, columns, s0);
    WhereClauseSound(prefix, where, s1);
    UpdateAssembly(TableQuote(prefix, table).value, stack, WhereClause(prefix, where, s1).value.0, s0, s1, WhereClause(prefix, where, s1).value.1);
  }

  /** A column with no replacement pairs contributes nothing; one with pairs always contributes. */
  lemma {:induction false} ReplaceColumnsEmpty(prefix: string, es: PArray, s0: St)
    requires ReplaceColumns(prefix, es, s0).Ok?
    ensures ReplaceColumns(prefix, es, s0).value.0 == [] <==> forall i :: 0 <= i < |es| ==> !(es[i].1.Arr? && es[i].1.entries != [])
    decreases es
  {
    if es != [] {
      var (qs, s1) := if es[0].1.Arr? then ReplacePairs(prefix, es[0].0, es[0].1.entries, s0).value else ([], s0);
      if es[0].1.Arr? {
        ReplacePairsSound(prefix, es[0].0, es[0].1.entries, s0);
      }
      ReplaceColumnsEmpty(prefix, es[1..], s1);
      assert forall i :: 1 <= i < |es| ==> es[i] == es[1..][i - 1];
    }
  }

  /**
   * replace() throws when no column holds replacement pairs; otherwise it
   * succeeds exactly when the table name and the where clause compile.
   */
  lemma ReplaceNeedsPairs(prefix: string, table: string, columns: PArray, where: Value, s0: St)
    requires ReplaceColumns(prefix, columns, s0).Ok?
    ensures (forall i :: 0 <= i < |columns| ==> !(columns[i].1.Arr? && columns[i].1.entries != [])) ==>
      ReplaceQuery(prefix, table, columns, where, s0) == Err(NoReplacementColumns)
    ensures (exists i :: 0 <= i < |columns| && columns[i].1.Arr? && columns[i].1.entries != []) ==>
      (ReplaceQuery(prefix, table, columns, where, s0).Ok? <==>
       TableQuote(prefix, table).Ok? && WhereClause(prefix, where, ReplaceColumns(prefix, columns, s0).value.1).Ok?)
  {
    ReplaceColumnsEmpty(prefix, columns, s0);
  }

  lemma ReplaceColumnsOne(prefix: string, c: string, orig: Key, repl: Value, s: St)
    requires IsName(c)
    ensures ReplaceColumns(prefix, [(StrKey(c), Arr([(orig, repl)]))], s) == Ok(([ReplaceItem([Ident(c)], s.guid)], PairBound(s, (orig, repl))))
  {
    BareColumnQuote(prefix, c);
    var rs := [(orig, repl)];
    var s1 := PairBound(s, (orig, repl));
    assert rs[1..] == [];
    assert [ReplaceItem([Ident(c)], s.guid)] + [] == [ReplaceItem([Ident(c)], s.guid)];
    assert ReplacePairs(prefix, StrKey(c), rs, s) == Ok(([ReplaceItem([Ident(c)], s.guid)], s1));
    var es := [(StrKey(c), Arr(rs))];
    assert es[1..] == [];
  }

  /** A null where clause adds nothing and binds nothing. */
  lemma WhereNull(prefix: string, s: St)
    ensures WhereClause(prefix, Null, s) == Ok(([], s))
  {
    assert s.(params := s.params) == s;
  }

  lemma ReplaceQueryUnfold(prefix: string, table: string, columns: PArray, where: Value, s0: St)
    requires ReplaceColumns(prefix, columns, s0).Ok? && ReplaceColumns(prefix, columns, s0).value.0 != []
    requires TableQuote(prefix, table).Ok?
    requires WhereClause(prefix, where, ReplaceColumns(prefix, columns, s0).value.1).Ok?
    ensures var (stack, s1) := ReplaceColumns(prefix, columns, s0).value;
      ReplaceQuery(prefix, table, columns, where, s0) ==
        Ok(([Lit("UPDATE ")] + TableQuote(prefix, table).value + [Lit(" SET ")] + Join(stack, ", ") + WhereClause(prefix, where, s1).value.0,
            WhereClause(prefix, where, s1).value.1))
  {
  }

  /** After one pair, `a` holds the old text and `b` the new. */
  lemma PairBoundLookups(s: St, pair: (Key, Value))
    ensures PairBound(s, pair).guid == s.guid + 1
    ensures Lookup(PairBound(s, pair).params, PhName(s.guid, "a")) == Some(Binding(Plain(KeyValue(pair.0)), ParamStr))
    ensures Lookup(PairBound(s, pair).params, PhName(s.guid, "b")) == Some(Binding(Plain(pair.1), ParamStr))
  {
    var n := s.guid;
    var sa := Bind(Draw(s), PhName(n, "a"), Binding(Plain(KeyValue(pair.0)), ParamStr));
    AssignLookup(sa.params, PhName(n, "b"), Binding(Plain(pair.1), ParamStr), PhName(n, "a"));
    AssignLookup(Draw(s).params, PhName(n, "a"), Binding(Plain(KeyValue(pair.0)), ParamStr), PhName(n, "a"));
    AssignLookup(sa.params, PhName(n, "b"), Binding(Plain(pair.1), ParamStr), PhName(n, "b"));
    assert PhName(n, "a") != PhName(n, "b") by {
      assert PhName(n, "a")[|PhName(n, "a")| - 1] == 'a';
      assert PhName(n, "b")[|PhName(n, "b")| - 1] == 'b';
    }
  }

  /**
   * `replace(t, [c => [old => new]])`: `UPDATE "t" SET "c" = REPLACE("c",
   * :MeD<n>_mKa, :MeD<n>_mKb)` with the old text bound under `a` and the new
   * text under `b`, both as strings.
   */
  lemma ReplaceOnePair(prefix: string, t: string, c: string, orig: Key, repl: Value, s: St)
    requires IsName(t) && IsName(c)
    ensures var r := ReplaceQuery(prefix, t, [(StrKey(c), Arr([(orig, repl)]))], Null, s);
      var n := s.guid;
      && r.Ok?
      && r.value.0 == [Lit("UPDATE "), Ident(prefix + t), Lit(" SET ")] + ReplaceItem([Ident(c)], n)
      && r.value.1 == PairBound(s, (orig, repl))
  {
    ReplaceColumnsOne(prefix, c, orig, repl, s);
    ReplaceQuerySingle(prefix, t, [(StrKey(c), Arr([(orig, repl)]))], s, ReplaceItem([Ident(c)], s.guid), PairBound(s, (orig, repl)));
  }

  /** A replacement that yields one SET item, on a plain table and no condition. */
  lemma ReplaceQuerySingle(prefix: string, t: string, columns: PArray, s: St, item: Sql, s1: St)
    requires IsName(t) && ReplaceColumns(prefix, columns, s) == Ok(([item], s1))
    ensures ReplaceQuery(prefix, t, columns, Null, s) == Ok(([Lit("UPDATE "), Ident(prefix + t), Lit(" SET ")] + item, s1))
  {
    Select.PlainTableName(t, 0);
    WhereNull(prefix, s1);
    ReplaceQueryUnfold(prefix, t, columns, Null, s);
    assert Join([item], ", ") == item;
    assert [Lit("UPDATE ")] + [Ident(prefix + t)] + [Lit(" SET ")] + item + [] ==
      [Lit("UPDATE "), Ident(prefix + t), Lit(" SET ")] + item;
  }

  // ---------------------------------------------------------------------
  // insert(): the columns, and what it writes and binds

  predicate NoDuplicates(ks: seq<Key>) {
    forall i, j :: 0 <= i < j < |ks| ==> ks[i] != ks[j]
  }

  /** array_unique() keeps what was seen, adds each new key once, and loses none. */
  lemma {:induction false} AddNewSpec(seen: seq<Key>, ks: seq<Key>)
    ensures var r := AddNew(seen, ks);
      && |seen| <= |r| && r[..|seen|] == seen
      && (forall k :: k in r <==> k in seen || k in ks)
      && (NoDuplicates(seen) ==> NoDuplicates(r))
    decreases ks
  {
    if ks != [] {
      var seen1 := if ks[0] in seen then seen else seen + [ks[0]];
      AddNewSpec(seen1, ks[1..]);
      assert ks == [ks[0]] + ks[1..];
      var r := AddNew(seen, ks);
      assert r[..|seen|] == r[..|seen1|][..|seen|];
      assert seen1[..|seen|] == seen;
    }
  }

  /**
   * The columns of insert() are exactly the keys of the rows, each listed
   * once, with the columns seen before kept first.
   */
  lemma {:induction false} InsertColumnsSpec(rows: seq<Value>, seen: seq<Key>)
    ensures var r := InsertColumns(rows, seen);
      && |seen| <= |r| && r[..|seen|] == seen
      && (forall k :: k in r <==> k in seen || exists i :: 0 <= i < |rows| && k in KeysOf(rows[i]))
      && (NoDuplicates(seen) ==> NoDuplicates(r))
    decreases rows
  {
    if rows != [] {
      var seen1 := AddNew(seen, KeysOf(rows[0]));
      AddNewSpec(seen, KeysOf(rows[0]));
      InsertColumnsSpec(rows[1..], seen1);
      var r := InsertColumns(rows, seen);
      assert r[..|seen|] == r[..|seen1|][..|seen|];
      forall k
        ensures k in r <==> k in seen || exists i :: 0 <= i < |rows| && k in KeysOf(rows[i])
      {
        if exists i :: 0 <= i < |rows| && k in KeysOf(rows[i]) {
          var i :| 0 <= i < |rows| && k in KeysOf(rows[i]);
          if i > 0 {
            assert rows[1..][i - 1] == rows[i];
          }
        }
        if exists i :: 0 <= i < |rows[1..]| && k in KeysOf(rows[1..][i]) {
          var i :| 0 <= i < |rows[1..]| && k in KeysOf(rows[1..][i]);
          assert rows[1..][i] == rows[i + 1];
        }
      }
    }
  }

  /** A value read from a row is well-formed when the row is. */
  lemma RowItemWf(data: Value, k: Key)
    requires WfValue(data) && RowItem(data, k).Ok?
    ensures WfValue(RowItem(data, k).value)
  {
    if data.Arr? {
      GetWf(data.entries, k);
    }
  }

  /** The placeholder of one value, if it writes one, is fresh and bound. */
  lemma InsertValueSound(prefix: string, k: Key, v: Value, s0: St)
    requires WfValue(v) && InsertValue(prefix, k, v, s0).Ok?
    ensures var (q, s1) := InsertValue(prefix, k, v, s0).value;
      Sound(q, s0, s1) && s1.guid <= s0.guid + 1
  {
    TruthyRawSound(prefix, v, s0, s0);
    var (raw, m) := TruthyRaw(prefix, v, s0.params).value;
    if raw.None? {
      var n := s0.guid;
      var (q, s1) := InsertValue(prefix, k, v, s0).value;
      assert q == [Ph(n, "")] && s1.guid == n + 1 && Names(s1.params) == Names(m) + {MapKeyName(n)};
      FreshPhSound(n, s0, s1);
    }
  }

  /** A statement made of one freshly drawn, bound placeholder. */
  lemma FreshPhSound(n: nat, s0: St, s1: St)
    requires Grows(s0, s1) && s0.guid == n < s1.guid && PhName(n, "") in Names(s1.params)
    ensures Sound([Ph(n, "")], s0, s1)
  {
    assert [Ph(n, "")][1..] == [];
  }

  lemma {:induction false} InsertValuesSound(prefix: string, data: Value, cols: seq<Key>, s0: St)
    requires WfValue(data) && InsertValues(prefix, data, cols, s0).Ok?
    ensures var (qs, s1) := InsertValues(prefix, data, cols, s0).value;
      |qs| == |cols| && Sound(Flatten(qs), s0, s1)
    decreases cols
  {
    if cols != [] {
      RowItemWf(data, cols[0]);
      var v := RowItem(data, cols[0]).value;
      InsertValueSound(prefix, cols[0], v, s0);
      var (q, s1) := InsertValue(prefix, cols[0], v, s0).value;
      InsertValuesSound(prefix, data, cols[1..], s1);
      var (qs, s2) := InsertValues(prefix, data, cols[1..], s1).value;
      SoundConcat(q, Flatten(qs), s0, s1, s2);
      FlattenCons(q, qs);
    }
  }

  lemma FlattenCons(q: Sql, qs: seq<Sql>)
    ensures Flatten([q] + qs) == q + Flatten(qs)
  {
    assert ([q] + qs)[1..] == qs;
  }

  /** `(v1, v2, ...)` of sound values is sound. */
  lemma TupleSound(vs: seq<Sql>, s0: St, s1: St)
    requires Sound(Flatten(vs), s0, s1)
    ensures Sound([Lit("(")] + Join(vs, ", ") + [Lit(")")], s0, s1)
  {
    SoundJoin(vs, ", ", s0, s1);
    LitNoHoles("(");
    LitNoHoles(")");
    SoundWrap([Lit("(")], Join(vs, ", "), [Lit(")")], s0, s1);
  }

  lemma {:induction false} InsertTuplesSound(prefix: string, rows: seq<Value>, cols: seq<Key>, s0: St)
    requires forall i :: 0 <= i < |rows| ==> WfValue(rows[i])
    requires InsertTuples(prefix, rows, cols, s0).Ok?
    ensures var (ts, s1) := InsertTuples(prefix, rows, cols, s0).value;
      |ts| == |rows| && Sound(Flatten(ts), s0, s1)
    decreases rows
  {
    if rows != [] {
      InsertValuesSound(prefix, rows[0], cols, s0);
      var (vs, s1) := InsertValues(prefix, rows[0], cols, s0).value;
      assert forall i :: 0 <= i < |rows[1..]| ==> rows[1..][i] == rows[i + 1];
      InsertTuplesSound(prefix, rows[1..], cols, s1);
      var (ts, s2) := InsertTuples(prefix, rows[1..], cols, s1).value;
      TupleSound(vs, s0, s1);
      var t := [Lit("(")] + Join(vs, ", ") + [Lit(")")];
      SoundConcat(t, Flatten(ts), s0, s1, s2);
      FlattenCons(t, ts);
    }
  }

  lemma {:induction false} InsertFieldsNoHoles(prefix: string, cols: seq<Key>)
    requires InsertFields(prefix, cols).Ok?
    ensures |InsertFields(prefix, cols).value| == |cols|
    ensures Holes(Flatten(InsertFields(prefix, cols).value)) == []
    decreases cols
  {
    if cols != [] {
      InsertFieldsNoHoles(prefix, cols[1..]);
      var f := ColumnQuote(prefix, StripHint(KeyStr(cols[0]), JsonHint)).value;
      var fs := InsertFields(prefix, cols[1..]).value;
      FlattenCons(f, fs);
      HolesConcat(f, Flatten(fs));
    }
  }

  /** The rows of a well-formed insert() argument are well-formed. */
  lemma InsertRowsWf(values: PArray)
    requires WfEntries(values)
    ensures forall i :: 0 <= i < |InsertRows(values)| ==> WfValue(InsertRows(values)[i])
  {
    if IsSet(values, IntKey(0)) {
      forall i | 0 <= i < |values| ensures WfValue(values[i].1) {
        assert WfEntry(values[i]);
      }
    } else {
      assert WfValue(Arr(values));
    }
  }

  /**
   * Every placeholder insert() writes is bound, fresh and used once, and
   * there is one tuple per row.
   */
  lemma InsertSound(prefix: string, table: string, values: PArray, s0: St)
    requires WfEntries(values) && InsertQuery(prefix, table, values, s0).Ok?
    ensures var (q, s1) := InsertQuery(prefix, table, values, s0).value; Sound(q, s0, s1)
  {
    var rows := InsertRows(values);
    var cols := InsertColumns(rows, []);
    InsertRowsWf(values);
    InsertTuplesSound(prefix, rows, cols, s0);
    var (tuples, s1) := InsertTuples(prefix, rows, cols, s0).value;
    InsertFieldsNoHoles(prefix, cols);
    var fields := InsertFields(prefix, cols).value;
    var t := TableQuote(prefix, table).value;
    InsertAssembly(t, fields, tuples, s0, s1);
  }

  lemma InsertAssembly(t: Sql, fields: seq<Sql>, tuples: seq<Sql>, s0: St, s1: St)
    requires Holes(t) == [] && Holes(Flatten(fields)) == [] && Sound(Flatten(tuples), s0, s1)
    ensures Sound([Lit("INSERT INTO ")] + t + [Lit(" (")] + Join(fields, ", ") + [Lit(") VALUES ")] + Join(tuples, ", "), s0, s1)
  {
    HolesJoin(fields, ", ");
    LitNoHoles("INSERT INTO ");
    LitNoHoles(" (");
    LitNoHoles(") VALUES ");
    var pre := [Lit("INSERT INTO ")] + t + [Lit(" (")] + Join(fields, ", ") + [Lit(") VALUES ")];
    HolesConcat([Lit("INSERT INTO ")], t);
    HolesConcat([Lit("INSERT INTO ")] + t, [Lit(" (")]);
    HolesConcat([Lit("INSERT INTO ")] + t + [Lit(" (")], Join(fields, ", "));
    HolesConcat([Lit("INSERT INTO ")] + t + [Lit(" (")] + Join(fields, ", "), [Lit(") VALUES ")]);
    SoundJoin(tuples, ", ", s0, s1);
    assert Holes([]) == [];
    SoundWrap(pre, Join(tuples, ", "), [], s0, s1);
    assert pre + Join(tuples, ", ") + [] == pre + Join(tuples, ", ");
  }

  /**
   * As written, an object value leaves its placeholder in the statement
   * with nothing bound to it; the corrected value binds the serialized
   * object as a string.
   */
  lemma InsertObjectUnbound(prefix: string, k: Key, c: string, s: St)
    requires PhName(s.guid, "") !in Names(s.params)
    ensures InsertValueAsWritten(prefix, k, Obj(c), s) == Ok(([Ph(s.guid, "")], Draw(s)))
    ensures !Sound([Ph(s.guid, "")], s, Draw(s))
    ensures InsertValue(prefix, k, Obj(c), s) ==
      Ok(([Ph(s.guid, "")], Bind(Draw(s), MapKeyName(s.guid), Binding(Serialized(Obj(c)), ParamStr))))
    ensures Sound([Ph(s.guid, "")], s, Bind(Draw(s), MapKeyName(s.guid), Binding(Serialized(Obj(c)), ParamStr)))
  {
    assert s.(params := s.params) == s;
    assert [Ph(s.guid, "")][1..] == [];
    assert Holes([Ph(s.guid, "")]) == [Ph(s.guid, "")];
  }

  // ---------------------------------------------------------------------
  // The key hints

  /** A column written in word characters only, as update()'s operator pattern reads it. */
  predicate WordColumn(c: string) {
    IsName(c) && forall i :: 0 <= i < |c| ==> IsWordChar(c[i])
  }

  lemma NameEnd(c: string)
    requires IsName(c)
    ensures c[|c| - 1] != ']' && c[|c| - 1] != '\n' && !IsSpace(c[|c| - 1]) && c[|c| - 1] != '['
  {
    if |c| > 1 {
      assert IsNameChar(c[|c| - 1]);
    }
  }

  /** A name without a hint is left as it is. */
  lemma StripHintPlain(c: string, words: seq<string>)
    requires IsName(c)
    ensures StripHint(c, words) == c
  {
    NameEnd(c);
  }

  /** With a hint at the very end, the hint and the spaces before it go. */
  lemma StripHintFound(s: string, words: seq<string>)
    requires HintBefore(s, |s|, words)
    ensures StripHint(s, words) == s[..SpaceRunStart(s, |s| - HintLength(s, |s|, words) - 2)]
  {
    var b := SpaceRunStart(s, |s| - HintLength(s, |s|, words) - 2);
    assert HintEnd(s, words) == |s|;
    assert s[|s|..] == [];
    assert StripAt(s, |s|, words) == s[..b] + [] == s[..b];
  }

  lemma HintAtEnd(c: string, w: string)
    ensures HintIs(c + "[" + w + "]", |c| + |w| + 2, w)
  {
    var s := c + "[" + w + "]";
    assert s[|c| + 1..|c| + |w| + 1] == w;
  }

  /** `name[w]` loses its hint when `w` is one of the words and no other word of another length also ends it. */
  lemma StripHintOf(c: string, w: string, words: seq<string>)
    requires IsName(c) && w in words
    requires forall x :: x in words && HintIs(c + "[" + w + "]", |c| + |w| + 2, x) ==> |x| == |w|
    ensures StripHint(c + "[" + w + "]", words) == c
  {
    var s := c + "[" + w + "]";
    HintWordLength(c, w, words);
    StripHintFound(s, words);
    NameEnd(c);
    assert s[|c| - 1] == c[|c| - 1];
    assert SpaceRunStart(s, |c|) == |c|;
    assert s[..|c|] == c;
  }

  /** The hint `[w]` that ends `name[w]` is found, with the length of `w`. */
  lemma HintWordLength(c: string, w: string, words: seq<string>)
    requires w in words
    requires forall x :: x in words && HintIs(c + "[" + w + "]", |c| + |w| + 2, x) ==> |x| == |w|
    ensures var s := c + "[" + w + "]";
      |s| == |c| + |w| + 2 && HintBefore(s, |s|, words) && HintLength(s, |s|, words) == |w|
  {
    var s := c + "[" + w + "]";
    assert |s| == |c| + |w| + 2;
    HintAtEnd(c, w);
    HintLengthOf(s, |s|, w, words);
  }

  /** When every word that ends `s[..e]` has the length of `w`, that is the hint's length. */
  lemma HintLengthOf(s: string, e: nat, w: string, words: seq<string>)
    requires e <= |s| && w in words && HintIs(s, e, w)
    requires forall x :: x in words && HintIs(s, e, x) ==> |x| == |w|
    ensures HintBefore(s, e, words) && HintLength(s, e, words) == |w|
  {
    var x :| x in words && |x| == HintLength(s, e, words) && HintIs(s, e, x);
  }

  lemma StripJsonHint(c: string)
    requires IsName(c)
    ensures StripHint(c + "[JSON]", JsonHint) == c
    ensures StripHint(c + "[JSON]", UpdateHints) == c
  {
    var s := c + "[" + "JSON" + "]";
    assert s == c + "[JSON]";
    var e := |c| + 6;
    assert s[e - 3] == 'O';
    forall x | x in UpdateHints && HintIs(s, e, x) ensures |x| == 4 {
      assert |x| == 4 || |x| == 1;
    }
    StripHintOf(c, "JSON", JsonHint);
    StripHintOf(c, "JSON", UpdateHints);
  }

  lemma StripOperatorHint(c: string, op: string)
    requires IsName(c) && op in ["+", "-", "*", "/"]
    ensures StripHint(c + "[" + op + "]", UpdateHints) == c
  {
    var s := c + "[" + op + "]";
    var e := |s|;
    assert s[e - 2] == op[0];
    assert forall x :: x in UpdateHints && HintIs(s, e, x) ==> |x| == |op|;
    StripHintOf(c, op, UpdateHints);
  }

  /** update() reads the operator of `col[op]`. */
  lemma UpdateOperatorOf(c: string, op: string)
    requires WordColumn(c) && op in ["+", "-", "*", "/"]
    ensures UpdateOperator(c + "[" + op + "]") == Some(op)
  {
    var s := c + "[" + op + "]";
    assert s[0] == c[0];
    assert WordStartFrom(s, 0) == 0;
    var b := WordRunEnd(s, 0);
    assert s[|c|] == '[';
    assert b == |c|;
  }

  /** A `[JSON]` hint is no operator. */
  lemma UpdateOperatorJson(c: string)
    requires WordColumn(c)
    ensures UpdateOperator(c + "[JSON]") == None
  {
    var j := c + "[JSON]";
    assert j[0] == c[0];
    var bj := WordRunEnd(j, 0);
    assert j[|c|] == '[';
    assert bj == |c| && j[|c| + 2] == 'S';
  }

  /** A plain name has no operator. */
  lemma UpdateOperatorPlain(c: string)
    requires IsName(c)
    ensures UpdateOperator(c) == None
  {
    var a := WordStartFrom(c, 0);
    var b := WordRunEnd(c, a);
    if a < b && b + 3 <= |c| {
      assert c[b] != '[' by {
        assert IsNameStart(c[0]) && (b > 0 ==> IsNameChar(c[b]));
      }
    }
  }

  /** `col[JSON]` is a JSON key, and a plain name is not. */
  lemma JsonKeyOf(c: string)
    requires WordColumn(c)
    ensures JsonKey(StrKey(c + "[JSON]"))
    ensures !JsonKey(StrKey(c))
  {
    var s := c + "[JSON]";
    assert s[|c|..|c| + 6] == "[JSON]";
    assert OccursAt(s, "[JSON]", |c|);
    forall k | 0 <= k < |c| ensures !OccursAt(s, "[JSON]", k) && !OccursAt(c, "[JSON]", k) {
      assert s[k] == c[k];
      if k + 6 <= |s| {
        assert s[k..k + 6][0] == s[k];
      }
      if k + 6 <= |c| {
        assert c[k..k + 6][0] == c[k];
      }
    }
    var f := FindFrom(s, "[JSON]", 0);
    assert f.Some? && f.value == |c|;
    assert FindFrom(c, "[JSON]", 0).None?;
  }

  // ---------------------------------------------------------------------
  // update(): the fields it writes and binds

  /** Past the raw check, a value that is not a raw fragment is set by its key and type. */
  lemma UpdateFieldNotRaw(prefix: string, c: string, k: Key, v: Value, s: St)
    requires !v.Raw? && StripHint(KeyStr(k), UpdateHints) == c && IsName(c)
    ensures UpdateField(prefix, k, v, s) == Ok(UpdateValue([Ident(c)], k, v, s))
  {
    BareColumnQuote(prefix, c);
    assert s.(params := s.params) == s;
  }

  lemma FourPieces(a: Piece, b: Piece, c: Piece, d: Piece)
    ensures [a] + [b] + [c] + [d] == [a, b, c, d]
  {
  }

  /** Past the raw check, a `[op]` key sets `col = col op value` for a numeric value and nothing otherwise. */
  lemma UpdateFieldOp(prefix: string, c: string, k: Key, op: string, v: Value, s: St)
    requires !v.Raw? && StripHint(KeyStr(k), UpdateHints) == c && IsName(c)
    requires UpdateOperator(KeyStr(k)) == Some(op)
    ensures UpdateField(prefix, k, v, s) ==
      Ok(if IsNumeric(v) then (Some([Ident(c), Lit(" = "), Ident(c), Lit(" " + op + " " + StrCast(v).value)]), Draw(s))
         else (None, Draw(s)))
  {
    UpdateFieldNotRaw(prefix, c, k, v, s);
    if IsNumeric(v) {
      FourPieces(Ident(c), Lit(" = "), Ident(c), Lit(" " + op + " " + StrCast(v).value));
    }
  }

  /** Past the raw check, a key without operator sets the column to a new placeholder. */
  lemma UpdateFieldSet(prefix: string, c: string, k: Key, v: Value, s: St)
    requires !v.Raw? && StripHint(KeyStr(k), UpdateHints) == c && IsName(c)
    requires UpdateOperator(KeyStr(k)) == None
    ensures UpdateField(prefix, k, v, s) ==
      Ok((Some([Ident(c), Lit(" = "), Ph(s.guid, "")]), Bind(Draw(s), MapKeyName(s.guid), FieldBinding(k, v))))
  {
    UpdateFieldNotRaw(prefix, c, k, v, s);
    UpdateValueSet([Ident(c)], k, v, s);
    assert [Ident(c)] + [Lit(" = "), Ph(s.guid, "")] == [Ident(c), Lit(" = "), Ph(s.guid, "")];
  }

  /** A key without operator sets the column to a new placeholder bound to the value. */
  lemma UpdateValueSet(column: Sql, k: Key, v: Value, s: St)
    requires UpdateOperator(KeyStr(k)) == None
    ensures UpdateValue(column, k, v, s) ==
      (Some(column + [Lit(" = "), Ph(s.guid, "")]), Bind(Draw(s), MapKeyName(s.guid), FieldBinding(k, v)))
  {
  }

  /** A plain column with a scalar value is set to a new placeholder bound by the value's type. */
  lemma UpdatePlain(prefix: string, c: string, v: Value, s: St)
    requires IsName(c) && (v.Null? || v.Bool? || v.Int? || v.Str?)
    ensures UpdateField(prefix, StrKey(c), v, s) ==
      Ok((Some([Ident(c), Lit(" = "), Ph(s.guid, "")]), Bind(Draw(s), MapKeyName(s.guid), TypeMap(v))))
  {
    StripHintPlain(c, UpdateHints);
    UpdateOperatorPlain(c);
    UpdateFieldSet(prefix, c, StrKey(c), v, s);
  }

  /** `col[op]` with a numeric value sets `col = col op value`, binding nothing. */
  lemma UpdateArithmetic(prefix: string, c: string, op: string, v: Value, s: St)
    requires WordColumn(c) && op in ["+", "-", "*", "/"] && IsNumeric(v)
    ensures UpdateField(prefix, StrKey(c + "[" + op + "]"), v, s) ==
      Ok((Some([Ident(c), Lit(" = "), Ident(c), Lit(" " + op + " " + StrCast(v).value)]), Draw(s)))
  {
    StripOperatorHint(c, op);
    UpdateOperatorOf(c, op);
    UpdateFieldOp(prefix, c, StrKey(c + "[" + op + "]"), op, v, s);
  }

  /** `col[op]` with a value that is not numeric writes nothing, though it still draws a placeholder. */
  lemma UpdateNonNumericDropped(prefix: string, c: string, op: string, v: Value, s: St)
    requires WordColumn(c) && op in ["+", "-", "*", "/"] && !IsNumeric(v) && !v.Raw?
    ensures UpdateField(prefix, StrKey(c + "[" + op + "]"), v, s) == Ok((None, Draw(s)))
  {
    StripOperatorHint(c, op);
    UpdateOperatorOf(c, op);
    UpdateFieldOp(prefix, c, StrKey(c + "[" + op + "]"), op, v, s);
  }

  /** `col[JSON]` with an array sets the column to a placeholder bound to the array's JSON text. */
  lemma UpdateJson(prefix: string, c: string, es: PArray, s: St)
    requires WordColumn(c)
    ensures UpdateField(prefix, StrKey(c + "[JSON]"), Arr(es), s) ==
      Ok((Some([Ident(c), Lit(" = "), Ph(s.guid, "")]), Bind(Draw(s), MapKeyName(s.guid), Binding(JsonEncoded(Arr(es)), ParamStr))))
  {
    StripJsonHint(c);
    UpdateOperatorJson(c);
    JsonKeyOf(c);
    UpdateFieldSet(prefix, c, StrKey(c + "[JSON]"), Arr(es), s);
  }

  /** One field, if written, is sound; at most one placeholder is drawn. */
  lemma UpdateFieldSound(prefix: string, k: Key, v: Value, s0: St)
    requires WfValue(v) && UpdateField(prefix, k, v, s0).Ok?
    ensures var (f, s1) := UpdateField(prefix, k, v, s0).value;
      Sound(if f.Some? then f.value else [], s0, s1) && s1.guid <= s0.guid + 1
  {
    var column := ColumnQuote(prefix, StripHint(KeyStr(k), UpdateHints)).value;
    TruthyRawSound(prefix, v, s0, s0);
    var (raw, m) := TruthyRaw(prefix, v, s0.params).value;
    HolesLit(column, " = ");
    if raw.Some? {
      SoundNoHoles(column + [Lit(" = ")], s0, s0.(params := m));
      SoundConcat(column + [Lit(" = ")], raw.value, s0, s0.(params := m), s0.(params := m));
    } else {
      UpdateValueSound(column, k, v, s0, s0.(params := m));
    }
  }

  lemma UpdateValueSound(column: Sql, k: Key, v: Value, s0: St, s: St)
    requires Holes(column) == [] && Grows(s0, s) && s.guid == s0.guid
    ensures var (f, s1) := UpdateValue(column, k, v, s);
      Sound(if f.Some? then f.value else [], s0, s1) && s1.guid == s0.guid + 1
  {
    var (f, s1) := UpdateValue(column, k, v, s);
    HolesLit(column, " = ");
    match UpdateOperator(KeyStr(k))
    case Some(op) =>
      if f.Some? {
        HolesConcat(column + [Lit(" = ")], column);
        HolesLit(column + [Lit(" = ")] + column, " " + op + " " + StrCast(v).value);
        SoundNoHoles(f.value, s0, s1);
      } else {
        SoundNoHoles([], s0, s1);
      }
    case None =>
      var n := s0.guid;
      UpdateValueSet(column, k, v, s);
      HolesLit2(column, " = ", Ph(n, ""));
      assert PhName(n, "") in Names(s1.params);
      SoundDrawn(f.value, s0, s1);
  }

  lemma {:induction false} UpdateFieldsSound(prefix: string, es: PArray, s0: St)
    requires WfEntries(es) && UpdateFields(prefix, es, s0).Ok?
    ensures var (fs, s1) := UpdateFields(prefix, es, s0).value;
      |fs| <= |es| && Sound(Flatten(fs), s0, s1)
    decreases es
  {
    if es != [] {
      assert WfEntry(es[0]);
      UpdateFieldSound(prefix, es[0].0, es[0].1, s0);
      var (f, s1) := UpdateField(prefix, es[0].0, es[0].1, s0).value;
      assert WfEntries(es[1..]) by {
        forall i | 0 <= i < |es[1..]| ensures WfEntry(es[1..][i]) {
          assert es[1..][i] == es[i + 1];
        }
      }
      UpdateFieldsSound(prefix, es[1..], s1);
      var (fs, s2) := UpdateFields(prefix, es[1..], s1).value;
      var q := if f.Some? then f.value else [];
      SoundConcat(q, Flatten(fs), s0, s1, s2);
      if f.Some? {
        FlattenCons(f.value, fs);
      } else {
        assert [] + fs == fs;
      }
    }
  }

  /** A successful update() is the UPDATE of the quoted table, the joined fields and the where clause. */
  lemma UpdateQueryParts(prefix: string, table: string, data: Value, where: Value, s0: St)
    requires UpdateQuery(prefix, table, data, where, s0).Ok?
    ensures var (fields, s1) := UpdateFields(prefix, EntriesOf(data), s0).value;
      && UpdateFields(prefix, EntriesOf(data), s0).Ok?
      && TableQuote(prefix, table).Ok? && WhereClause(prefix, where, s1).Ok?
      && UpdateQuery(prefix, table, data, where, s0).value ==
         ([Lit("UPDATE ")] + TableQuote(prefix, table).value + [Lit(" SET ")] + Join(fields, ", ") + WhereClause(prefix, where, s1).value.0,
          WhereClause(prefix, where, s1).value.1)
  {
  }

  /** Every placeholder update() writes is bound, fresh and used once. */
  lemma UpdateSound(prefix: string, table: string, data: Value, where: Value, s0: St)
    requires WfValue(data) && WfValue(where) && UpdateQuery(prefix, table, data, where, s0).Ok?
    ensures var (q, s2) := UpdateQuery(prefix, table, data, where, s0).value; Sound(q, s0, s2)
  {
    UpdateQueryParts(prefix, table, data, where, s0);
    var (fields, s1) := UpdateFields(prefix, EntriesOf(data), s0).value;
    assert WfEntries(EntriesOf(data));
    UpdateFieldsSound(prefix, EntriesOf(data), s0);
    WhereClauseSound(prefix, where, s1);
    UpdateAssembly(TableQuote(prefix, table).value, fields, WhereClause(prefix, where, s1).value.0, s0, s1, WhereClause(prefix, where, s1).value.1);
  }

  // ---------------------------------------------------------------------
  // delete(), drop()

  /** delete() is `DELETE FROM` the quoted table and the where clause, and succeeds exactly when they compile. */
  lemma DeleteShape(prefix: string, t: string, where: Value, s: St)
    requires IsName(t)
    ensures var r := DeleteQuery(prefix, t, where, s);
      var w := WhereClause(prefix, where, s);
      && (r.Ok? <==> w.Ok?)
      && (w.Ok? ==> r.value == ([Lit("DELETE FROM "), Ident(prefix + t)] + w.value.0, w.value.1))
  {
    Select.PlainTableName(t, 0);
    assert TableQuote(prefix, t) == Ok([Ident(prefix + t)]);
    assert [Lit("DELETE FROM ")] + [Ident(prefix + t)] == [Lit("DELETE FROM "), Ident(prefix + t)];
  }

  /** Every placeholder delete() writes is bound, fresh and used once. */
  lemma DeleteSound(prefix: string, table: string, where: Value, s0: St)
    requires WfValue(where) && DeleteQuery(prefix, table, where, s0).Ok?
    ensures var (q, s1) := DeleteQuery(prefix, table, where, s0).value; Sound(q, s0, s1)
  {
    var t := TableQuote(prefix, table).value;
    WhereClauseSound(prefix, where, s0);
    var (w, s1) := WhereClause(prefix, where, s0).value;
    LitNoHoles("DELETE FROM ");
    HolesConcat([Lit("DELETE FROM ")], t);
    SoundNoHoles([Lit("DELETE FROM ")] + t, s0, s0);
    SoundConcat([Lit("DELETE FROM ")] + t, w, s0, s0, s1);
  }

  /** drop() names the prefixed, quoted table, and refuses a table name that is not a name. */
  lemma DropShape(prefix: string, t: string)
    ensures IsName(t) ==> DropQuery(prefix, t) == Ok([Lit("DROP TABLE IF EXISTS "), Ident(prefix + t)])
    ensures IsName(t) ==> Render(DropQuery(prefix, t).value) == "DROP TABLE IF EXISTS \"" + prefix + t + "\""
    ensures DropQuery(prefix, t).Ok? <==> TableQuote(prefix, t).Ok?
  {
    if IsName(t) {
      Select.PlainTableName(t, 0);
      assert TableQuote(prefix, t) == Ok([Ident(prefix + t)]);
      assert [Lit("DROP TABLE IF EXISTS ")] + [Ident(prefix + t)] == [Lit("DROP TABLE IF EXISTS "), Ident(prefix + t)];
      DropRender(prefix, t);
    }
  }

  lemma DropRender(p: string, t: string)
    ensures Render([Lit("DROP TABLE IF EXISTS "), Ident(p + t)]) == "DROP TABLE IF EXISTS \"" + p + t + "\""
  {
    RenderPair(Lit("DROP TABLE IF EXISTS "), Ident(p + t));
    assert "DROP TABLE IF EXISTS \"" + (p + t) == "DROP TABLE IF EXISTS \"" + p + t;
  }


  // ---------------------------------------------------------------------
  // create()

  /** Text without a `<` comes out as one literal. */
  lemma {:induction false} AngleQuotePlain(s: string, i: nat, lit: string)
    requires i <= |s| && forall k :: i <= k < |s| ==> s[k] != '<'
    ensures AngleQuote(s, i, lit) == [Lit(lit + s[i..])]
    decreases |s| - i
  {
    if i < |s| {
      AngleQuotePlain(s, i + 1, lit + [s[i]]);
      assert lit + [s[i]] + s[i + 1..] == lit + s[i..];
    } else {
      assert lit + s[i..] == lit;
    }
  }

  /** `<name>` becomes the quoted name. */
  lemma AngleQuoteName(n: string)
    requires IsName(n)
    ensures AngleQuote("<" + n + ">", 0, "") == [Lit(""), Ident(n), Lit("")]
  {
    var s := "<" + n + ">";
    assert s[1..|n| + 1] == n;
    assert s[1] == n[0];
    var j := NameRunEnd(s, 1);
    forall k | 1 <= k < |n| + 1 ensures IsNameChar(s[k]) {
      assert s[k] == n[k - 1];
      if k > 1 {
        assert IsNameChar(n[k - 1]);
      } else {
        assert IsNameStart(n[0]);
      }
    }
    assert s[|n| + 1] == '>';
    assert j == |n| + 1;
    assert AngleQuote(s, |s|, "") == [Lit("")];
  }

  /** A named column with a string definition is the quoted name, a space and the definition. */
  lemma CreateNamedColumn(prefix: string, c: string, d: string)
    requires IsName(c)
    ensures CreateColumn(prefix, (StrKey(c), Str(d))) == Ok(Some([Ident(c), Lit(" " + d)]))
  {
    BareColumnQuote(prefix, c);
    assert [Ident(c)] + [Lit(" " + d)] == [Ident(c), Lit(" " + d)];
  }

  /** A named column with a list of words is the quoted name and the words joined by spaces. */
  lemma CreateWordsColumn(prefix: string, c: string, a: string, b: string)
    requires IsName(c)
    ensures CreateColumn(prefix, (StrKey(c), Arr([(IntKey(0), Str(a)), (IntKey(1), Str(b))]))) == Ok(Some([Ident(c), Lit(" " + a + " " + b)]))
  {
    var es := [(IntKey(0), Str(a)), (IntKey(1), Str(b))];
    WordsPair(a, b);
    NamedWords(prefix, c, es, a + " " + b);
    assert " " + (a + " " + b) == " " + a + " " + b;
  }

  lemma WordsPair(a: string, b: string)
    ensures WordsText([(IntKey(0), Str(a)), (IntKey(1), Str(b))]) == Ok(a + " " + b)
  {
    var es := [(IntKey(0), Str(a)), (IntKey(1), Str(b))];
    assert es[1..] == [(IntKey(1), Str(b))] && es[1..][1..] == [];
    assert WordsText(es[1..]) == Ok(b);
  }

  lemma NamedWords(prefix: string, c: string, es: PArray, w: string)
    requires IsName(c) && WordsText(es) == Ok(w)
    ensures CreateColumn(prefix, (StrKey(c), Arr(es))) == Ok(Some([Ident(c), Lit(" " + w)]))
  {
    BareColumnQuote(prefix, c);
    assert [Ident(c)] + [Lit(" " + w)] == [Ident(c), Lit(" " + w)];
  }

  /** A column under a name that holds neither a string nor a list is left out. */
  lemma CreateSkipsOther(prefix: string, c: string, v: Value)
    requires !v.Arr? && !v.Str?
    ensures CreateColumn(prefix, (StrKey(c), v)) == Ok(None)
  {
  }

  /** The option list reads `key = value` for each string or integer option, joined by commas. */
  lemma TableOptionPairs(k1: string, v1: string, k2: string, v2: int)
    ensures TableOption(Arr([(StrKey(k1), Str(v1)), (StrKey(k2), Int(v2))])) == " " + k1 + " = " + v1 + ", " + k2 + " = " + IntStr(v2)
  {
    var a, b := k1 + " = " + v1, k2 + " = " + IntStr(v2);
    OptionItemsPair(k1, v1, k2, v2);
    ImplodePair(a, b, ", ");
  }

  lemma OptionItemsPair(k1: string, v1: string, k2: string, v2: int)
    ensures OptionItems([(StrKey(k1), Str(v1)), (StrKey(k2), Int(v2))]) == [k1 + " = " + v1, k2 + " = " + IntStr(v2)]
  {
    var es := [(StrKey(k1), Str(v1)), (StrKey(k2), Int(v2))];
    assert es[1..] == [(StrKey(k2), Int(v2))] && es[1..][1..] == [];
    assert OptionItems(es[1..]) == [k2 + " = " + IntStr(v2)];
  }

  lemma ImplodePair(a: string, b: string, sep: string)
    ensures ImplodeStr([a, b], sep) == a + sep + b
  {
    assert [a, b][1..] == [b];
  }

  /** `create(t, [c => d])` is `CREATE TABLE IF NOT EXISTS "t" ("c" d)` and the options. */
  lemma CreateOneColumn(prefix: string, t: string, c: string, d: string, options: Value)
    requires IsName(t) && IsName(c)
    ensures CreateQuery(prefix, t, Arr([(StrKey(c), Str(d))]), options) ==
      Ok([Lit("CREATE TABLE IF NOT EXISTS "), Ident(prefix + t), Lit(" ("), Ident(c), Lit(" " + d), Lit(")" + TableOption(options))])
  {
    Select.PlainTableName(t, 0);
    CreateNamedColumn(prefix, c, d);
    var es := [(StrKey(c), Str(d))];
    assert es[1..] == [];
    assert TableQuote(prefix, t) == Ok([Ident(prefix + t)]);
    assert CreateColumns(prefix, es[1..]) == Ok([]);
    assert es[0] == (StrKey(c), Str(d));
    assert [[Ident(c), Lit(" " + d)]] + [] == [[Ident(c), Lit(" " + d)]];
    assert CreateColumns(prefix, es) == Ok([[Ident(c), Lit(" " + d)]]);
    assert Join([[Ident(c), Lit(" " + d)]], ", ") == [Ident(c), Lit(" " + d)];
    assert EntriesOf(Arr(es)) == es;
    var o := Lit(")" + TableOption(options));
    assert [Lit("CREATE TABLE IF NOT EXISTS ")] + [Ident(prefix + t)] + [Lit(" (")] + [Ident(c), Lit(" " + d)] + [o] ==
      [Lit("CREATE TABLE IF NOT EXISTS "), Ident(prefix + t), Lit(" ("), Ident(c), Lit(" " + d), o];
  }

  // ---------------------------------------------------------------------
  // get(), rand(), has() and the aggregates

  /**
   * get() always asks for one row: `LIMIT 1` goes into the where argument,
   * or into the columns when there is neither a where argument nor a join;
   * it fails exactly when that argument cannot take the key.
   */
  lemma GetLimitOne(join: Value, columns: Value, where: Value)
    ensures var target := if where == Null && !IsJoin(join) then columns else where;
      GetArgs(join, columns, where).Ok? <==> target.Null? || target == Bool(false) || target.Arr?
    ensures GetArgs(join, columns, where).Ok? ==>
      var (cols, w, column) := GetArgs(join, columns, where).value;
      if where == Null && !IsJoin(join) then
        cols.Arr? && Get(cols.entries, StrKey("LIMIT")) == Int(1) && w == where && column == join
      else
        w.Arr? && Get(w.entries, StrKey("LIMIT")) == Int(1) && cols == columns && column == (if where == Null then join else columns)
  {
    SetKeySpec(columns, StrKey("LIMIT"), Int(1));
    SetKeySpec(where, StrKey("LIMIT"), Int(1));
  }

  /** rand() adds `ORDER => RAND()` where get() adds its limit. */
  lemma RandOrder(join: Value, columns: Value, where: Value)
    ensures var target := if where == Null && !IsJoin(join) then columns else where;
      RandArgs(join, columns, where).Ok? <==> target.Null? || target == Bool(false) || target.Arr?
    ensures RandArgs(join, columns, where).Ok? ==>
      var (cols, w) := RandArgs(join, columns, where).value;
      var order := Raw(Fragment([FText("RAND()")], []));
      if where == Null && !IsJoin(join) then
        cols.Arr? && Get(cols.entries, StrKey("ORDER")) == order && w == where
      else
        w.Arr? && Get(w.entries, StrKey("ORDER")) == order && cols == columns
  {
    var order := Raw(Fragment([FText("RAND()")], []));
    SetKeySpec(columns, StrKey("ORDER"), order);
    SetKeySpec(where, StrKey("ORDER"), order);
  }

  /** A limit of 1 is written ` LIMIT 1`. */
  lemma LimitOne(es: PArray)
    ensures LimitPart(Put(es, StrKey("LIMIT"), Int(1))) == [Lit(" LIMIT 1")]
  {
    GetPut(es, StrKey("LIMIT"), Int(1));
    assert NatStr(1) == "1";
    assert StrCast(Int(1)) == Some("1");
    assert " LIMIT " + "1" == " LIMIT 1";
  }

  /**
   * `get(t, c, cond)`: the column of the first row whose conditions hold,
   * the conditions compiled with `LIMIT 1`.
   */
  lemma GetColumnWhere(prefix: string, t: string, c: string, cond: PArray, s: St)
    requires IsName(t) && IsName(c)
    ensures var r := GetQuery(prefix, t, Str(c), Arr(cond), Null, s);
      var w := WhereClause(prefix, Arr(Put(cond, StrKey("LIMIT"), Int(1))), s);
      && (r.Ok? <==> w.Ok?)
      && (w.Ok? ==> r.value == ([Lit("SELECT ")] + [Ident(c)] + [Lit(" FROM ")] + [Ident(prefix + t)] + w.value.0, Arr([(IntKey(0), Str(c))]), Str(c), w.value.1))
  {
    assert !IsJoin(Str(c));
    assert GetArgs(Str(c), Arr(cond), Null) == Ok((Arr(Put(cond, StrKey("LIMIT"), Int(1))), Null, Str(c)));
    SelectColumnWhere(prefix, t, c, Arr(Put(cond, StrKey("LIMIT"), Int(1))), s);
  }

  /** `has(t, cond)`: `SELECT EXISTS(SELECT 1 FROM t WHERE ...)`. */
  lemma HasShape(prefix: string, t: string, cond: Value, s: St)
    requires IsName(t) && !IsJoin(cond)
    ensures var r := HasQuery(prefix, t, cond, Null, s);
      var w := WhereClause(prefix, cond, s);
      && (r.Ok? <==> w.Ok?)
      && (w.Ok? ==> r.value == ([Lit("SELECT EXISTS(")] + ([Lit("SELECT ")] + [Lit("1")] + [Lit(" FROM ")] + [Ident(prefix + t)] + w.value.0) + [Lit(")")], w.value.1))
  {
    ExistsWhere(prefix, t, cond, s);
  }

  /** Every placeholder has() writes is bound, fresh and used once. */
  lemma HasSound(prefix: string, table: string, join: Value, where: Value, s0: St)
    requires WfValue(join) && WfValue(where) && HasQuery(prefix, table, join, where, s0).Ok?
    ensures var (q, s1) := HasQuery(prefix, table, join, where, s0).value; Sound(q, s0, s1)
  {
    SelectContextSound(prefix, table, join, Null, where, Int(1), s0);
    var (q, _, s1) := SelectContext(prefix, table, join, Null, where, Int(1), s0).value;
    LitNoHoles("SELECT EXISTS(");
    LitNoHoles(")");
    SoundWrap([Lit("SELECT EXISTS(")], q, [Lit(")")], s0, s1);
  }

  /** `count(t, cond)` and the other aggregates: `SELECT FN(*) FROM t WHERE ...`. */
  lemma AggregateShape(prefix: string, fn: string, t: string, cond: PArray, s: St)
    requires IsName(t) && !IsJoin(Arr(cond))
    ensures var r := AggregateQuery(prefix, fn, t, Arr(cond), Null, Null, s);
      var w := WhereClause(prefix, Arr(cond), s);
      && (r.Ok? <==> w.Ok?)
      && (w.Ok? ==> r.value == ([Lit("SELECT ")] + [Lit(fn + "("), Lit("*"), Lit(")")] + [Lit(" FROM ")] + [Ident(prefix + t)] + w.value.0, w.value.1))
  {
    AggregateWhere(prefix, t, fn, Arr(cond), s);
  }

  /** Every placeholder an aggregate writes is bound, fresh and used once. */
  lemma AggregateSound(prefix: string, fn: string, table: string, join: Value, column: Value, where: Value, s0: St)
    requires WfValue(join) && WfValue(column) && WfValue(where)
    requires AggregateQuery(prefix, fn, table, join, column, where, s0).Ok?
    ensures var (q, s1) := AggregateQuery(prefix, fn, table, join, column, where, s0).value; Sound(q, s0, s1)
  {
    SelectContextSound(prefix, table, join, column, where, Str(fn), s0);
  }

  /** has() answers true for `'1'`, 1 and true only; count() reads null as 0 and a number as itself. */
  lemma ExistsAndCount(i: nat)
    ensures Exists(Str("1")) && Exists(Int(1)) && Exists(Bool(true))
    ensures !Exists(Str("0")) && !Exists(Int(0)) && !Exists(Null) && !Exists(Bool(false))
    ensures CountOf(None) == 0 && CountOf(Some(NatStr(i))) == i
  {
    IntOfNatStr(i);
  }

  lemma {:induction false} SkipAllDigits(s: string, i: nat)
    requires i <= |s| && AllDigits(s)
    ensures SkipDigits(s, i) == |s|
    decreases |s| - i
  {
    if i < |s| {
      SkipAllDigits(s, i + 1);
    }
  }

  /** `(int)` of a number's decimal text is the number. */
  lemma IntOfNatStr(i: nat)
    ensures IntOfStr(NatStr(i)) == i
  {
    NatStrShape(i);
    var s := NatStr(i);
    assert IsDigit(s[0]);
    assert SkipSpaces(s, 0) == 0;
    SkipAllDigits(s, 0);
    assert s[0..|s|] == s;
  }
}
