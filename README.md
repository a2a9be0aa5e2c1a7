# itchat query builder, signing and validation helpers, in Dafny

This project models three parts of the itchat Swoole/PHP backend:

- **The `DB` class** (`App/Extend/DB/DB.php`). It is a Medoo-style query
  builder over PDO. It turns PHP arrays into SQL text with named
  placeholders (`:MeD<n>_mK…`), binds each placeholder to a value and a PDO
  type, runs the statement on a pooled connection, and shapes the fetched
  rows back into arrays. It also handles transactions held on one
  connection.
- **Three `SystemUtil` helpers** (`App/Util/SystemUtil.php`):
  - `signStr`: the key-sorted `k=v&` signature text, and its digest;
  - `ParamsTrim`: trims request parameters in place;
  - `getClientIp`: the header fallback chain.
- **The two `Validate` helpers** (`App/Extend/Validate/Validate.php`):
  - `Check`: annotates rule messages, then validates;
  - `Filtration`: copies non-empty listed fields.

## How the model is laid out

PHP values are a datatype in module `Php` (`php.dfy`):

- null, bool, int, string, ordered array, raw fragment and opaque object;
- PHP arrays are sequences of `(Key, Value)` entries in insertion order, with
  `Put` (`$a[$k] = $v`), `Unset`, `Get`, `IsSet`;
- `Empty` and the string and int casts follow PHP 8.

SQL text is a sequence of pieces (`Sql`): literal text, quoted identifiers,
generated placeholders `Ph(n, suffix)` and the named parameters of raw
fragments. The central safety property is `Sql.Sound(q, s0, s1)`:

- every placeholder in `q` is bound in the parameter map of state `s1`;
- every generated placeholder was drawn from the counter between `s0` and
  `s1`;
- no placeholder occurs twice.

Each compiler below carries a `…Sound` lemma.

| module | file | what it covers |
|---|---|---|
| `Php` | `php.dfy` | PHP values and arrays |
| `Sql` | `sql.dfy` | statements as pieces, placeholder names, `Sound` |
| `Quoting` | `quoting.dfy` | `quote`, `tableQuote`, `columnQuote`, `typeMap`, `buildRaw` |
| `Patterns` | `patterns.dfy` | the regular expressions DB.php matches keys and columns with |
| `Conditions` | `conditions.dfy` | `dataImplode` |
| `Clauses` | `clauses.dfy` | `whereClause` |
| `Columns` | `columns.dfy` | `columnPush` |
| `Select` | `select.dfy` | `buildJoin` and `selectContext` |
| `Shaper` | `shaper.dfy` | `columnMap`, `dataMap` and the row shaping of `select` and `get` |
| `Statements` | `statements.dfy` | the statement compilers of `insert`, `update`, `delete`, `replace`, `create`, `drop`, `get`, `has`, `rand` and the aggregates |
| `Database` | `db.dfy` | the `DB` object and the connection `Pool` (see below) |
| `SystemUtil` | `system_util.dfy` | `signStr`, `ParamsTrim`, `getClientIp` |
| `Validate` | `validate.dfy` | `Check` and `Filtration` |

`Database` holds two classes:

- `Pool` stands for `Connection`'s pool. It hands out fresh handles and
  takes them back.
- `DB` has the object's fields:
  - `guid`, `pdo`, `statement`, `logs`, `logging`, `debugMode`,
    `errorInfo`, `inTransaction`;
  - the deferred rollbacks;
  - what was echoed and what was sent to the driver.

Its methods update those fields as DB.php does. Each statement method is
proved against the pure compiler of its statement. The driver's behaviour is
a parameter:

- `ExecDriver`: prepare fails, execute returns ok/failed with error info and
  a last insert id, or the driver throws;
- `DriverCall`: BEGIN, COMMIT and ROLLBACK succeed or fail;
- fetched rows and fetched columns;
- `rowCount`.

The loop methods are imperative, as in PHP:

- `DB.DataImplode`, `DB.ColumnPush`, `DB.ColumnMap`, `DB.DataMapPass`,
  `DB.DataMap`, `DB.BuildJoin`, `DB.Log`, `DB.ScopeExit`;
- `SystemUtil.SignStr`, `SystemUtil.ParamsTrim`;
- `Validate.Check`, `Validate.Filtration`.

Each is proved equal to a recursive specification function, and the
properties are lemmas about that function.

## Model

| member | source | states |
|---|---|---|
| Php.Put | App/Extend/Validate/Validate.php:35 | `$a[$k] = $v` overwrites in place when `k` is present (same length) and appends `(k, v)` otherwise |
| Php.Unset | App/Util/SystemUtil.php:130 | `unset($a[$k])` leaves an array without `k` unchanged and drops exactly one entry otherwise; every other key stays present or absent as before, and a PHP array (unique keys) keeps unique keys and no longer holds `k` |
| Php.GetUnset | App/Util/SystemUtil.php:130 | after `unset($a[$k])`, `k` reads null, every other key reads what it read before, and the entries before and after `k` keep their order |
| Php.GetPut | App/Util/SystemUtil.php:132 | after `$a[$k] = $x`, `k` reads `x` and is set exactly when `x` is not null; every other key reads what it read before |
| Php.SetKeySpec | App/Extend/DB/DB.php:1127-1134 | `$v[$k] = $x` succeeds exactly on null, false and arrays; then `k` reads `x` and every other key reads what it read before (null, for null and false) |
| Php.IndexOf | App/Extend/Validate/Validate.php:35 | the position of a present key is its first occurrence |
| Php.NatStrInjective | App/Extend/DB/DB.php:49 | different counter values print differently, so generated names never collide |
| Php.KeyStrInjective | App/Extend/DB/DB.php:326 | distinct normalised array keys have distinct string forms |
| Php.PrefixedAppend | App/Util/SystemUtil.php:91 | string concatenation onto a result that may be an exception is associative |
| Sql.PhNameInjective | App/Extend/DB/DB.php:47-50 | two placeholder names `:MeD<n>_mK<suffix>` are equal only for equal counters and suffixes |
| Sql.PhNameDistinct | App/Extend/DB/DB.php:47-50 | different counters or suffixes give different placeholder names |
| Sql.RenderConcat | App/Extend/DB/DB.php:416 | rendering a statement distributes over concatenation |
| Sql.FlattenConcat | App/Extend/DB/DB.php:416 | the pieces of a concatenated stack are the concatenation of their pieces |
| Sql.Assign | App/Extend/DB/DB.php:309 | `$map[$k] = $v` on the parameter map: the names become the old names plus `k`; length grows only for a new name |
| Sql.AssignLookup | App/Extend/DB/DB.php:309 | after `$map[$k] = $v`, `k` reads `v` and every other name reads what it read before |
| Sql.HolesConcat | App/Extend/DB/DB.php:416 | the placeholders of a concatenation are those of its parts, in order |
| Sql.HolesJoin | App/Extend/DB/DB.php:416 | `implode` with a separator keeps exactly the placeholders of its parts |
| Sql.SoundConcat | App/Extend/DB/DB.php:1015 | two statements compiled one after the other compose into a sound statement |
| Sql.SoundGrow | App/Extend/DB/DB.php:422-531 | a sound statement stays sound while the state keeps growing |
| Sql.SoundWrap | App/Extend/DB/DB.php:289 | wrapping a sound statement in literal text keeps it sound |
| Quoting.TableQuote | App/Extend/DB/DB.php:188-195 | a table name is accepted exactly when it is an anchored name, and renders as `"prefix table"` |
| Quoting.ColumnQuote | App/Extend/DB/DB.php:200-206 | a column is accepted exactly when it is an anchored column; a bare name renders `"c"`, a qualified one `"prefix t"."c"` |
| Quoting.BareColumnQuote | App/Extend/DB/DB.php:200-206 | a plain name is quoted as itself without the prefix |
| Quoting.TableNameHasNoQuote | App/Extend/DB/DB.php:190 | an accepted table name has no double quote, so it cannot end the quoting early |
| Quoting.ColumnNameHasNoQuote | App/Extend/DB/DB.php:202 | an accepted column has no double quote |
| Quoting.Quote | App/Extend/DB/DB.php:176-183 | quote() as written for MySQL gives a single-quoted literal |
| Quoting.QuoteLeavesBackslash | App/Extend/DB/DB.php:178-179 | as written, `quote("\")` is `'\'`, which MySQL does not read as a complete literal |
| Quoting.QuoteAddsBackslashToDoubleQuote | App/Extend/DB/DB.php:178-179 | as written, a double quote comes back from MySQL with a backslash in front |
| Quoting.QuoteEscaped | App/Extend/DB/DB.php:176-183 | quote() as intended: a single-quoted literal |
| Quoting.QuoteEscapedRoundTrip | App/Extend/DB/DB.php:176-183 | the intended literal reads back as exactly the string, and ends where it should |
| Quoting.TypeMap | App/Extend/DB/DB.php:208-225 | the PDO type is NULL, INT or BOOL exactly for null, int and bool, STR exactly for strings and objects, and none for an array (missing from the table); a bool is bound as `'1'` or `'0'`, anything else as itself |
| Quoting.TokenSql | App/Extend/DB/DB.php:149-174 | a quoted raw token mentions only its own named parameter |
| Quoting.FragmentSql | App/Extend/DB/DB.php:149-174 | a raw fragment's SQL only mentions parameters the fragment declares |
| Quoting.MergeParams | App/Extend/DB/DB.php:165-169 | buildRaw() adds exactly the fragment's parameter names to the map |
| Quoting.BuildRaw | App/Extend/DB/DB.php:149-174 | anything but a raw fragment gives no SQL; a raw fragment gives SQL and the map with its parameters added |
| Quoting.BuildRawHoles | App/Extend/DB/DB.php:149-174 | a closed fragment only mentions parameters that the new map binds |
| Patterns.ParseCondKey | App/Extend/DB/DB.php:293-298 | the column matched by dataImplode()'s key pattern is a column run; there is no match exactly when no character can start a name |
| Patterns.ParsePlainColumn | App/Extend/DB/DB.php:293-298 | a key that is just a column has no operator and no second column |
| Patterns.ParseColumnOperator | App/Extend/DB/DB.php:293-298 | `column[op]` is read as that column with the operator `op` |
| Patterns.ParseColumnComparison | App/Extend/DB/DB.php:293-298 | `a[op]b` is read as columns `a` and `b` with operator `op` |
| Patterns.ColumnNameIsRun | App/Extend/DB/DB.php:293-298 | a name, or two names joined by a dot, is matched whole by the column group |
| Patterns.ParseColumnToken | App/Extend/DB/DB.php:255 | columnPush()'s token pattern yields a column run |
| Patterns.ParseRawColumn | App/Extend/DB/DB.php:249 | columnPush()'s raw-key pattern yields a column run |
| Patterns.ParseMappedColumn | App/Extend/DB/DB.php:694-704 | columnMap()'s type hint is one of the allowed types, and without alias matching there is no alias |
| Patterns.LikeItem | App/Extend/DB/DB.php:358-361 | the bound item is the item itself or the item wrapped in `%…%`, and either way it reads as a LIKE pattern |
| Patterns.LikeItemIdempotent | App/Extend/DB/DB.php:359-361 | shaping an already shaped item changes nothing |
| Patterns.WildcardIsKept | App/Extend/DB/DB.php:359 | an item with an unescaped `*`, `?`, `!`, `%`, `#`, `^` or `_` is bound as it is |
| Patterns.PercentEdgeIsKept | App/Extend/DB/DB.php:359 | an item starting or ending with `%` next to another character that is not a line break is bound as it is |
| Patterns.BracketIsKept | App/Extend/DB/DB.php:359 | an item with an unescaped `[…]` bracket closed on its line is bound as it is |
| Patterns.PlainTextIsWrapped | App/Extend/DB/DB.php:358-361 | plain text with no wildcard or bracket is wrapped in `%…%` |
| Patterns.Relation | App/Extend/DB/DB.php:285-288 | a group key names the connective `AND` or `OR` |
| Conditions.Draw | App/Extend/DB/DB.php:292 | mapKey() moves the counter on by one and binds nothing |
| Conditions.Bind | App/Extend/DB/DB.php:309 | `$map[$name] = $binding` adds `name` to the map's names and leaves the counter alone |
| Conditions.BindItems | App/Extend/DB/DB.php:394-398 | binding an IN list adds one `<mapKey><index>_i` name per element |
| Conditions.LikeClauses | App/Extend/DB/DB.php:356-364 | there is one LIKE clause per alternative |
| Conditions.Operator | App/Extend/DB/DB.php:305-386 | an operator that is not `>`, `>=`, `<`, `<=`, `!`, `~`, `!~`, `<>`, `><` or `REGEXP` throws naming the quoted column and the operator |
| Conditions.ImplodeSound | App/Extend/DB/DB.php:280-417 | every placeholder dataImplode() writes is bound in its map, drawn during the call and used once; raw fragment parameters are bound too |
| Conditions.ConditionsSound | App/Extend/DB/DB.php:283-414 | the loop keeps the earlier stack and adds a sound run of conditions |
| Conditions.ConditionSound | App/Extend/DB/DB.php:284-413 | one entry adds at most one condition, and it is sound |
| Conditions.LeafSound | App/Extend/DB/DB.php:292-413 | one non-group entry adds at most one sound condition |
| Conditions.OperatorSound | App/Extend/DB/DB.php:305-386 | an operator condition is sound |
| Conditions.CompareSound | App/Extend/DB/DB.php:388-413 | an equality condition is sound |
| Conditions.OrderingSound | App/Extend/DB/DB.php:306-317 | a `>`/`>=`/`<`/`<=` condition is sound |
| Conditions.BetweenSound | App/Extend/DB/DB.php:366-380 | a BETWEEN condition is sound |
| Conditions.LikeSound | App/Extend/DB/DB.php:344-365 | a LIKE group is sound |
| Conditions.InListSound | App/Extend/DB/DB.php:393-400 | an IN list is sound: its `_i` placeholders are distinct and bound |
| Conditions.InPhsDistinct | App/Extend/DB/DB.php:395 | distinct keys of one array give distinct `_i` placeholders |
| Conditions.LeafAt | App/Extend/DB/DB.php:292-386 | a string-keyed non-group entry is compiled by its column and operator: the equality switch without an operator, the operator branch otherwise |
| Conditions.NullCondition | App/Extend/DB/DB.php:320-321 | `c => null` is `"c" IS NULL` and `c[!] => null` is `"c" IS NOT NULL`; nothing is bound |
| Conditions.NegatedIsCompare | App/Extend/DB/DB.php:318-342 | `[!]` is the equality switch with every test negated |
| Conditions.InListShape | App/Extend/DB/DB.php:393-400 | an array value is `col IN (…)` (or `NOT IN`) with one placeholder per element, each bound to that element's typeMap() |
| Conditions.GroupCondition | App/Extend/DB/DB.php:285-291 | an `AND`/`OR` group is its own conditions joined by that word in parentheses, and fails exactly when they fail |
| Conditions.RelationKeys | App/Extend/DB/DB.php:287 | `AND`, `OR` and `AND #comment` name groups; `ORDER` and `ANDROID` do not |
| Conditions.ColumnComparisonCondition | App/Extend/DB/DB.php:301-304 | an int-keyed `a[op]b` with a comparison operator compares two quoted columns and binds nothing |
| Conditions.UnknownOperatorThrows | App/Extend/DB/DB.php:383-384 | any other operator throws |
| Conditions.NotEqualKeyThrows | App/Extend/DB/DB.php:383-384 | a `c[!=]` key on a scalar throws; not-equal is written `[!]` |
| Conditions.LikeClausesShape | App/Extend/DB/DB.php:356-364 | the LIKE clauses exist exactly when every alternative has a string form; clause `i` tests the column against `L<index i>` |
| Conditions.LikeClausesLookup | App/Extend/DB/DB.php:357-364 | placeholder `L<index>` reads the item, wrapped in `%…%` unless it is a pattern, bound as a string |
| Conditions.LikeConnector | App/Extend/DB/DB.php:345-354 | a scalar is one alternative; a list is joined by ` OR `, unless an `AND`/`OR` key leads, which sets the connective |
| Conditions.BetweenShape | App/Extend/DB/DB.php:366-380 | `[<>]`/`[><]` bind `a` and `b` as ints when both bounds are numeric and as strings otherwise; a non-array value emits nothing |
| Conditions.OrderingShape | App/Extend/DB/DB.php:306-317 | a numeric value is bound as an int under the entry's placeholder and a string as a string |
| Conditions.ScalarCompareShape | App/Extend/DB/DB.php:407-411 | a scalar equality binds the value with typeMap()'s type |
| Conditions.RegexpShape | App/Extend/DB/DB.php:381-382 | `[REGEXP]` binds the value as a string |
| Conditions.BindItemsLookup | App/Extend/DB/DB.php:394-398 | after binding, each item's placeholder reads that item's typeMap() binding |
| Clauses.ConditionEntries | App/Extend/DB/DB.php:426-428 | `array_diff_key` keeps exactly the entries whose key is not reserved |
| Clauses.ConditionEntriesAppend | App/Extend/DB/DB.php:426-428 | filtering the concatenation of two arrays is the concatenation of the filtered arrays, so the input order is kept |
| Clauses.ConditionEntriesAt | App/Extend/DB/DB.php:426-428 | a kept entry comes right after the entries kept before it, so the conditions are AND-ed in the order written |
| Clauses.TruthyRaw | App/Extend/DB/DB.php:460 | a truthy raw clause comes only from a raw fragment; anything else leaves the map alone |
| Clauses.QuoteColumns | App/Extend/DB/DB.php:446 | `array_map(columnQuote)` succeeds exactly when every column quotes, and gives one quoted column per entry |
| Clauses.WhereClauseSound | App/Extend/DB/DB.php:422-531 | every placeholder whereClause() writes is bound, drawn while it ran and used once |
| Clauses.WherePartSound | App/Extend/DB/DB.php:426-431 | the WHERE part is sound |
| Clauses.MatchPartSound | App/Extend/DB/DB.php:433-451 | the MATCH part is sound |
| Clauses.GroupPartSound | App/Extend/DB/DB.php:452-465 | the GROUP BY part is sound |
| Clauses.HavingPartSound | App/Extend/DB/DB.php:466-473 | the HAVING part is sound |
| Clauses.OrderPartSound | App/Extend/DB/DB.php:474-498 | the ORDER BY part is sound |
| Clauses.OnlyConditions | App/Extend/DB/DB.php:426-431 | an array with no reserved key is ` WHERE ` and its conditions joined by AND |
| Clauses.LimitForms | App/Extend/DB/DB.php:499-525 | `LIMIT => n` is ` LIMIT n`; `LIMIT => [offset, count]` is ` LIMIT count OFFSET offset` |
| Clauses.ClauseOrder | App/Extend/DB/DB.php:422-531 | clauses come out in the fixed order GROUP, ORDER, LIMIT whatever the order of the keys |
| Clauses.GroupByName | App/Extend/DB/DB.php:462-463 | `GROUP => 'name'` is ` GROUP BY "name"` |
| Clauses.OrderByName | App/Extend/DB/DB.php:495-496 | `ORDER => 'name'` is ` ORDER BY "name"` |
| Columns.StringColumn | App/Extend/DB/DB.php:251-264 | `*` while joining is refused; otherwise a column (and alias) quoted with no placeholder |
| Columns.ColumnPush | App/Extend/DB/DB.php:232-234 | `*` is projected as it stands and binds nothing |
| Columns.ColumnPushParams | App/Extend/DB/DB.php:230-275 | a projection never draws a placeholder; its parameters are those of its raw columns, all bound in the new map |
| Columns.ColumnPushDistinct | App/Extend/DB/DB.php:240-274 | on a flat list the projection is the columns in order, comma-separated, with DISTINCT put on the first marked column, binding nothing |
| Columns.ColumnPushRenames | App/Extend/DB/DB.php:237-261 | afterwards the caller's columns keep their keys and order, with each aliased string replaced by its alias |
| Columns.AliasedStringColumn | App/Extend/DB/DB.php:237-261 | a lone aliased string column comes back as a one-element list holding its alias |
| Columns.JoinWildcardRefused | App/Extend/DB/DB.php:252-254 | joining with an int-keyed `*` column throws |
| Columns.FirstMarked | App/Extend/DB/DB.php:265-269 | the first entry carrying the `@` marker, if any |
| Select.UsingNames | App/Extend/DB/DB.php:645-646 | a `USING` list converts exactly when every value has a string form, one name per value |
| Select.BuildJoinSound | App/Extend/DB/DB.php:624-684 | the joins bind every placeholder they use, each drawn once |
| Select.FromPartSound | App/Extend/DB/DB.php:545-559 | the FROM part with its joins is sound |
| Select.SelectContextSound | App/Extend/DB/DB.php:536-600 | every placeholder of a compiled SELECT is bound in the final map, drawn while compiling and used once |
| Select.JoinKeyMarked | App/Extend/DB/DB.php:635-639 | a join key `[d]table(alias)` is read as a join of that direction, table and alias |
| Select.UsingJoin | App/Extend/DB/DB.php:641-680 | `['[d]t' => 'c']` compiles to `<TYPE> JOIN "prefix t" USING ("c")` |
| Select.OnPairShape | App/Extend/DB/DB.php:656-665 | an ON pair of plain names compiles to `table."a" = "prefix target"."b"`, binding nothing |
| Select.JoinTarget | App/Extend/DB/DB.php:545-559 | joins refer to the table's alias when it has one |
| Select.PlainColumnPush | App/Extend/DB/DB.php:237-264 | a lone plain column is projected as `"c"` and handed back as the list `['c']` |
| Select.SelectColumnWhere | App/Extend/DB/DB.php:536-600 | `select(t, 'c', cond)` without a join is `SELECT "c" FROM "prefix t"` followed by the condition's clauses |
| Select.AggregateWhere | App/Extend/DB/DB.php:561-594 | an aggregate given only a condition array applies the function to `*` over that condition |
| Select.ExistsWhere | App/Extend/DB/DB.php:578-599 | has()'s inner query selects the constant `1` over the condition |
| Shaper.ArrayKey | App/Extend/DB/DB.php:741-746 | a value can be an array key exactly when it has a scalar subject |
| Shaper.MappedOf | App/Extend/DB/DB.php:694-702 | a token maps to its alias if any, else its column, with its hint; no match maps to the empty key |
| Shaper.Lookup | App/Extend/DB/DB.php:767 | a missing column-map entry reads as null with no hint |
| Shaper.Cast | App/Extend/DB/DB.php:781-806 | Int and Bool are PHP casts; String succeeds exactly when the value has a string form |
| Shaper.NextIndex | App/Extend/DB/DB.php:754 | `$result[] = $v` appends one past the largest int key |
| Shaper.Column | App/Extend/DB/DB.php:929-935 | the single-column list reads each row's key, in order |
| Shaper.Rows | App/Extend/DB/DB.php:905 | fetchAll() is a list of the rows in order |
| Shaper.PutAllFacts | App/Extend/DB/DB.php:763-816 | a run of writes keeps old keys in place, appends new keys after them, and leaves each written key holding its last write |
| Shaper.PutAllTwice | App/Extend/DB/DB.php:739-748 | redoing the same writes changes nothing |
| Shaper.GroupRepeatOnce | App/Extend/DB/DB.php:739-748 | dataMap()'s repeated grouping ends as one pass would |
| Shaper.GroupedRow | App/Extend/DB/DB.php:734-748 | a single named group stores the row under the row's group value |
| Shaper.SameGroupOverwrites | App/Extend/DB/DB.php:741-746 | a later row with the same group value replaces the earlier one in place |
| Shaper.SelectSingleColumn | App/Extend/DB/DB.php:927-937 | `select(t, 'a')` returns every row's `a`, in order |
| Shaper.SelectAliasedColumn | App/Extend/DB/DB.php:927-937 | with the rewritten key, select() of an aliased lone column returns every row's aliased value |
| Shaper.SelectAliasedColumnAsWritten | App/Extend/DB/DB.php:930 | as written, the same selection returns null for every row |
| Shaper.AliasedColumnReadsNull | App/Extend/DB/DB.php:930 | as written, the row `['a' => 'x']` of `select(t, 'c(a)')` comes back as `[null]` |
| Shaper.AliasedColumnReadsValue | App/Extend/DB/DB.php:930 | read by its rewritten key, the same row comes back as `['x']` |
| Shaper.GetSingleColumn | App/Extend/DB/DB.php:1143-1151 | get() on a single column reads the first row's value |
| Shaper.GetAliasedColumn | App/Extend/DB/DB.php:1139-1155 | get() of an aliased lone column gives the first row's aliased value, false without a statement and `[]` without a row |
| Shaper.GetAliasedColumnAsWritten | App/Extend/DB/DB.php:1150 | as written, get() on `c(a)` returns null for any fetched row |
| Shaper.GetAliasedColumnReadsNull | App/Extend/DB/DB.php:1150 | as written, `get(t, 'c(a)')` on `['a' => 'x']` is null where `'x'` is meant |
| Shaper.HintedColumn | App/Extend/DB/DB.php:766-809 | a column `a [H]` reads the row's `a`: null stays null, anything else goes through the hint's cast |
| Statements.StripHint | App/Extend/DB/DB.php:1028 | removing a trailing `[w]` hint never lengthens the key |
| Statements.UpdateOperator | App/Extend/DB/DB.php:1034-1035 | update()'s operator is one of `+ - * /` |
| Statements.InsertRows | App/Extend/DB/DB.php:953-955 | a list of rows is used as it is; a single row becomes a one-row list |
| Statements.KeysOf | App/Extend/DB/DB.php:958-962 | an array's keys in order; anything else has none |
| Statements.InsertColumnsSpec | App/Extend/DB/DB.php:957-963 | the columns are exactly the keys of the rows, each once, earlier columns first |
| Statements.AddNewSpec | App/Extend/DB/DB.php:963 | `array_unique` keeps what was seen, adds each new key once and loses none |
| Statements.InsertValueSound | App/Extend/DB/DB.php:978-1007 | the corrected value's placeholder, if any, is fresh and bound |
| Statements.InsertSound | App/Extend/DB/DB.php:945-1017 | every placeholder insert() writes is bound, fresh and used once, with one tuple per row |
| Statements.InsertObjectUnbound | App/Extend/DB/DB.php:995-997 | as written, an object leaves its placeholder unbound, so the statement is not sound; the corrected value binds the serialized object as a string |
| Statements.UpdateFieldSound | App/Extend/DB/DB.php:1027-1066 | one update field, if written, is sound and draws at most one placeholder |
| Statements.UpdateSound | App/Extend/DB/DB.php:1022-1072 | every placeholder update() writes is bound, fresh and used once |
| Statements.UpdatePlain | App/Extend/DB/DB.php:1039-1062 | a plain column with a scalar is set to a new placeholder bound by the value's type |
| Statements.UpdateArithmetic | App/Extend/DB/DB.php:1035-1038 | `col[op]` with a numeric value sets `col = col op value`, binding nothing |
| Statements.UpdateNonNumericDropped | App/Extend/DB/DB.php:1033-1038 | `col[op]` with a value that is not numeric writes nothing, though it draws a placeholder |
| Statements.UpdateJson | App/Extend/DB/DB.php:1043-1052 | `col[JSON]` with an array is bound to the array's JSON text |
| Statements.UpdateOperatorOf | App/Extend/DB/DB.php:1034 | update() reads the operator of `col[op]` |
| Statements.UpdateOperatorJson | App/Extend/DB/DB.php:1034 | a `[JSON]` hint is no operator |
| Statements.StripHintFound | App/Extend/DB/DB.php:1028 | a hint at the very end goes, with the whitespace before it |
| Statements.StripHintPlain | App/Extend/DB/DB.php:1028 | a name without a hint is left as it is |
| Statements.ReplaceSound | App/Extend/DB/DB.php:1090-1113 | every placeholder replace() writes is bound, fresh and used once |
| Statements.ReplacePairsSound | App/Extend/DB/DB.php:1095-1106 | each old/new pair adds one item with a fresh counter, binding `a` and `b` |
| Statements.ReplaceColumnsEmpty | App/Extend/DB/DB.php:1095-1106 | a column contributes exactly when it holds replacement pairs |
| Statements.ReplaceNeedsPairs | App/Extend/DB/DB.php:1108-1112 | replace() throws when no column holds pairs and otherwise succeeds exactly when the table and where clause compile |
| Statements.ReplaceOnePair | App/Extend/DB/DB.php:1090-1113 | `replace(t, [c => [old => new]])` is `UPDATE "t" SET "c" = REPLACE("c", a, b)` with old and new bound as strings |
| Statements.PairBoundLookups | App/Extend/DB/DB.php:1102-1103 | after one pair, `a` holds the old text and `b` the new |
| Statements.DeleteShape | App/Extend/DB/DB.php:1077-1085 | delete() is `DELETE FROM` the table and the where clause, and succeeds exactly when they compile |
| Statements.DeleteSound | App/Extend/DB/DB.php:1077-1085 | every placeholder delete() writes is bound, fresh and used once |
| Statements.DropShape | App/Extend/DB/DB.php:864-867 | drop() names the prefixed quoted table and refuses a name that is not one |
| Statements.AngleQuoteName | App/Extend/DB/DB.php:829-830 | `<name>` in a column definition becomes the quoted name |
| Statements.CreateNamedColumn | App/Extend/DB/DB.php:833-834 | a named column with a string definition is the quoted name, a space and the definition |
| Statements.CreateWordsColumn | App/Extend/DB/DB.php:831-832 | a named column with a list of words is the quoted name and the words joined by spaces |
| Statements.CreateSkipsOther | App/Extend/DB/DB.php:828-836 | a column holding neither a string nor a list is left out |
| Statements.TableOptionPairs | App/Extend/DB/DB.php:838-847 | the option list reads `key = value` for each option, joined by commas |
| Statements.CreateOneColumn | App/Extend/DB/DB.php:822-859 | `create(t, [c => d])` is `CREATE TABLE IF NOT EXISTS "t" ("c" d)` and the options |
| Statements.GetLimitOne | App/Extend/DB/DB.php:1125-1135 | get() puts `LIMIT 1` into the where argument, or into the columns when there is neither where nor join, and fails exactly when that argument cannot take it |
| Statements.RandOrder | App/Extend/DB/DB.php:1195-1203 | rand() adds `ORDER => RAND()` where get() adds its limit |
| Statements.LimitOne | App/Extend/DB/DB.php:1127 | a limit of 1 is written ` LIMIT 1` |
| Statements.GetColumnWhere | App/Extend/DB/DB.php:1125-1137 | `get(t, c, cond)` is the column's query over the conditions with `LIMIT 1` |
| Statements.HasShape | App/Extend/DB/DB.php:1163-1182 | has() is `SELECT EXISTS(SELECT 1 FROM t …)` |
| Statements.HasSound | App/Extend/DB/DB.php:1163-1182 | every placeholder has() writes is bound, fresh and used once |
| Statements.AggregateShape | App/Extend/DB/DB.php:1211-1219 | an aggregate is `SELECT FN(*) FROM t WHERE …` |
| Statements.AggregateSound | App/Extend/DB/DB.php:1211-1219 | every placeholder an aggregate writes is bound, fresh and used once |
| Statements.ExistsAndCount | App/Extend/DB/DB.php:1179-1226 | has() is true for `'1'`, 1 and true only; count() reads null as 0 and a number as itself |
| Statements.IntOfNatStr | App/Extend/DB/DB.php:1226 | `(int)` of a number's decimal text is the number |
| Database.PrefixedJoinsAppend | App/Extend/DB/DB.php:680-683 | appending clause lists onto a result that may be an exception is associative |
| Database.JoinEntriesMarked | App/Extend/DB/DB.php:634-681 | one pass over a marked key adds its join clause |
| Database.JoinEntriesUnmarked | App/Extend/DB/DB.php:634-639 | one pass over an unmarked key adds nothing |
| Database.PutAllAppend | App/Extend/DB/DB.php:763-816 | two runs of writes one after the other are the run of both |
| Database.Pool.GetConnection | App/Extend/DB/Connection.php:79-86 | a handle never handed out before; the count moves on and nothing is returned |
| Database.Pool.Close | App/Extend/DB/Connection.php:91-98 | the handle goes back to the pool |
| Database.DB.constructor | App/Extend/DB/DB.php:39-45 | a fresh builder with the prefix and pool, counter 0, no connection, statement or log |
| Database.DB.MapKey | App/Extend/DB/DB.php:47-50 | the name `:MeD<guid>_mK`, and the counter moves on by one |
| Database.DB.RealGetConn | App/Extend/DB/DB.php:1416-1422 | outside a transaction a fresh connection is taken; inside one the held one is kept |
| Database.DB.Release | App/Extend/DB/DB.php:1401-1411 | a null connection ends the transaction; outside a transaction the connection goes back and the answer is true |
| Database.DB.Exec | App/Extend/DB/DB.php:63-107 | debug mode echoes and returns false; otherwise the statement is logged, and prepare failure, execute, last insert id and a driver exception each leave the statement, error info, pool and result as exec() does |
| Database.DB.Query | App/Extend/DB/DB.php:52-58 | a raw statement is built by buildRaw() and run with its own parameters; a build error is thrown before anything changes |
| Database.DB.Debug | App/Extend/DB/DB.php:1350-1354 | the next exec() echoes instead of running |
| Database.DB.Log | App/Extend/DB/DB.php:1365-1373 | every logged statement rendered, in order |
| Database.DB.Last | App/Extend/DB/DB.php:1356-1363 | null without a log, else the last logged statement rendered |
| Database.DB.DataImplode | App/Extend/DB/DB.php:280-417 | the loop yields what the condition compiler yields, with the counter and map it leaves |
| Database.DB.ColumnPush | App/Extend/DB/DB.php:230-275 | the loop yields the projection, the rewritten columns and the map the column compiler gives |
| Database.DB.ColumnMap | App/Extend/DB/DB.php:686-720 | the loop records the column map the specification gives |
| Database.DB.DataMapPass | App/Extend/DB/DB.php:763-816 | one pass below the root writes every entry's value into the stack, in order |
| Database.DB.DataMap | App/Extend/DB/DB.php:731-760 | a root pass stores the shaped row as the row shaper says |
| Database.DB.BuildJoin | App/Extend/DB/DB.php:624-684 | the loop yields the join clauses, joined by spaces, and the counter the join compiler leaves |
| Database.DB.Run | App/Extend/DB/DB.php:63-107 | a compile error is thrown before anything changes; otherwise the counter takes the compiler's value and exec() runs |
| Database.DB.Insert | App/Extend/DB/DB.php:945-1017 | runs the compiled INSERT, or throws its compile error |
| Database.RowCount | App/Extend/DB/DB.php:1068 | `rowCount()` succeeds exactly on a statement; false or a last insert id is a TypeError, and a thrown error passes through |
| Database.DB.Update | App/Extend/DB/DB.php:1022-1072 | runs the compiled UPDATE and answers its row count, or throws its compile error |
| Database.DB.Replace | App/Extend/DB/DB.php:1090-1113 | runs the compiled REPLACE update, or throws its compile error |
| Database.DB.Delete | App/Extend/DB/DB.php:1077-1085 | runs the compiled DELETE and answers its row count, or throws its compile error |
| Database.DB.Create | App/Extend/DB/DB.php:822-859 | runs `CREATE TABLE IF NOT EXISTS …` with no parameters |
| Database.DB.Drop | App/Extend/DB/DB.php:864-867 | runs `DROP TABLE IF EXISTS …` with no parameters |
| Database.DB.Select | App/Extend/DB/DB.php:872-940 | the fetched rows shaped by the column list; no statement gives an empty list; a last insert id from exec() makes fetchAll()/fetch() on the string throw, after the column map is built |
| Database.DB.Rand | App/Extend/DB/DB.php:1187-1206 | select() ordered by `RAND()`, or the error of adding the order; a last insert id throws as in select() |
| Database.DB.Get | App/Extend/DB/DB.php:1118-1158 | the first fetched row shaped, or one value of it; false without a statement and `[]` without a row; a last insert id makes fetchAll() on the string throw, rethrown as an Exception with that message |
| Database.DB.Has | App/Extend/DB/DB.php:1163-1182 | whether the fetched column reads as true; false without a statement; a last insert id makes fetchColumn() on the string throw |
| Database.DB.Aggregate | App/Extend/DB/DB.php:1211-1219 | the fetched column as a string, or null without a statement; a last insert id makes fetchColumn() on the string throw |
| Database.DB.Count | App/Extend/DB/DB.php:1224-1227 | the COUNT aggregate as an int, null reading as 0; the aggregate's error on a last insert id passes through |
| Database.DB.BeginTransaction | App/Extend/DB/DB.php:1291-1308 | refused inside a transaction; otherwise a connection is taken, BEGIN is sent and a rollback deferred; on driver failure the connection stays out |
| Database.DB.EndTransaction | App/Extend/DB/DB.php:1310-1333 | the driver runs the operation on the held connection, the flag clears and the connection goes back; anything that throws is swallowed and changes nothing |
| Database.DB.Commit | App/Extend/DB/DB.php:1324-1333 | ends the transaction with COMMIT; driver errors are swallowed |
| Database.DB.RollBack | App/Extend/DB/DB.php:1310-1319 | ends the transaction with ROLLBACK; driver errors are swallowed |
| Database.DB.Action | App/Extend/DB/DB.php:1264-1286 | begin, run the callback, roll back on false or an Exception, commit otherwise; an Error leaves the transaction open |
| Database.DB.ScopeExit | App/Extend/DB/DB.php:1300-1304 | the deferred closures all run; the transaction ends exactly when it was open and some rollback succeeds |
| SystemUtil.StrBeforeTransitive | App/Util/SystemUtil.php:88 | ksort's string order is transitive |
| SystemUtil.StrBeforeTotal | App/Util/SystemUtil.php:88 | ksort's string order is total on distinct strings |
| SystemUtil.KeyBeforeTransitive | App/Util/SystemUtil.php:88 | ksort's key order is transitive |
| SystemUtil.KeyBeforeTotal | App/Util/SystemUtil.php:88 | ksort's key order is total on distinct keys |
| SystemUtil.Insert | App/Util/SystemUtil.php:88 | insertion adds exactly the one entry |
| SystemUtil.KSort | App/Util/SystemUtil.php:88 | ksort keeps exactly the same entries |
| SystemUtil.KSortSorted | App/Util/SystemUtil.php:88 | with unique keys the result is strictly sorted by key |
| SystemUtil.SortedUnique | App/Util/SystemUtil.php:88 | two key-sorted arrays with the same entries are equal |
| SystemUtil.KSortCanonical | App/Util/SystemUtil.php:88 | ksort's result does not depend on the order the entries came in |
| SystemUtil.Pair | App/Util/SystemUtil.php:94-96 | null, `''` and the key `sign` add nothing; any other convertible scalar adds `k=v&`; an object without a string form throws |
| SystemUtil.SignStr | App/Util/SystemUtil.php:85-103 | with an empty key the signature text; otherwise the digest of the text followed by `key=` and the key |
| SystemUtil.SignTextOrderFree | App/Util/SystemUtil.php:88-97 | the signature text does not depend on the order of the entries |
| SystemUtil.SignTextNested | App/Util/SystemUtil.php:90-92 | a nested array adds its own text, without the outer key |
| SystemUtil.SignTextIgnores | App/Util/SystemUtil.php:94 | adding an entry keyed `sign`, or holding null or `''`, leaves the signature text unchanged |
| SystemUtil.Trim | App/Util/SystemUtil.php:129-132 | trim() is a slice of its input that cuts only whitespace and NUL and keeps non-trim characters at both ends |
| SystemUtil.TrimTrimmed | App/Util/SystemUtil.php:129-132 | trim() changes nothing in a string it produced |
| SystemUtil.ParamsTrim | App/Util/SystemUtil.php:122-136 | the in-place loop over the original entries yields the trimmed array |
| SystemUtil.TrimmedIdempotent | App/Util/SystemUtil.php:122-136 | trimming an already trimmed array changes nothing |
| SystemUtil.TrimListShape | App/Util/SystemUtil.php:124-134 | every kept value is an array or a non-empty trimmed string, keys come from the input, arrays are always kept, and scalars with non-empty trim are kept |
| SystemUtil.TrimListRejects | App/Util/SystemUtil.php:129 | an object among the scalars makes ParamsTrim throw |
| SystemUtil.HeaderEntries | App/Util/SystemUtil.php:24 | getHeader() gives the header's values under keys 0, 1, … |
| SystemUtil.FirstHeaderIs | App/Util/SystemUtil.php:24-39 | the chain gives `ip` exactly when some listed header is present, every earlier one is absent, and `ip` is its first value |
| SystemUtil.FirstHeaderNone | App/Util/SystemUtil.php:24-39 | the chain gives nothing exactly when every listed header is absent |
| SystemUtil.HeaderEntriesFirst | App/Util/SystemUtil.php:25-44 | getHeader() is empty exactly when the header is absent; element 0 is its first value |
| SystemUtil.GetClientIp | App/Util/SystemUtil.php:22-47 | the `if (empty($ip))` chain equals the first present header's first value, else the server's `remote_addr` |
| Validate.AnnotateRule | App/Extend/Validate/Validate.php:17-21 | the loop body writes `msg` into an array, turns null and false into an array, and throws for any other rule |
| Validate.Annotated | App/Extend/Validate/Validate.php:16-22 | the annotated rules keep their number and fields |
| Validate.AnnotatedOk | App/Extend/Validate/Validate.php:16-22 | the loop gets through exactly when every rule is an array, null or false |
| Validate.AnnotatedFailsAt | App/Extend/Validate/Validate.php:16-22 | the first rule the loop cannot write decides the exception |
| Validate.AnnotatedMessages | App/Extend/Validate/Validate.php:16-22 | a rule whose second element is `required` gets msg `{attr}必填` and every other rule `{attr}格式错误`; every other key of the rule reads what it read before |
| Validate.AnnotatedAt | App/Extend/Validate/Validate.php:17-21 | entry `i` of the annotated list depends on rule `i` alone |
| Validate.Check | App/Extend/Validate/Validate.php:14-28 | Check throws the loop's error for a rule it cannot write; otherwise it throws exactly when the validator fails on the annotated rules, with the validator's first error |
| Validate.Kept | App/Extend/Validate/Validate.php:30-39 | the filter holds at most one entry per listed key |
| Validate.KeptKeys | App/Extend/Validate/Validate.php:33-35 | every key in the result comes from `$message` |
| Validate.FilteredIsKept | App/Extend/Validate/Validate.php:30-39 | for a PHP array `$message`, the loop's result equals the filter |
| Validate.KeptHas | App/Extend/Validate/Validate.php:34 | the result holds `k` exactly when `$message` lists `k` and `$data[$k]` is not empty |
| Validate.KeptValues | App/Extend/Validate/Validate.php:35 | every value in the result is `$data`'s non-empty value for its key |
| Validate.KeptOrder | App/Extend/Validate/Validate.php:33 | keys in the result come in the order `$message` lists them |
| Validate.KeptIdempotent | App/Extend/Validate/Validate.php:30-39 | filtering a filtered array again with the same message changes nothing |
| Validate.Filtration | App/Extend/Validate/Validate.php:30-39 | the loop over `$message` builds the filtered array |

## Left out

- PCRE matching is written out by hand for the patterns DB.php uses.
  `\p{L}` is an ASCII letter or any character above U+007F, and `\p{N}` is
  an ASCII digit. Non-ASCII digits and non-letter symbols are therefore
  approximated.
- generate() is not modelled. It renders a statement with its values for the
  log. `Log` and `Last` take it as a parameter.
- Floating-point values are not modelled. There is no `double` case, so
  `is_float` never holds.
- serialize(), unserialize(), json_encode() and json_decode() are not
  modelled. They appear as the uninterpreted `Serialized`/`Json` binding
  forms and the `foreign` function parameter.
- The PDO driver is a parameter: prepare, execute, errorInfo,
  lastInsertId, fetch and rowCount. Only an exception raised while running
  is modelled. Driver exceptions elsewhere are not.
- The loose `!=` of the last insert id against `'0'` is modelled for string
  ids only.
- Connection.php's Swoole channel pool is a `Pool` object that counts handed-out
  handles and records returned ones. Its capacity, blocking, and
  `getInstance()` are left out.
- Raw.php is not part of this model. A raw fragment is a datatype of tokens:
  literal text, `<table.column>` references and `:name` parameters, with its
  own map.
- `select()` and `get()` with a callback are left out. Only the form that
  returns rows is modelled.
- PHP integers are 64-bit; the model's are unbounded. `(int)` of a digit
  string past PHP_INT_MAX saturates in PHP but not in `Shaper.IntCast`,
  `Php.IntOfStr` or `Statements.CountOf` (count()), and the `guid`
  counter never wraps. No statement a program issues reaches these values.
- IntCast reads optional sign and digits. The exponent form (`"1e3"`) is
  left out.
- When a statement method throws while compiling, the counter has already
  moved on in PHP. The model throws before any state change.
- The `mssql`, `oracle`, `pgsql` and `sqlite` dialects are left out. Only
  `mysql` is modelled: its quote() form, its `RAND()` and its MATCH support.
- Insert rows that are strings, where `$data[$key]` is a string offset,
  are left out.
- Database.DB.Action: the callback's own database effects are not modelled.
  Only its outcome is: a value, false, an Exception or an Error.
- exec(), update(), delete(), get(), action() and beginTransaction() catch
  every Throwable and rethrow it as a plain `Exception` with the same message.
  The model keeps the original error value, so the exception class is not
  modelled.
- Logger::info and the log handler are left out. The builder's `logs` list
  is modelled.
- `id()` and `info()` are left out. They are direct driver and attribute
  queries.
- `whereClause()` and `buildRaw()` are modelled as functions
  (`Clauses.WhereClause`, `Quoting.BuildRaw`) with no loop method beside
  them. The loops they contain are bounded by their inputs and only build
  values.
- SystemUtil.KSort: PHP 8's ksort() compares keys with the standard
  comparison, which is not a total order on all keys. Two numeric string
  keys compare as numbers, so `"9.5"` comes before `"10.5"`. An int key and
  a numeric string key compare as numbers. An int key and a non-numeric
  string key compare as strings, so `"3x"` and `"-a"` come before `5`. The
  model puts every int key before every string key and orders string keys
  byte by byte. signStr()'s text therefore differs from PHP's for arrays
  that mix int keys with string keys that sort before them as strings or
  numbers, and for numeric string keys whose byte order differs from their
  numeric order.
- SystemUtil.SignStr: `strtoupper(md5(…))` is the `digest` function
  parameter.
- Validate.Check: the Inhere validation library is the `validator`
  parameter. `$v[1]` on a string rule reads one of its characters. The
  model does not read it, because the `$v['msg']` write that follows
  throws for every string. PHP throws an `Error` for such rules. The model
  gives the matching `TypeError` value. A null or false rule becomes
  `['msg' => '{attr}格式错误']`, as PHP's auto-vivification does.
- Database.DB.Insert: runs the corrected `InsertQuery`, which binds a
  serialized object as a string under its placeholder. insert() as
  written (DB.php:995-997) serializes the object and binds nothing (see
  Findings and `Statements.InsertObjectUnbound`). An insert with an object
  value is therefore not run as PHP runs it.
- Statements.InsertSound: proved of the corrected `InsertQuery`. As
  written, an object value leaves its placeholder unbound
  (`Statements.InsertObjectUnbound`). The soundness therefore holds for
  insert() as written only when no inserted value is an object.
- Database.DB.Select: shapes the rows with the corrected
  `Shaper.SelectRows`, which reads a lone aliased column by its alias.
  select() as written (DB.php:930) reads it by the raw `'c(a)'` key and
  returns a list of nulls (`Shaper.SelectRowsAsWritten`,
  `Shaper.AliasedColumnReadsNull`).
- Database.DB.Rand: goes through the same corrected `Shaper.SelectRows` as
  `Database.DB.Select`, not DB.php:930 as written.
- Database.DB.Get: reads a lone column with the corrected `Shaper.GetRow`.
  get() as written (DB.php:1150) returns null for an aliased lone column
  (`Shaper.GetRowAsWritten`, `Shaper.GetAliasedColumnReadsNull`).
- Clauses.FieldValues: quotes the `ORDER => [column => [...]]` items with
  the corrected `Quoting.QuoteEscaped`. DB.php:482 calls quote() as written
  (`Quoting.Quote`), which leaves backslashes alone. An item holding `\`
  therefore renders with a doubled backslash in the model and a single one
  in PHP.
- `millisecond`, `UUID`, `download`, `checkXss`, `getParams`, `returnJson`
  and `With` are outside the modelled core. The Redis wrapper, the log
  handler, the HTTP controllers and the middleware are outside it too.

## Findings

| source | as written | input that shows it | evidently intended | confidence | as-written member | corrected member |
|---|---|---|---|---|---|---|
| App/Extend/DB/DB.php:178-179 | quote() escapes quotes with a backslash but leaves backslashes as they are | `quote("\\")` gives `'\'`, whose closing quote MySQL reads as escaped | every character reads back, backslashes included | not executed | Quoting.QuoteLeavesBackslash | Quoting.QuoteEscapedRoundTrip |
| App/Extend/DB/DB.php:930 | select() reads a single column back by `$columnMap[$column][0]`, with `$column` the argument as written | `select(t, 'c(a)')` on the row `['a' => 'x']` gives `[null]` | each row's aliased value, `['x']` | not executed | Shaper.AliasedColumnReadsNull | Shaper.SelectAliasedColumn |
| App/Extend/DB/DB.php:1150 | get() reads a single column back by `$columnMap[$column][0]` in the same way | `get(t, 'c(a)')` on the row `['a' => 'x']` gives null | `'x'` | not executed | Shaper.GetAliasedColumnReadsNull | Shaper.GetAliasedColumn |
| App/Extend/DB/DB.php:995-997 | insert() serializes an object value but binds nothing under its placeholder | `insert(t, ['c' => $obj])` writes `:MeD0_mK` with no binding | the serialized object bound as a string | not executed | Statements.InsertObjectUnbound | Statements.InsertValueSound |
