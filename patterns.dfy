/**
 * The regular expressions the builder matches keys against, written out as
 * scans over the string. Each function returns the groups the PHP code reads.
 */
module Patterns {
  import opened Php
  import Quoting

  /** `[\p{L}\p{N}@$#\-_.]`: a name character or a dot. */
  predicate IsColumnChar(c: char) { IsNameChar(c) || c == '.' }

  function ColumnRunEnd(s: string, i: nat): (r: nat)
    requires i <= |s|
    ensures i <= r <= |s|
    ensures forall k :: i <= k < r ==> IsColumnChar(s[k])
    ensures r < |s| ==> !IsColumnChar(s[r])
    decreases |s| - i
  {
    if i < |s| && IsColumnChar(s[i]) then ColumnRunEnd(s, i + 1) else i
  }

  function NameRunEnd(s: string, i: nat): (r: nat)
    requires i <= |s|
    ensures i <= r <= |s|
    ensures forall k :: i <= k < r ==> IsNameChar(s[k])
    ensures r < |s| ==> !IsNameChar(s[r])
    decreases |s| - i
  {
    if i < |s| && IsNameChar(s[i]) then NameRunEnd(s, i + 1) else i
  }

  lemma {:induction false} NameRunEndAt(s: string, i: nat, j: nat)
    requires i <= j <= |s|
    requires forall k :: i <= k < j ==> IsNameChar(s[k])
    requires j == |s| || !IsNameChar(s[j])
    ensures NameRunEnd(s, i) == j
    decreases j - i
  {
    if i < j {
      NameRunEndAt(s, i + 1, j);
    }
  }

  function SpaceRunEnd(s: string, i: nat): (r: nat)
    requires i <= |s|
    ensures i <= r <= |s|
    decreases |s| - i
  {
    if i < |s| && IsSpace(s[i]) then SpaceRunEnd(s, i + 1) else i
  }

  /** The first position at or after `i` where a name can start, or `|s|`. */
  function NameStartFrom(s: string, i: nat): (r: nat)
    requires i <= |s|
    ensures i <= r <= |s|
    ensures r < |s| ==> IsNameStart(s[r])
    ensures forall k :: i <= k < r ==> !IsNameStart(s[k])
    decreases |s| - i
  {
    if i == |s| || IsNameStart(s[i]) then i else NameStartFrom(s, i + 1)
  }

  /** The end of the line that contains position `i`. */
  function LineEnd(s: string, i: nat): (r: nat)
    requires i <= |s|
    ensures i <= r <= |s|
    ensures forall k :: i <= k < r ==> s[k] != '\n'
    ensures r < |s| ==> s[r] == '\n'
    decreases |s| - i
  {
    if i == |s| || s[i] == '\n' then i else LineEnd(s, i + 1)
  }

  /** The last position in `[a, b)` holding `c`. */
  function LastIn(s: string, c: char, a: nat, b: nat): (r: Option<nat>)
    requires a <= b <= |s|
    ensures r.Some? ==> a <= r.value < b && s[r.value] == c && forall k :: r.value < k < b ==> s[k] != c
    ensures r.None? ==> forall k :: a <= k < b ==> s[k] != c
    decreases b - a
  {
    if a == b then None else if s[b - 1] == c then Some(b - 1) else LastIn(s, c, a, b - 1)
  }

  // ---------------------------------------------------------------------
  // dataImplode keys: `([\p{L}_][\p{L}\p{N}@$#\-_.]*)(\[(?<operator>.*)])?([\p{L}_][\p{L}\p{N}@$#\-_.]*)?`

  datatype CondKey = CondKey(column: string, op: Option<string>, trail: Option<string>)

  predicate IsColumnRun(s: string) {
    |s| >= 1 && IsNameStart(s[0]) && forall k :: 1 <= k < |s| ==> IsColumnChar(s[k])
  }

  function ParseCondKey(s: string): (r: Option<CondKey>)
    ensures r.Some? ==> IsColumnRun(r.value.column)
    ensures r.None? <==> forall k :: 0 <= k < |s| ==> !IsNameStart(s[k])
  {
    var i := NameStartFrom(s, 0);
    if i == |s| then None
    else
      var j := ColumnRunEnd(s, i + 1);
      match OperatorAt(s, j)
      case None => Some(CondKey(s[i..j], None, None))
      case Some((op, k)) => Some(CondKey(s[i..j], Some(op), TrailAt(s, k + 1)))
  }

  /** `(\[(?<operator>.*)])?` at `j`: the operator and where its `]` is (`.` stops at a line break; `.*` is greedy). */
  function OperatorAt(s: string, j: nat): (r: Option<(string, nat)>)
    requires j <= |s|
    ensures r.Some? ==> j < r.value.1 < |s| && s[r.value.1] == ']'
  {
    if j < |s| && s[j] == '[' then
      match LastIn(s, ']', j + 1, LineEnd(s, j + 1))
      case None => None
      case Some(k) => Some((s[j + 1..k], k))
    else None
  }

  /** `([\p{L}_][\p{L}\p{N}@$#\-_.]*)?` at `i`. */
  function TrailAt(s: string, i: nat): (r: Option<string>)
    requires i <= |s|
    ensures r.Some? ==> IsColumnRun(r.value)
  {
    if i < |s| && IsNameStart(s[i]) then Some(s[i..ColumnRunEnd(s, i + 1)]) else None
  }

  /** A name, or two names joined by a dot, is a column run. */
  lemma ColumnNameIsRun(c: string)
    requires Quoting.IsColumnName(c)
    ensures IsColumnRun(c)
  {
    var d := Quoting.FirstDot(c);
    if d < |c| {
      assert c[..d][0] == c[0];
      forall k | 1 <= k < |c| ensures IsColumnChar(c[k]) {
        if k < d { assert c[k] == c[..d][k]; }
        else if k > d { assert c[k] == c[d + 1..][k - d - 1]; }
      }
    }
  }

  lemma ColumnRunEndIs(s: string, i: nat, r: nat)
    requires i <= r <= |s|
    requires forall k :: i <= k < r ==> IsColumnChar(s[k])
    requires r < |s| ==> !IsColumnChar(s[r])
    ensures ColumnRunEnd(s, i) == r
  {
  }

  lemma ColumnRunEndOf(c: string, rest: string)
    requires IsColumnRun(c) && (rest == [] || !IsColumnChar(rest[0]))
    ensures ColumnRunEnd(c + rest, 1) == |c|
  {
    var s := c + rest;
    assert forall k :: 1 <= k < |c| ==> s[k] == c[k];
    assert |c| < |s| ==> s[|c|] == rest[0];
    ColumnRunEndIs(s, 1, |c|);
  }

  /** `column` alone: no operator. */
  lemma ParsePlainColumn(c: string)
    requires IsColumnRun(c)
    ensures ParseCondKey(c) == Some(CondKey(c, None, None))
  {
    ColumnRunEndOf(c, []);
    assert c + [] == c;
  }

  lemma LineEndIs(s: string, i: nat)
    requires i <= |s| && forall k :: i <= k < |s| ==> s[k] != '\n'
    ensures LineEnd(s, i) == |s|
  {
  }

  /** A key that starts with its column and has a bracket right after it. */
  lemma ParseBracketed(s: string, j: nat, k: nat)
    requires 0 < j < k < |s| && IsNameStart(s[0]) && ColumnRunEnd(s, 1) == j && s[j] == '['
    requires LastIn(s, ']', j + 1, LineEnd(s, j + 1)) == Some(k)
    ensures ParseCondKey(s) == Some(CondKey(s[..j], Some(s[j + 1..k]), TrailAt(s, k + 1)))
  {
    assert NameStartFrom(s, 0) == 0;
    assert OperatorAt(s, j) == Some((s[j + 1..k], k));
    assert s[0..j] == s[..j];
  }

  /** `column[op]`: the operator is everything between the brackets. */
  lemma ParseColumnOperator(c: string, op: string)
    requires IsColumnRun(c) && forall k :: 0 <= k < |op| ==> op[k] != '\n'
    ensures ParseCondKey(c + "[" + op + "]") == Some(CondKey(c, Some(op), None))
  {
    BracketPieces(c, op);
    ParseOperatorPieces(c + "[" + op + "]", c, op);
  }

  /** `a[op]b`: two columns compared. */
  lemma ParseColumnComparison(a: string, op: string, b: string)
    requires IsColumnRun(a) && IsColumnRun(b)
    requires forall k :: 0 <= k < |op| ==> op[k] != '\n'
    ensures ParseCondKey(a + "[" + op + "]" + b) == Some(CondKey(a, Some(op), Some(b)))
  {
    ComparisonPieces(a, op, b);
    ParseComparisonPieces(a + "[" + op + "]" + b, a, op, b);
  }

  /** Where the pieces of `c[op]` sit. */
  lemma BracketPieces(c: string, op: string)
    ensures var s := c + "[" + op + "]";
      |s| == |c| + |op| + 2 && s[..|c|] == c && s[|c|] == '[' && s[|c| + 1..|s| - 1] == op && s[|s| - 1] == ']'
  {
    var s := c + "[" + op + "]";
    assert s == c + ("[" + op + "]");
    assert s[..|c|] == c;
    assert s[|c| + 1..|s| - 1] == op;
  }

  /** Where the pieces of `a[op]b` sit. */
  lemma ComparisonPieces(a: string, op: string, b: string)
    ensures var s := a + "[" + op + "]" + b; var k := |a| + |op| + 1;
      |s| == k + 1 + |b| && s[..|a|] == a && s[|a|] == '[' && s[|a| + 1..k] == op && s[k] == ']' && s[k + 1..] == b
  {
    var p := a + "[" + op + "]";
    var s := p + b;
    BracketPieces(a, op);
    assert s[..|p|] == p && s[|p|..] == b;
    assert s[..|a|] == s[..|p|][..|a|];
    assert s[|a| + 1..|p| - 1] == s[..|p|][|a| + 1..|p| - 1];
    assert s == a + "[" + op + "]" + b;
  }

  /** The column of a key starting with `a[` ends at the bracket. */
  lemma HeadRun(s: string, a: string)
    requires IsColumnRun(a) && |a| < |s| && s[..|a|] == a && s[|a|] == '['
    ensures IsNameStart(s[0]) && ColumnRunEnd(s, 1) == |a|
  {
    assert forall i :: 0 <= i < |a| ==> s[i] == s[..|a|][i];
    ColumnRunEndIs(s, 1, |a|);
  }

  /** An operator with no line break, sitting at `j`, puts none into the key. */
  lemma OperatorChars(s: string, j: nat, op: string)
    requires j + |op| <= |s| && s[j..j + |op|] == op && forall k :: 0 <= k < |op| ==> op[k] != '\n'
    ensures forall i :: j <= i < j + |op| ==> s[i] != '\n'
  {
    forall i | j <= i < j + |op| ensures s[i] != '\n' {
      assert s[i] == s[j..j + |op|][i - j];
    }
  }

  /** A column at the end of the key, from `m` on. */
  lemma TrailChars(s: string, m: nat, b: string)
    requires IsColumnRun(b) && m <= |s| && s[m..] == b
    ensures m < |s| && IsNameStart(s[m]) && forall i :: m < i < |s| ==> IsColumnChar(s[i])
  {
    forall i | m <= i < |s| ensures s[i] == b[i - m] {
      assert s[i] == s[m..][i - m];
    }
  }

  /** `a[op]`, given by where its pieces sit. */
  lemma ParseOperatorPieces(s: string, a: string, op: string)
    requires IsColumnRun(a) && forall k :: 0 <= k < |op| ==> op[k] != '\n'
    requires |s| == |a| + |op| + 2 && s[..|a|] == a && s[|a|] == '[' && s[|a| + 1..|s| - 1] == op && s[|s| - 1] == ']'
    ensures ParseCondKey(s) == Some(CondKey(a, Some(op), None))
  {
    var j, k := |a|, |s| - 1;
    HeadRun(s, a);
    OperatorChars(s, j + 1, op);
    LineEndIs(s, j + 1);
    LastInAfter(s, j + 1, |s|, k);
    ParseBracketed(s, j, k);
  }

  /** `a[op]b`, given by where its pieces sit. */
  lemma ParseComparisonPieces(s: string, a: string, op: string, b: string)
    requires IsColumnRun(a) && IsColumnRun(b) && forall k :: 0 <= k < |op| ==> op[k] != '\n'
    requires var k := |a| + |op| + 1;
      |s| == k + 1 + |b| && s[..|a|] == a && s[|a|] == '[' && s[|a| + 1..k] == op && s[k] == ']' && s[k + 1..] == b
    ensures ParseCondKey(s) == Some(CondKey(a, Some(op), Some(b)))
  {
    var j, k := |a|, |a| + |op| + 1;
    HeadRun(s, a);
    OperatorChars(s, j + 1, op);
    TrailChars(s, k + 1, b);
    LineEndIs(s, j + 1);
    LastInAfter(s, j + 1, |s|, k);
    ColumnRunEndIs(s, k + 2, |s|);
    ParseTrailed(s, j, k, a, op, b);
  }

  /** A bracketed key with a column right after the closing bracket, running to the end. */
  lemma ParseTrailed(s: string, j: nat, k: nat, a: string, op: string, b: string)
    requires 0 < j < k && k + 1 < |s| && IsNameStart(s[0]) && ColumnRunEnd(s, 1) == j && s[j] == '['
    requires LastIn(s, ']', j + 1, LineEnd(s, j + 1)) == Some(k)
    requires IsNameStart(s[k + 1]) && ColumnRunEnd(s, k + 2) == |s|
    requires s[..j] == a && s[j + 1..k] == op && s[k + 1..] == b
    ensures ParseCondKey(s) == Some(CondKey(a, Some(op), Some(b)))
  {
    ParseBracketed(s, j, k);
    assert s[k + 1..|s|] == s[k + 1..];
    assert TrailAt(s, k + 1) == Some(b);
  }

  /** The last `]` in `[a, b)` is at `k` when none follows it. */
  lemma LastInAfter(s: string, a: nat, b: nat, k: nat)
    requires a <= k < b <= |s| && s[k] == ']' && forall i :: k < i < b ==> s[i] != ']'
    ensures LastIn(s, ']', a, b) == Some(k)
    decreases b
  {
    if b - 1 != k {
      LastInAfter(s, a, b - 1, k);
    }
  }

  // ---------------------------------------------------------------------
  // `/^(AND|OR)(\s+#.*)?$/`

  /** A `\s+#` comment with no line break after the `#`. */
  predicate IsComment(u: string) {
    var q := SpaceRunEnd(u, 0);
    q > 0 && q < |u| && u[q] == '#' && forall k :: q < k < |u| ==> u[k] != '\n'
  }

  /** The connective an `AND`/`OR` key names, if it is one. */
  function Relation(k: Key): (r: Option<string>)
    ensures r.Some? ==> r.value == "AND" || r.value == "OR"
  {
    match k
    case IntKey(_) => None
    case StrKey(s) =>
      var t := Quoting.Body(s);
      if |t| >= 3 && t[..3] == "AND" && (|t| == 3 || IsComment(t[3..])) then Some("AND")
      else if |t| >= 2 && t[..2] == "OR" && (|t| == 2 || IsComment(t[2..])) then Some("OR")
      else None
  }

  // ---------------------------------------------------------------------
  // Projection tokens: `column(alias)[Type]`

  /** A `(alias)` right after optional whitespace at `i`: the alias and where it ends. */
  function AliasAt(s: string, i: nat): (r: Option<(string, nat)>)
    requires i <= |s|
    ensures r.Some? ==> IsName(r.value.0) && i < r.value.1 <= |s|
  {
    var a := SpaceRunEnd(s, i);
    if a + 1 < |s| && s[a] == '(' && IsNameStart(s[a + 1]) then
      var b := NameRunEnd(s, a + 2);
      if b < |s| && s[b] == ')' then Some((s[a + 1..b], b + 1)) else None
    else None
  }

  /** The first of `words` followed by `]` at `i`. */
  function WordAt(s: string, i: nat, words: seq<string>): (r: Option<string>)
    requires i <= |s|
    ensures r.Some? ==> r.value in words
  {
    if words == [] then None
    else if i + |words[0]| < |s| && s[i..i + |words[0]|] == words[0] && s[i + |words[0]|] == ']' then Some(words[0])
    else WordAt(s, i, words[1..])
  }

  /** A `[Type]` right after optional whitespace at `i`. */
  function TypeAt(s: string, i: nat, words: seq<string>): (r: Option<string>)
    requires i <= |s|
    ensures r.Some? ==> r.value in words
  {
    var a := SpaceRunEnd(s, i);
    if a < |s| && s[a] == '[' then WordAt(s, a + 1, words) else None
  }

  const AllTypes: seq<string> := ["String", "Bool", "Int", "Number", "Object", "JSON"]
  const ScalarTypes: seq<string> := ["String", "Bool", "Int", "Number"]

  datatype ColumnToken = ColumnToken(column: string, alias: Option<string>, hint: Option<string>)

  /** columnPush()'s `(?<column>…)(?:\s*\((?<alias>…)\))?(?:\s*\[(?<type>…)])?`; the column may hold dots. */
  function ParseColumnToken(s: string): (r: Option<ColumnToken>)
    ensures r.Some? ==> IsColumnRun(r.value.column)
  {
    var i := NameStartFrom(s, 0);
    if i == |s| then None
    else
      var j := ColumnRunEnd(s, i + 1);
      var alias := AliasAt(s, j);
      var p := if alias.Some? then alias.value.1 else j;
      Some(ColumnToken(s[i..j], if alias.Some? then Some(alias.value.0) else None, TypeAt(s, p, AllTypes)))
  }

  /** columnPush()'s raw-column key `(?<column>…)(\s*\[(?<type>…)])?`: only the column is read. */
  function ParseRawColumn(s: string): (r: Option<string>)
    ensures r.Some? ==> IsColumnRun(r.value)
  {
    var i := NameStartFrom(s, 0);
    if i == |s| then None else Some(s[i..ColumnRunEnd(s, i + 1)])
  }

  /**
   * columnMap()'s `([name]\.)?(?<column>name)…`: an optional `table.` in
   * front, and a column without dots.
   */
  function ParseMappedColumn(s: string, withAlias: bool): (r: Option<ColumnToken>)
    ensures r.Some? && r.value.hint.Some? ==> r.value.hint.value in (if withAlias then AllTypes else ScalarTypes)
    ensures !withAlias && r.Some? ==> r.value.alias.None?
  {
    var i := NameStartFrom(s, 0);
    if i == |s| then None
    else
      var r := NameRunEnd(s, i + 1);
      var c := if r + 1 < |s| && s[r] == '.' && IsNameStart(s[r + 1]) then r + 1 else i;
      var j := NameRunEnd(s, c + 1);
      var alias := if withAlias then AliasAt(s, j) else None;
      var p := if alias.Some? then alias.value.1 else j;
      var hint := TypeAt(s, p, if withAlias then AllTypes else ScalarTypes);
      Some(ColumnToken(s[c..j], if alias.Some? then Some(alias.value.0) else None, hint))
  }

  /** `preg_replace("/^name\./", '', $s)`: drops a leading `table.`. */
  function StripTable(s: string): string {
    if |s| > 0 && IsNameStart(s[0]) then
      var r := NameRunEnd(s, 1);
      if r < |s| && s[r] == '.' then s[r + 1..] else s
    else s
  }

  // ---------------------------------------------------------------------
  // Joins: `(\[(?<join><>?|><?)])?(?<table>name)\s?(\((?<alias>name)\))?`

  datatype JoinKey =
    | NoMatch
    | Unmarked
    | Marked(direction: string, table: string, alias: Option<string>)

  /** The `[<>]`, `[<]`, `[><]` or `[>]` marker at `p`, if any. */
  function MarkerAt(s: string, p: nat): Option<string>
    requires p <= |s|
  {
    if p + 4 <= |s| && s[p..p + 4] == "[<>]" then Some("<>")
    else if p + 3 <= |s| && s[p..p + 3] == "[<]" then Some("<")
    else if p + 4 <= |s| && s[p..p + 4] == "[><]" then Some("><")
    else if p + 3 <= |s| && s[p..p + 3] == "[>]" then Some(">")
    else None
  }

  function ParseJoinKeyFrom(s: string, p: nat): JoinKey
    requires p <= |s|
    decreases |s| - p
  {
    if p == |s| then NoMatch
    else
      var m := MarkerAt(s, p);
      var t := if m.Some? then p + |m.value| + 2 else p;
      if m.Some? && t < |s| && IsNameStart(s[t]) then
        var e := NameRunEnd(s, t + 1);
        Marked(m.value, s[t..e], JoinAliasAt(s, e))
      else if IsNameStart(s[p]) then Unmarked
      else ParseJoinKeyFrom(s, p + 1)
  }

  /** A join key's `\s?(\((?<alias>name)\))?` at `e`. */
  function JoinAliasAt(s: string, e: nat): Option<string>
    requires e <= |s|
  {
    var a := if e < |s| && IsSpace(s[e]) then e + 1 else e;
    if a + 1 < |s| && s[a] == '(' && IsNameStart(s[a + 1]) then
      var b := NameRunEnd(s, a + 2);
      if b < |s| && s[b] == ')' then Some(s[a + 1..b]) else None
    else None
  }

  function ParseJoinKey(s: string): JoinKey {
    ParseJoinKeyFrom(s, 0)
  }

  /** selectContext()'s `(?<table>name)\s*\((?<alias>name)\)`, searched from `p`. */
  function TableAliasFrom(s: string, p: nat): Option<(string, string)>
    requires p <= |s|
    decreases |s| - p
  {
    if p == |s| then None
    else if IsNameStart(s[p]) then
      var r := NameRunEnd(s, p + 1);
      var q := SpaceRunEnd(s, r);
      if q + 1 < |s| && s[q] == '(' && IsNameStart(s[q + 1]) then
        var a := NameRunEnd(s, q + 2);
        if a < |s| && s[a] == ')' then Some((s[p..r], s[q + 1..a])) else TableAliasFrom(s, p + 1)
      else TableAliasFrom(s, p + 1)
    else TableAliasFrom(s, p + 1)
  }

  // ---------------------------------------------------------------------
  // LIKE patterns: `((?<!\\)\[.+(?<!\\)]|(?<!\\)[*?!%#^_]|%.+|.+%)`

  predicate Unescaped(s: string, i: nat)
    requires i < |s|
  {
    i == 0 || s[i - 1] != '\\'
  }

  predicate IsWildcard(c: char) {
    c == '*' || c == '?' || c == '!' || c == '%' || c == '#' || c == '^' || c == '_'
  }

  predicate NoLineBreak(s: string, a: nat, b: nat)
    requires a <= b <= |s|
  {
    forall k :: a <= k < b ==> s[k] != '\n'
  }

  /** An unescaped `[` closed by a later unescaped `]` on the same line. */
  predicate BracketAt(s: string, i: nat)
    requires i < |s|
  {
    s[i] == '[' && Unescaped(s, i) &&
    exists j :: i + 1 < j < |s| && s[j] == ']' && s[j - 1] != '\\' && NoLineBreak(s, i + 1, j)
  }

  predicate PatternAt(s: string, i: nat)
    requires i < |s|
  {
    (IsWildcard(s[i]) && Unescaped(s, i))
    || (s[i] == '%' && i + 1 < |s| && s[i + 1] != '\n')
    || (s[i] == '%' && i >= 1 && s[i - 1] != '\n')
    || BracketAt(s, i)
  }

  /** The item already reads as a LIKE pattern, so it is not wrapped in `%…%`. */
  predicate HasLikePattern(s: string) {
    exists i :: 0 <= i < |s| && PatternAt(s, i)
  }

  /**
   * The item a `[~]` condition binds: the item itself or the item wrapped
   * in `%…%`, and in either case a text that reads as a LIKE pattern.
   */
  function LikeItem(s: string): (r: string)
    ensures r == s || r == "%" + s + "%"
    ensures HasLikePattern(r)
  {
    if HasLikePattern(s) then s
    else
      var r := "%" + s + "%";
      assert PatternAt(r, 0);
      r
  }

  /** Shaping a shaped item again changes nothing. */
  lemma LikeItemIdempotent(s: string)
    ensures LikeItem(LikeItem(s)) == LikeItem(s)
  {
  }

  /** An unescaped `*`, `?`, `!`, `%`, `#`, `^` or `_` keeps the item as it is. */
  lemma WildcardIsKept(s: string, i: nat)
    requires i < |s| && IsWildcard(s[i]) && (i == 0 || s[i - 1] != '\\')
    ensures LikeItem(s) == s
  {
    assert PatternAt(s, i);
  }

  /** A `%` at either end, next to another character that is not a line break, keeps the item as it is. */
  lemma PercentEdgeIsKept(s: string)
    requires |s| >= 2
    requires (s[0] == '%' && s[1] != '\n') || (s[|s| - 1] == '%' && s[|s| - 2] != '\n')
    ensures LikeItem(s) == s
  {
    if s[0] == '%' && s[1] != '\n' {
      assert PatternAt(s, 0);
    } else {
      assert PatternAt(s, |s| - 1);
    }
  }

  /** An unescaped `[` closed later on its line by an unescaped `]`, with something between, keeps the item as it is. */
  lemma BracketIsKept(s: string, i: nat, j: nat)
    requires i + 1 < j < |s| && s[i] == '[' && s[j] == ']'
    requires (i == 0 || s[i - 1] != '\\') && s[j - 1] != '\\'
    requires forall k :: i < k < j ==> s[k] != '\n'
    ensures LikeItem(s) == s
  {
    assert BracketAt(s, i);
    assert PatternAt(s, i);
  }

  /** Plain text with no wildcard, bracket or percent sign is wrapped. */
  lemma PlainTextIsWrapped(s: string)
    requires forall k :: 0 <= k < |s| ==> !IsWildcard(s[k]) && s[k] != '['
    ensures LikeItem(s) == "%" + s + "%"
  {
  }
}
