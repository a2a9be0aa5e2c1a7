/**
 * Identifier quoting, value quoting, PDO type mapping, raw fragments and the
 * debug rendering of a statement with its parameters substituted.
 */
module Quoting {
  import opened Php
  import opened Sql

  /**
   * A PCRE pattern anchored with `^…$` (no `D` flag) also accepts the subject
   * followed by one final newline: `Body` is the part the pattern must match.
   */
  function Body(s: string): string {
    if |s| > 0 && s[|s| - 1] == '\n' then s[..|s| - 1] else s
  }

  /** `/^[\p{L}_][\p{L}\p{N}@$#\-_]*$/u` */
  predicate AnchoredName(s: string) {
    IsName(s) || IsName(Body(s))
  }

  /** `/^[\p{L}_][\p{L}\p{N}@$#\-_]*(\.?[\p{L}_][\p{L}\p{N}@$#\-_]*)?$/u` */
  predicate AnchoredColumn(s: string) {
    IsColumnName(s) || IsColumnName(Body(s))
  }

  function FirstDot(s: string): (r: nat)
    ensures r <= |s|
    ensures r < |s| ==> s[r] == '.'
    ensures forall i :: 0 <= i < r ==> s[i] != '.'
  {
    if s == [] then 0 else if s[0] == '.' then 0 else 1 + FirstDot(s[1..])
  }

  /** `name` or `name.name`. */
  predicate IsColumnName(s: string) {
    var d := FirstDot(s);
    if d == |s| then IsName(s) else IsName(s[..d]) && IsName(s[d + 1..])
  }

  /** tableQuote(): a prefixed, double-quoted table name, or an InvalidTable error. */
  function TableQuote(prefix: string, table: string): (r: Result<Sql>)
    ensures r.Ok? <==> AnchoredName(table)
    ensures r.Ok? ==> Render(r.value) == "\"" + prefix + table + "\"" && Holes(r.value) == []
    ensures r.Err? ==> r.error == InvalidTable(table)
  {
    if AnchoredName(table) then Ok([Ident(prefix + table)]) else Err(InvalidTable(table))
  }

  /**
   * columnQuote(): `"column"`, or `"prefix` table `"."` column `"` for a
   * qualified column, or an InvalidColumn error.
   */
  function ColumnQuote(prefix: string, column: string): (r: Result<Sql>)
    ensures r.Ok? <==> AnchoredColumn(column)
    ensures r.Ok? && FirstDot(column) == |column| ==> Render(r.value) == "\"" + column + "\""
    ensures r.Ok? && FirstDot(column) < |column| ==>
      var d := FirstDot(column);
      Render(r.value) == "\"" + prefix + column[..d] + "\".\"" + column[d + 1..] + "\""
    ensures r.Ok? ==> Holes(r.value) == []
    ensures r.Err? ==> r.error == InvalidColumn(column)
  {
    if AnchoredColumn(column) then Ok(QuotedColumn(prefix, column)) else Err(InvalidColumn(column))
  }

  /** The quoted form of a column, qualified with the prefix when it names a table. */
  function QuotedColumn(prefix: string, column: string): (q: Sql)
    ensures FirstDot(column) == |column| ==> Render(q) == "\"" + column + "\""
    ensures FirstDot(column) < |column| ==>
      var d := FirstDot(column);
      Render(q) == "\"" + prefix + column[..d] + "\".\"" + column[d + 1..] + "\""
    ensures Holes(q) == []
  {
    var d := FirstDot(column);
    if d == |column| then
      PlainRender(column);
      [Ident(column)]
    else
      QualifiedRender(prefix, column[..d], column[d + 1..]);
      [Ident(prefix + column[..d]), Lit("."), Ident(column[d + 1..])]
  }

  lemma PlainRender(c: string)
    ensures Render([Ident(c)]) == "\"" + c + "\"" && Holes([Ident(c)]) == []
  {
    assert [Ident(c)][1..] == [];
  }

  lemma QualifiedRender(p: string, t: string, c: string)
    ensures var q := [Ident(p + t), Lit("."), Ident(c)];
            Render(q) == "\"" + p + t + "\".\"" + c + "\"" && Holes(q) == []
  {
    var q := [Ident(p + t), Lit("."), Ident(c)];
    Render3(q[0], q[1], q[2]);
    assert Holes([q[0]]) == [] && Holes([q[1]]) == [] && Holes([q[2]]) == [];
    assert "\"" + (p + t) == "\"" + p + t;
  }

  /** A plain name is quoted as it is, without the prefix. */
  lemma BareColumnQuote(prefix: string, c: string)
    requires IsName(c)
    ensures ColumnQuote(prefix, c) == Ok([Ident(c)])
  {
    assert forall i :: 0 <= i < |c| ==> c[i] != '.';
  }

  /** columnQuote() applied to a PHP value passed as its `string` argument. */
  function ColumnQuoteArg(prefix: string, v: Value): (r: Result<Sql>)
    ensures r.Ok? ==> Holes(r.value) == []
  {
    match StrArg(v)
    case None => Err(TypeError("columnQuote(): argument must be of type string"))
    case Some(s) => ColumnQuote(prefix, s)
  }

  /** tableQuote() applied to a PHP value passed as its `string` argument. */
  function TableQuoteArg(prefix: string, v: Value): (r: Result<Sql>)
    ensures r.Ok? ==> Holes(r.value) == []
  {
    match StrArg(v)
    case None => Err(TypeError("tableQuote(): argument must be of type string"))
    case Some(s) => TableQuote(prefix, s)
  }

  lemma NameHasNoQuote(s: string)
    requires IsName(s)
    ensures forall i :: 0 <= i < |s| ==> s[i] != '"'
  {
  }

  lemma AnchoredNameHasNoQuote(s: string)
    requires AnchoredName(s)
    ensures forall i :: 0 <= i < |s| ==> s[i] != '"'
  {
    if !IsName(s) {
      NameHasNoQuote(Body(s));
      assert forall i :: 0 <= i < |s| - 1 ==> s[i] == Body(s)[i];
    }
  }

  /** A double quote can never be part of an accepted name, so it cannot end the quoting early. */
  lemma TableNameHasNoQuote(prefix: string, table: string)
    requires TableQuote(prefix, table).Ok?
    ensures forall i :: 0 <= i < |table| ==> table[i] != '"'
  {
    AnchoredNameHasNoQuote(table);
  }

  lemma ColumnNameHasNoQuote(column: string)
    requires AnchoredColumn(column)
    ensures forall i :: 0 <= i < |column| ==> column[i] != '"'
  {
    if IsColumnName(column) {
      BareColumnHasNoQuote(column);
    } else {
      assert IsColumnName(Body(column));
      var body := Body(column);
      BareColumnHasNoQuote(body);
      assert forall i :: 0 <= i < |body| ==> column[i] == body[i];
    }
  }

  lemma BareColumnHasNoQuote(body: string)
    requires IsColumnName(body)
    ensures forall i :: 0 <= i < |body| ==> body[i] != '"'
  {
    var d := FirstDot(body);
    if d == |body| {
      NameHasNoQuote(body);
    } else {
      var a, b := body[..d], body[d + 1..];
      NameHasNoQuote(a);
      NameHasNoQuote(b);
      assert body == a + "." + b;
    }
  }

  // ---------------------------------------------------------------------
  // String literals

  /** First replacement of quote(): `'` becomes `\'` and `"` becomes `\"`. */
  function EscapeQuotes(s: string): string {
    if s == [] then []
    else (if s[0] == '\'' || s[0] == '"' then ['\\', s[0]] else [s[0]]) + EscapeQuotes(s[1..])
  }

  /** Second replacement of quote(): every `\"` becomes `\\"`. */
  function DoubleEscapeQuote(s: string): string {
    if |s| >= 2 && s[0] == '\\' && s[1] == '"' then "\\\\\"" + DoubleEscapeQuote(s[2..])
    else if s == [] then []
    else [s[0]] + DoubleEscapeQuote(s[1..])
  }

  /** quote() for MySQL, as written: backslashes are left as they are. */
  function Quote(s: string): (r: string)
    ensures |r| >= 2 && r[0] == '\'' && r[|r| - 1] == '\''
  {
    "'" + DoubleEscapeQuote(EscapeQuotes(s)) + "'"
  }

  /** What MySQL reads for the character after a backslash in a string literal. */
  function Unescape(c: char): string {
    if c == '0' then "\U{0}"
    else if c == 'b' then "\U{8}"
    else if c == 'n' then "\n"
    else if c == 'r' then "\r"
    else if c == 't' then "\t"
    else if c == 'Z' then "\U{1A}"
    else if c == '%' then "\\%"
    else if c == '_' then "\\_"
    else [c]
  }

  function PrependValue(x: string, r: Option<(string, string)>): Option<(string, string)> {
    match r
    case None => None
    case Some((v, rest)) => Some((x + v, rest))
  }

  /**
   * MySQL's reading of a single-quoted literal whose opening quote has been
   * consumed: the value, and the text after the closing quote; None when the
   * literal never ends.
   */
  function ReadLiteral(s: string): Option<(string, string)>
    decreases |s|
  {
    if s == [] then None
    else if s[0] == '\'' then
      if |s| >= 2 && s[1] == '\'' then PrependValue("'", ReadLiteral(s[2..])) else Some(("", s[1..]))
    else if s[0] == '\\' then
      if |s| < 2 then None else PrependValue(Unescape(s[1]), ReadLiteral(s[2..]))
    else PrependValue([s[0]], ReadLiteral(s[1..]))
  }

  /** A literal followed by more text: MySQL's value and the text after it. */
  function ReadQuoted(q: string): Option<(string, string)> {
    if |q| > 0 && q[0] == '\'' then ReadLiteral(q[1..]) else None
  }

  /** A lone backslash makes quote()'s literal swallow its own closing quote. */
  lemma QuoteLeavesBackslash()
    ensures Quote("\\") == "'\\'"
    ensures ReadQuoted(Quote("\\")) == None
  {
    assert EscapeQuotes("\\") == "\\";
    assert DoubleEscapeQuote("\\") == "\\";
    var r := "\\'";
    assert r[2..] == "";
  }

  /** A double quote comes back from quote()'s literal with a backslash in front. */
  lemma QuoteAddsBackslashToDoubleQuote()
    ensures ReadQuoted(Quote("\"")) == Some(("\\\"", ""))
  {
    assert EscapeQuotes("\"") == "\\\"";
    assert DoubleEscapeQuote("\\\"") == "\\\\\"";
    var r := "\\\\\"'";
    assert r[2..] == "\"'";
    assert "\"'"[1..] == "'";
    assert "'"[1..] == "";
    assert ReadLiteral("'") == Some(("", ""));
    assert ReadLiteral("\"'") == PrependValue("\"", Some(("", "")));
    assert "\"" + "" == "\"";
    assert Quote("\"")[1..] == r;
    assert ReadLiteral(r) == PrependValue(Unescape('\\'), ReadLiteral("\"'"));
    assert Unescape('\\') + "\"" == "\\\"";
  }

  /** Escapes backslashes as well as both quotes. */
  function EscapeLiteral(s: string): string {
    if s == [] then []
    else (if s[0] == '\\' || s[0] == '\'' || s[0] == '"' then ['\\', s[0]] else [s[0]]) + EscapeLiteral(s[1..])
  }

  /** quote() as intended: a literal MySQL reads back as exactly `s`. */
  function QuoteEscaped(s: string): (r: string)
    ensures |r| >= 2 && r[0] == '\'' && r[|r| - 1] == '\''
  {
    "'" + EscapeLiteral(s) + "'"
  }

  lemma {:induction false} EscapeLiteralReads(s: string, rest: string)
    requires rest == [] || rest[0] != '\''
    ensures ReadLiteral(EscapeLiteral(s) + "'" + rest) == Some((s, rest))
  {
    if s == [] {
      assert EscapeLiteral(s) + "'" + rest == "'" + rest;
      assert ("'" + rest)[1..] == rest;
    } else {
      var t := EscapeLiteral(s[1..]) + "'" + rest;
      EscapeLiteralReads(s[1..], rest);
      if s[0] == '\\' || s[0] == '\'' || s[0] == '"' {
        assert EscapeLiteral(s) + "'" + rest == ['\\', s[0]] + t;
        assert (['\\', s[0]] + t)[2..] == t;
      } else {
        assert EscapeLiteral(s) + "'" + rest == [s[0]] + t;
        assert ([s[0]] + t)[1..] == t;
      }
      assert [s[0]] + s[1..] == s;
    }
  }

  /** Whatever the value, the corrected literal reads back as the value and ends where it should. */
  lemma QuoteEscapedRoundTrip(s: string, rest: string)
    requires rest == [] || rest[0] != '\''
    ensures ReadQuoted(QuoteEscaped(s) + rest) == Some((s, rest))
  {
    EscapeLiteralReads(s, rest);
    assert (QuoteEscaped(s) + rest)[1..] == EscapeLiteral(s) + "'" + rest;
  }

  /** quote() applied to a PHP value passed as its `string` argument. */
  function QuoteArg(v: Value): Result<string> {
    match StrArg(v)
    case None => Err(TypeError("quote(): argument must be of type string"))
    case Some(s) => Ok(QuoteEscaped(s))
  }

  // ---------------------------------------------------------------------
  // PDO types

  /** typeMap(): the value to bind and its PDO type, by the value's PHP type. */
  function TypeMap(v: Value): (b: Binding)
    ensures b.ty == ParamNull <==> v.Null?
    ensures b.ty == ParamInt <==> v.Int?
    ensures b.ty == ParamBool <==> v.Bool?
    ensures b.ty == NoType <==> v.Arr?
    ensures b.ty == ParamStr <==> v.Str? || v.Raw? || v.Obj?
    ensures v.Bool? ==> b.value == Plain(Str(if v.b then "1" else "0"))
    ensures !v.Bool? ==> b.value == Plain(v)
  {
    match v
    case Null => Binding(Plain(Null), ParamNull)
    case Bool(x) => Binding(Plain(Str(if x then "1" else "0")), ParamBool)
    case Int(_) => Binding(Plain(v), ParamInt)
    case Str(_) => Binding(Plain(v), ParamStr)
    case Arr(_) => Binding(Plain(v), NoType)
    case Raw(_) => Binding(Plain(v), ParamStr)
    case Obj(_) => Binding(Plain(v), ParamStr)
  }

  // ---------------------------------------------------------------------
  // Raw fragments

  function KeywordText(k: TableKeyword): string {
    match k
    case KwFrom => "FROM"
    case KwTable => "TABLE"
    case KwInto => "INTO"
    case KwUpdate => "UPDATE"
    case KwJoin => "JOIN"
    case KwTableIfExists => "TABLE IF EXISTS"
  }

  /** The parameters a fragment's text refers to. */
  function FragmentParams(toks: seq<FragToken>): seq<string> {
    if toks == [] then []
    else (if toks[0].FParam? then [toks[0].name] else []) + FragmentParams(toks[1..])
  }

  /** Every `:name` in the fragment's text is one of the fragment's own parameters. */
  ghost predicate Closed(f: Fragment) {
    forall n :: n in FragmentParams(f.tokens) ==> n in Names(f.params)
  }

  function TokenSql(prefix: string, t: FragToken): (r: Result<Sql>)
    ensures r.Ok? ==> Holes(r.value) == if t.FParam? then [Param(t.name)] else []
  {
    match t
    case FText(x) => Ok([Lit(x)])
    case FTable(k, n) =>
      var q :- TableQuote(prefix, n);
      HolesConcat([Lit(KeywordText(k) + " ")], q);
      Ok([Lit(KeywordText(k) + " ")] + q)
    case FColumn(n) => ColumnQuote(prefix, n)
    case FParam(n) => Ok([Param(n)])
  }

  /** The fragment's text with its table and column references quoted. */
  function FragmentSql(prefix: string, toks: seq<FragToken>): (r: Result<Sql>)
    ensures r.Ok? ==> forall p :: p in Holes(r.value) ==> p.Param? && p.name in FragmentParams(toks)
  {
    if toks == [] then Ok([])
    else
      var head :- TokenSql(prefix, toks[0]);
      var tail :- FragmentSql(prefix, toks[1..]);
      HolesConcat(head, tail);
      Ok(head + tail)
  }

  /** `$map[$key] = typeMap($value)` for each of the fragment's parameters, in order. */
  function MergeParams(m: ParamMap, ps: seq<(string, Value)>): (r: ParamMap)
    ensures Names(r) == Names(m) + Names(ps)
    decreases ps
  {
    if ps == [] then m
    else
      var r := MergeParams(Assign(m, ps[0].0, TypeMap(ps[0].1)), ps[1..]);
      assert Names(ps) == {ps[0].0} + Names(ps[1..]) by {
        assert forall i :: 1 <= i < |ps| ==> ps[i].0 == ps[1..][i - 1].0;
      }
      r
  }

  /**
   * buildRaw(): None for anything but a raw fragment; otherwise the
   * fragment's SQL, with its parameters added to the map.
   */
  function BuildRaw(prefix: string, v: Value, m: ParamMap): (r: Result<Option<(Sql, ParamMap)>>)
    ensures r.Ok? && r.value.None? <==> !v.Raw?
    ensures r.Ok? && r.value.Some? ==> Names(r.value.value.1) == Names(m) + Names(v.frag.params)
  {
    match v
    case Raw(f) =>
      var q :- FragmentSql(prefix, f.tokens);
      Ok(Some((q, MergeParams(m, f.params))))
    case _ => Ok(None)
  }

  /** The SQL of a closed fragment only mentions its own parameters, which the new map binds. */
  lemma BuildRawHoles(prefix: string, v: Value, m: ParamMap)
    requires v.Raw? && Closed(v.frag)
    requires BuildRaw(prefix, v, m).Ok?
    ensures var (q, m1) := BuildRaw(prefix, v, m).value.value;
      ParamsIn(Holes(q), Names(m1)) && Names(m) <= Names(m1)
  {
    var (q, m1) := BuildRaw(prefix, v, m).value.value;
    var h := Holes(q);
    forall i | 0 <= i < |h|
      ensures h[i].Param? && HoleName(h[i]) in Names(m1)
    {
      assert h[i] in Holes(q);
    }
  }

  /** A raw fragment, as a condition right-hand side, counts only when its SQL text is truthy. */
  predicate TruthySql(q: Sql) {
    TruthyStr(Render(q))
  }
}
