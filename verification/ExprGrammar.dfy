/** Reference grammar: what tree a token sequence denotes at each level.

    The functions are total on every token sequence: the termination measure is
    (tokens left, rank of the rule), and each rule that succeeds has consumed a token.

    One piece of parser state is part of the meaning: the table name `m` that the last
    identifier left in the parser's column reference. The name of a called function lives
    there too, so the rule for special arguments sees the name left by the first argument. */
module ExprGrammar {
  import opened Wrappers
  import opened ExprSyntax
  import DocPath

  datatype Mode = DOCUMENT | TABLE

  /** `blobs` tells to report strings as octets; `lex` tokenizes a quoted path. */
  datatype Config = Config(mode: Mode, blobs: bool, lex: string -> Option<seq<Token>>)

  /** A parsed expression and the table name left in the parser. */
  datatype Expr = Expr(tree: Tree, m: TableRef)

  const NO_TABLE := TableRef("", "")

  function Level(l: nat, c: Config, m: TableRef, s: seq<Token>): (r: Parsed<Expr>)
    requires l <= OR
    ensures r.Ok? ==> |r.rest| < |s|
    decreases |s|, 1 + l, 1
  {
    if l == ATOMIC then Atomic(c, m, s)
    else if l == ILRI then Ilri(c, m, s)
    else if l == BIT && HeadIs(s, Tilde) then
      var (a, r) :- Level(ATOMIC, c, m, s[1..]);
      Ok(Expr(Op(NTilde, [a.tree]), a.m), r)
    else
      var (a, r) :- Level(l - 1, c, m, s);
      if BinaryLevel(r) != l then Ok(a, r)
      else
        // the right operand re-enters the same level
        var (b, r1) :- Level(l, c, a.m, r[1..]);
        Ok(Expr(Op(Binary(r[0]).name, [a.tree, b.tree]), b.m), r1)
  }

  // IS, IN, LIKE, RLIKE, BETWEEN, REGEXP

  function Ilri(c: Config, m: TableRef, s: seq<Token>): (r: Parsed<Expr>)
    ensures r.Ok? ==> |r.rest| < |s|
    decreases |s|, 1 + ILRI, 0
  {
    var (a, r) :- Level(COMP, c, m, s);
    var neg := HeadKw(r, KwNot);
    var r1 := if neg then r[1..] else r;
    if BinaryLevel(r1) != ILRI then
      if neg then Err(|r1|) else Ok(a, r1)
    else
      var (t, r2) :- IlriTail(c, Binary(r1[0]).name, neg, a, r1[1..]);
      Ok(t, r2)
  }

  function IlriTail(c: Config, op: OpName, neg: bool, a: Expr, s: seq<Token>): (r: Parsed<Expr>)
    ensures r.Ok? ==> |r.rest| < |s|
    decreases |s|, 1 + ILRI, 0
  {
    match op
    case NIs =>
      if neg then Err(|s|)
      else
        var isNot := HeadKw(s, KwNot);
        var s1 := if isNot then s[1..] else s;
        var name := if isNot then NIsNot else NIs;
        if s1 == [] then Err(0)
        else
          var k := s1[0].Kw();
          // both Boolean literals are reported as true
          if k == KwTrue || k == KwFalse then Ok(Expr(Op(name, [a.tree, Val(VBool(true))]), a.m), s1[1..])
          else if k == KwNull then Ok(Expr(Op(name, [a.tree, Val(VNull)]), a.m), s1[1..])
          else Err(|s1| - 1)
    case NIn =>
      if HeadIs(s, LParen) then
        var (args, r) :- Args(c.(blobs := true), s[1..]);
        var (_, r1) :- Expect(r, RParen);
        Ok(Expr(Op(if neg then NNotIn else NIn, [a.tree] + args), a.m), r1)
      else
        var (b, r) :- Level(COMP, c, a.m, s);
        Ok(Expr(Op(if neg then NNotContIn else NContIn, [a.tree, b.tree]), b.m), r)
    case NLike =>
      var (b, r) :- Level(COMP, c, a.m, s);
      if HeadKw(r, KwEscape) then Err(|r|)
      else Ok(Expr(Op(if neg then NNotLike else NLike, [a.tree, b.tree]), b.m), r)
    case NRLike =>
      var (b, r) :- Level(COMP, c, a.m, s);
      if HeadKw(r, KwEscape) then Err(|r|)
      else Ok(Expr(Op(if neg then NNotRegexp else NRegexp, [a.tree, b.tree]), b.m), r)
    case NRegexp =>
      var (b, r) :- Level(COMP, c, a.m, s);
      Ok(Expr(Op(if neg then NNotRegexp else NRegexp, [a.tree, b.tree]), b.m), r)
    case NBetween =>
      var (lo, r) :- Level(COMP, c, a.m, s);
      var (_, r1) :- ExpectKw(r, KwAnd);
      var (hi, r2) :- Level(COMP, c, lo.m, r1);
      Ok(Expr(Op(if neg then NNotBetween else NBetween, [a.tree, lo.tree, hi.tree]), hi.m), r2)
    case _ => Err(|s|)
  }

  /** argsList: one or more expressions separated by commas, each read by a new parser. */
  function Args(c: Config, s: seq<Token>): (r: Parsed<seq<Tree>>)
    ensures r.Ok? ==> |r.rest| < |s|
    decreases |s|, 1 + OR, 2
  {
    var (e, r) :- Level(OR, c, NO_TABLE, s);
    if HeadIs(r, Comma) then
      var (es, r1) :- Args(c, r[1..]);
      Ok([e.tree] + es, r1)
    else Ok([e.tree], r)
  }

  // Atomic expressions

  function Atomic(c: Config, m: TableRef, s: seq<Token>): (r: Parsed<Expr>)
    ensures r.Ok? ==> |r.rest| < |s|
    decreases |s|, 1, 0
  {
    if s == [] then Err(0)
    else if s[0].ty == LCurly then
      var (t, r) :- Document(c.(blobs := false), s);
      Ok(Expr(t, m), r)
    else if s[0].ty == LSq then
      var (t, r) :- Array(c.(blobs := false), s);
      Ok(Expr(t, m), r)
    else if s[0].ty == LParen then
      var (e, r) :- Level(OR, c, m, s[1..]);
      var (_, r1) :- Expect(r, RParen);
      Ok(e, r1)
    else if s[0].ty == Colon then
      var (t, r) :- Expect(s[1..], Word);
      Ok(Expr(Param(t.text), m), r)
    else if s[0].ty == Star then Ok(Expr(Op(NStar, []), m), s[1..])
    else if HeadKw(s, KwCast) then Cast(c, m, s[1..])
    else if SignedLiteral(s) then
      var (v, r) :- Literal(c, s[0].ty.Minus?, s[1..]);
      Ok(Expr(Val(v), m), r)
    else if Unary(s[0]).Some? then
      var (a, r) :- Level(ATOMIC, c, m, s[1..]);
      Ok(Expr(Op(Unary(s[0]).value, [a.tree]), a.m), r)
    else if IsLiteral(s[0]) then
      var (v, r) :- Literal(c, false, s);
      Ok(Expr(Val(v), m), r)
    else Ident(c, s)
  }

  /** A sign directly followed by a number belongs to the literal. */
  predicate SignedLiteral(s: seq<Token>) {
    |s| > 1 && (s[0].ty.Plus? || s[0].ty.Minus?) && (s[1].ty.Number? || s[1].ty.Integer?)
  }

  predicate IsLiteral(t: Token) {
    || t.ty.QString? || t.ty.QQString? || t.ty.Number? || t.ty.Integer? || t.ty.Hex?
    || t.Kw() in {KwNull, KwTrue, KwFalse}
  }

  function Literal(c: Config, neg: bool, s: seq<Token>): (r: Parsed<Value>)
    requires s != [] && IsLiteral(s[0])
    ensures r.Ok? ==> |r.rest| < |s|
  {
    var t := s[0];
    if t.ty.QString? || t.ty.QQString? then Ok(StringValue(c, t.text), s[1..])
    else if t.ty.Number? then Ok(VDouble(neg, t.text), s[1..])
    else if t.ty.Integer? then IntLiteral(neg, false, s)
    else if t.ty.Hex? then IntLiteral(neg, true, s)
    else if t.Kw() == KwNull then Ok(VNull, s[1..])
    else Ok(VBool(t.Kw() == KwTrue), s[1..])
  }

  function StringValue(c: Config, text: string): Value {
    if c.blobs then VOctets(text) else VStr(text)
  }

  function IntLiteral(neg: bool, hex: bool, s: seq<Token>): (r: Parsed<Value>)
    requires s != []
    ensures r.Ok? ==> |r.rest| < |s|
  {
    match ToNat(s[0].text, hex, if neg then INT64_MAX else UINT64_MAX)
    case None => Err(|s| - 1)
    case Some(n) => Ok(if neg then VInt(0 - n) else VUInt(n), s[1..])
  }

  // CAST(expr AS type)

  function Cast(c: Config, m: TableRef, s: seq<Token>): (r: Parsed<Expr>)
    ensures r.Ok? ==> |r.rest| < |s|
    decreases |s|, 0, 0
  {
    var (_, r) :- Expect(s, LParen);
    var (e, r1) :- Level(OR, c, m, r);
    var (_, r2) :- ExpectKw(r1, KwAs);
    var (ty, r3) :- CastType(r2);
    var (_, r4) :- Expect(r3, RParen);
    Ok(Expr(Op(NCast, [e.tree, Val(VOctets(ty))]), e.m), r4)
  }

  function CastType(s: seq<Token>): (r: Parsed<string>)
    ensures r.Ok? ==> |r.rest| < |s|
  {
    if s == [] then Err(0)
    else
      match s[0].Kw()
      case KwBinary => Dimension("BINARY", false, s[1..])
      case KwChar => Dimension("CHAR", false, s[1..])
      case KwDecimal => Dimension("DECIMAL", true, s[1..])
      case KwSigned => Ok("SIGNED INTEGER", OptionalInt(s[1..]))
      case KwUnsigned => Ok("UNSIGNED INTEGER", OptionalInt(s[1..]))
      case KwDate => Ok("DATE", s[1..])
      case KwDateTime => Ok("DATETIME", s[1..])
      case KwTime => Ok("TIME", s[1..])
      case KwInteger => Ok("INTEGER", s[1..])
      case KwJson => Ok("JSON", s[1..])
      case _ => Err(|s| - 1)
  }

  function OptionalInt(s: seq<Token>): (r: seq<Token>)
    ensures |r| <= |s|
  {
    if HeadKw(s, KwInteger) || HeadKw(s, KwInt) then s[1..] else s
  }

  /** An optional "(N)", or "(N,M)" when `two` dimensions are allowed. */
  function Dimension(name: string, two: bool, s: seq<Token>): (r: Parsed<string>)
    ensures r.Ok? ==> |r.rest| <= |s|
  {
    if !HeadIs(s, LParen) then Ok(name, s)
    else
      var (n, r) :- Expect(s[1..], Integer);
      if two && HeadIs(r, Comma) then
        var (m, r1) :- Expect(r[1..], Integer);
        var (_, r2) :- Expect(r1, RParen);
        Ok(name + "(" + n.text + "," + m.text + ")", r2)
      else
        var (_, r1) :- Expect(r, RParen);
        Ok(name + "(" + n.text + ")", r1)
  }

  // Function calls, columns and document fields

  /** What was seen of a schema-qualified name: `ok` tells if it is complete, `table` keeps
      the words that were consumed even if it is not, `quoted` if one was back-quoted. */
  datatype SchemaId = SchemaId(ok: bool, table: TableRef, quoted: bool, rest: seq<Token>)

  predicate IsIdent(s: seq<Token>) { HeadIs(s, Word) || HeadIs(s, QWord) }

  function SchemaIdent(s: seq<Token>): (r: SchemaId)
    ensures |r.rest| <= |s|
    ensures r.ok ==> |r.rest| < |s|
    ensures r.table.name != "" ==> |r.rest| < |s|
  {
    if !IsIdent(s) then SchemaId(false, TableRef("", ""), false, s)
    else if !HeadIs(s[1..], Dot) then SchemaId(true, TableRef(s[0].text, ""), s[0].ty.QWord?, s[1..])
    else if !IsIdent(s[2..]) then SchemaId(false, TableRef(s[0].text, ""), s[0].ty.QWord?, s[2..])
    else SchemaId(true, TableRef(s[2].text, s[0].text), s[0].ty.QWord? || s[2].ty.QWord?, s[3..])
  }

  function Ident(c: Config, s: seq<Token>): (r: Parsed<Expr>)
    ensures r.Ok? ==> |r.rest| < |s|
    decreases |s|, 0, 1
  {
    var id := SchemaIdent(s);
    if id.ok && id.table.name == "" then Err(|id.rest|)  // the parser asserts that it has a name
    else if id.ok && HeadIs(id.rest, LParen) then FunctionCall(c, id.table, id.rest[1..])
    else if c.mode == TABLE then
      if id.ok then Column(c, id.table, id.rest) else Err(|id.rest|)
    else if id.quoted then Err(|id.rest|)
    else if id.table.name == "" then
      var (p, r) :- DocPath.FieldFrom(id.rest, true);
      Ok(Expr(Field(p), id.table), r)
    else
      var (els, r) :- DocPath.MoreSteps(id.rest);
      Ok(Expr(Field(Steps(Members(id.table) + els)), id.table), r)
  }

  function Members(t: TableRef): seq<PathEl> {
    if t.schema == "" then [Member(t.name)] else [Member(t.schema), Member(t.name)]
  }

  function Column(c: Config, t: TableRef, s: seq<Token>): (r: Parsed<Expr>)
    ensures r.Ok? ==> |r.rest| <= |s|
  {
    if HeadIs(s, Dot) then
      if IsIdent(s[1..]) then ColumnPath(c, ColumnRef(s[1].text, t), s[2..]) else Err(|s| - 1)
    else ColumnPath(c, ColumnRef(t.name, TableRef(t.schema, "")), s)
  }

  function ColumnPath(c: Config, col: ColumnRef, s: seq<Token>): (r: Parsed<Expr>)
    ensures r.Ok? ==> |r.rest| <= |s|
  {
    if !(HeadIs(s, Arrow) || HeadIs(s, Arrow2)) then Ok(Expr(Col(col, None), col.table), s)
    else
      var (p, r) :- ArrowPath(c, s[1..]);
      Ok(Expr(Col(col, Some(p)), col.table), r)
  }

  /** The path after an arrow: a text that is split into tokens and must be a path as a whole, or a
      path as it stands. */
  function ArrowPath(c: Config, s: seq<Token>): (r: Parsed<Path>)
    ensures r.Ok? ==> |r.rest| < |s|
  {
    if HeadIs(s, QString) || HeadIs(s, QQString) then
      match c.lex(s[0].text)
      case None => Err(|s| - 1)
      case Some(toks) =>
        match DocPath.FieldFrom(toks, true)
        case Ok(p, left) => if left == [] then Ok(p, s[1..]) else Err(|s| - 1)
        case Err(_) => Err(|s| - 1)
    else DocPath.FieldFrom(s, true)
  }

  /** The argument list after '('. POSITION(a IN b) is reported as LOCATE(a, b). */
  function FunctionCall(c: Config, f: TableRef, s: seq<Token>): (r: Parsed<Expr>)
    ensures r.Ok? ==> |r.rest| < |s|
    decreases |s|, 1 + OR, 2
  {
    if HeadIs(s, RParen) then Ok(Expr(Call(ReportedName(f), []), f), s[1..])
    else if TrimClause(f, s) then Err(|s|)
    else
      var (a, r) :- Level(if IsFunc(f, "position") then COMP else OR, c, f, s);
      if HeadIs(r, Comma) then
        var (args, r1) :- Args(c.(blobs := false), r[1..]);
        var (_, r2) :- Expect(r1, RParen);
        Ok(Expr(Call(ReportedName(f), [a.tree] + args), a.m), r2)
      else if SpecialError(a.m, r) then Err(|r|)
      else if IsFunc(a.m, "position") then
        // the name was left by the first argument, or is that of the function itself
        var (_, r1) :- ExpectKw(r, KwIn);
        var (b, r2) :- Level(OR, c, a.m, r1);
        var (_, r3) :- Expect(r2, RParen);
        Ok(Expr(Call(ReportedName(f), [a.tree, b.tree]), b.m), r3)
      else
        var (_, r1) :- Expect(r, RParen);
        Ok(Expr(Call(ReportedName(f), [a.tree]), a.m), r1)
  }

  function ReportedName(f: TableRef): TableRef { if IsFunc(f, "position") then TableRef("locate", "") else f }

  predicate TrimClause(f: TableRef, s: seq<Token>) {
    IsFunc(f, "trim") && (HeadKw(s, KwBoth) || HeadKw(s, KwLeading) || HeadKw(s, KwTrailing))
  }

  /** Clauses that are recognised and rejected as not supported. */
  predicate SpecialError(f: TableRef, s: seq<Token>) {
    || (IsFunc(f, "char") && HeadKw(s, KwUsing))
    || (IsFunc(f, "trim") && HeadKw(s, KwFrom))
  }

  // Arrays and documents

  function AnyValue(c: Config, s: seq<Token>): (r: Parsed<Tree>)
    ensures r.Ok? ==> |r.rest| < |s|
    decreases |s|, 1 + OR, 2
  {
    if HeadIs(s, LCurly) then Document(c, s)
    else if HeadIs(s, LSq) then Array(c, s)
    else
      var (e, r) :- Level(OR, c, NO_TABLE, s);
      Ok(e.tree, r)
  }

  function Array(c: Config, s: seq<Token>): (r: Parsed<Tree>)
    requires HeadIs(s, LSq)
    ensures r.Ok? ==> |r.rest| < |s|
    decreases |s|, 0, 0
  {
    if HeadIs(s[1..], RSq) then Ok(Arr([]), s[2..])
    else
      var (es, r) :- Elements(c, s[1..]);
      var (_, r1) :- Expect(r, RSq);
      Ok(Arr(es), r1)
  }

  function Elements(c: Config, s: seq<Token>): (r: Parsed<seq<Tree>>)
    ensures r.Ok? ==> |r.rest| < |s|
    decreases |s|, 1 + OR, 3
  {
    var (e, r) :- AnyValue(c, s);
    if HeadIs(r, Comma) then
      var (es, r1) :- Elements(c, r[1..]);
      Ok([e] + es, r1)
    else Ok([e], r)
  }

  function Document(c: Config, s: seq<Token>): (r: Parsed<Tree>)
    requires HeadIs(s, LCurly)
    ensures r.Ok? ==> |r.rest| < |s|
    decreases |s|, 0, 0
  {
    if HeadIs(s[1..], RCurly) then Ok(Doc([]), s[2..])
    else
      var (kvs, r) :- KeyVals(c, s[1..]);
      var (_, r1) :- Expect(r, RCurly);
      Ok(Doc(kvs), r1)
  }

  predicate IsKey(s: seq<Token>) { HeadIs(s, QQString) || HeadIs(s, QString) || HeadIs(s, Word) }

  /** One `key : value` pair. */
  function Pair(c: Config, s: seq<Token>): (r: Parsed<KeyVal>)
    ensures r.Ok? ==> |r.rest| < |s|
    decreases |s|, 0, 0
  {
    if !IsKey(s) then Err(|s|)
    else
      var (_, r) :- Expect(s[1..], Colon);
      var (v, r1) :- AnyValue(c, r);
      Ok(KeyVal(s[0].text, v), r1)
  }

  function KeyVals(c: Config, s: seq<Token>): (r: Parsed<seq<KeyVal>>)
    ensures r.Ok? ==> |r.rest| < |s|
    decreases |s|, 0, 1
  {
    var (kv, r) :- Pair(c, s);
    if HeadIs(r, Comma) then
      var (kvs, r1) :- KeyVals(c, r[1..]);
      Ok([kv] + kvs, r1)
    else Ok([kv], r)
  }
}
