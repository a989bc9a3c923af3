/** Writing expression trees as tokens, in all the ways in which they can be written. */
module ExprPrinter {
  import opened Wrappers
  import opened ExprSyntax
  import opened ExprGrammar
  import DocPath

  function KwTok(k: Keyword): Token { Token(Word, k, "") }

  // Ways of writing

  datatype Notation = Decimal | Signed | Hexadecimal

  /** The types of CAST as they are written: with dimensions, with an optional word, or plain. */
  datatype CastForm =
    | Sized(kw: Keyword, dims: seq<string>)
    | Integral(kw: Keyword, suffix: Keyword)
    | Simple(kw: Keyword)

  /** The choices a writer has. `op` chooses among the spellings of an operator, `name` tells which
      names and keys are quoted, `text` which texts are in double quotes, `number` how a number is
      written, `member` how the members of a path are written, `long` which paths come after `->>`,
      `bare` which document paths are written without `$`, `wrap` which expressions are in parentheses
      that they do not need, and `cast` how a type is written. */
  datatype Style = Style(
    op: Tree -> nat, name: string -> bool, text: string -> bool, number: nat -> Notation, member: DocPath.Manner,
    long: Path -> bool, bare: Path -> bool, wrap: Tree -> bool, cast: string -> CastForm)

  function NameTok(y: Style, name: string): Token { Token(if y.name(name) then QWord else Word, KwNone, name) }

  /** The level of a two-argument operator, or NO_LEVEL. */
  function OpLevel(op: OpName): nat {
    match op
    case NStar | NSlash | NPercent => MUL
    case NPlus | NMinus => ADD
    case NLShift | NRShift => SHIFT
    case NBitAnd | NBitOr | NBitXor => BIT
    case NEq | NNe | NGt | NGe | NLt | NLe => COMP
    case NAnd => AND
    case NOr => OR
    case _ => NO_LEVEL
  }

  /** All tokens that stand for a two-argument operator. */
  function Spellings(op: OpName): (ts: seq<Token>)
    requires OpLevel(op) != NO_LEVEL
    ensures ts != []
  {
    match op
    case NStar => [Sym(Star)]
    case NSlash => [Sym(Slash)]
    case NPercent => [Sym(Percent), KwTok(KwMod)]
    case NPlus => [Sym(Plus)]
    case NMinus => [Sym(Minus)]
    case NLShift => [Sym(LShift)]
    case NRShift => [Sym(RShift)]
    case NBitAnd => [Sym(Amp)]
    case NBitOr => [Sym(Bar)]
    case NBitXor => [Sym(Hat)]
    case NEq => [Sym(Eq), Sym(Eq2)]
    case NNe => [Sym(Ne), Sym(Df)]
    case NGt => [Sym(Gt)]
    case NGe => [Sym(Ge)]
    case NLt => [Sym(Lt)]
    case NLe => [Sym(Le)]
    case NAnd => [Sym(Amp2), KwTok(KwAnd)]
    case NOr => [Sym(Bar2), KwTok(KwOr)]
    case _ => [Sym(Question)]
  }

  function OpTok(y: Style, e: Tree): (t: Token)
    requires IsBinary(e)
    ensures t in Spellings(e.op)
  {
    var ts := Spellings(e.op);
    ts[y.op(e) % |ts|]
  }

  function UnaryTok(op: OpName): Token {
    match op
    case NPlus => Sym(Plus)
    case NMinus => Sym(Minus)
    case NBang => Sym(Bang)
    case NTilde => Sym(Tilde)
    case _ => KwTok(KwNot)
  }

  predicate IsUnary(op: OpName) { op in {NPlus, NMinus, NBang, NTilde, NNot} }

  // The keyword operators: a possible NOT, the operator word, and how many operands follow

  predicate Negated(op: OpName) { op in {NNotIn, NNotContIn, NNotLike, NNotRegexp, NNotBetween} }

  function IlriWord(op: OpName): Keyword {
    match op
    case NIn | NNotIn | NContIn | NNotContIn => KwIn
    case NLike | NNotLike => KwLike
    case NRegexp | NNotRegexp => KwRegexp
    case NBetween | NNotBetween => KwBetween
    case NIs | NIsNot => KwIs
    case _ => KwNone
  }

  /** The words that stand for a keyword operator. */
  function IlriWords(op: OpName): (ks: seq<Keyword>)
    ensures ks != []
  {
    if IlriWord(op) == KwRegexp then [KwRegexp, KwRLike] else [IlriWord(op)]
  }

  function IlriTokens(y: Style, e: Tree): seq<Token>
    requires e.Op?
  {
    var ks := IlriWords(e.op);
    (if Negated(e.op) then [KwTok(KwNot)] else []) + [KwTok(ks[y.op(e) % |ks|])]
  }

  predicate IsIlri(op: OpName, args: seq<Tree>) {
    match IlriWord(op)
    case KwIn => if op in {NIn, NNotIn} then |args| >= 2 else |args| == 2
    case KwLike | KwRegexp => |args| == 2
    case KwBetween => |args| == 3
    case KwIs => |args| == 2 && args[1] in {Val(VNull), Val(VBool(true))}
    case _ => false
  }

  predicate IsBinary(e: Tree) { e.Op? && |e.args| == 2 && OpLevel(e.op) != NO_LEVEL }

  predicate IsTilde(e: Tree) { e.Op? && |e.args| == 1 && e.op == NTilde }

  /** The lowest level at which a tree can be written without parentheses. */
  function NaturalLevel(e: Tree): (l: nat)
    ensures l <= OR
  {
    if IsBinary(e) then OpLevel(e.op)
    else if e.Op? && IsIlri(e.op, e.args) then ILRI
    else ATOMIC
  }

  /** The table name that reading the printed tree leaves in the parser. Lists are read
      by parsers of their own and leave nothing. */
  function Left(y: Style, e: Tree, m: TableRef): TableRef
    decreases e, 0
  {
    match e
    case Col(ref, _) => ref.table
    case Field(path) => if IsBare(y, path) then BareTable(path.els) else NO_TABLE
    case Op(op, args) => if op in {NIn, NNotIn} && args != [] then Left(y, args[0], m) else LeftAll(y, args, m)
    case Call(fn, args) => if args == [] then fn else Left(y, args[0], fn)
    case _ => m
  }

  function LeftAll(y: Style, es: seq<Tree>, m: TableRef): TableRef
    decreases es, 1
  {
    if es == [] then m else LeftAll(y, es[1..], Left(y, es[0], m))
  }

  /** A path can be written without `$` if it starts with a member. The parser takes a dot after the
      first word, so what follows that dot must be a word too. */
  predicate IsBare(y: Style, path: Path) {
    && y.bare(path) && path.Steps? && path.els != []
    && path.els[0].Member? && path.els[0].name != ""
    && (|path.els| > 1 ==> path.els[1] != AnyMember && (path.els[1].Member? ==> path.els[1].name != ""))
  }

  /** The words that the parser takes for a name at first. */
  function BareTable(els: seq<PathEl>): TableRef
    requires els != [] && els[0].Member?
  {
    if |els| > 1 && els[1].Member? then TableRef(els[1].name, els[0].name) else TableRef(els[0].name, "")
  }

  function PrintField(y: Style, path: Path): seq<Token> {
    if !IsBare(y, path) then DocPath.PrintPath(y.member, path)
    else
      var t := BareTable(path.els);
      if t.schema == "" then [Token(Word, KwNone, t.name)] + DocPath.PrintSteps(y.member, path.els[1..])
      else
        [Token(Word, KwNone, t.schema), Sym(Dot), Token(Word, KwNone, t.name)]
        + DocPath.PrintSteps(y.member, path.els[2..])
  }

  // CAST

  predicate GoodForm(f: CastForm) {
    match f
    case Sized(kw, dims) => if kw == KwDecimal then |dims| <= 2 else kw in {KwBinary, KwChar} && |dims| <= 1
    case Integral(kw, suffix) => kw in {KwSigned, KwUnsigned} && suffix in {KwNone, KwInt, KwInteger}
    case Simple(kw) => kw in {KwDate, KwDateTime, KwTime, KwInteger, KwJson}
  }

  function TypeName(kw: Keyword): string {
    match kw
    case KwBinary => "BINARY"
    case KwChar => "CHAR"
    case KwDecimal => "DECIMAL"
    case KwSigned => "SIGNED INTEGER"
    case KwUnsigned => "UNSIGNED INTEGER"
    case KwDate => "DATE"
    case KwDateTime => "DATETIME"
    case KwTime => "TIME"
    case KwInteger => "INTEGER"
    case KwJson => "JSON"
    case _ => ""
  }

  /** The text that is reported for a type. */
  function FormText(f: CastForm): string
    requires GoodForm(f)
  {
    match f
    case Sized(kw, dims) => TypeName(kw) + DimsText(dims)
    case Integral(kw, _) => TypeName(kw)
    case Simple(kw) => TypeName(kw)
  }

  function DimsText(dims: seq<string>): string {
    if dims == [] then ""
    else if |dims| == 1 then "(" + dims[0] + ")"
    else "(" + dims[0] + "," + dims[1] + ")"
  }

  function FormTokens(f: CastForm): seq<Token> {
    match f
    case Sized(kw, dims) => [KwTok(kw)] + PrintDims(dims)
    case Integral(kw, suffix) => [KwTok(kw)] + (if suffix == KwNone then [] else [KwTok(suffix)])
    case Simple(kw) => [KwTok(kw)]
  }

  function PrintDims(dims: seq<string>): seq<Token> {
    if dims == [] then []
    else if |dims| == 1 then [Sym(LParen), Token(Integer, KwNone, dims[0]), Sym(RParen)]
    else [Sym(LParen), Token(Integer, KwNone, dims[0]), Sym(Comma), Token(Integer, KwNone, dims[1]), Sym(RParen)]
  }

  predicate IsCast(e: Tree) { e.Op? && e.op == NCast && |e.args| == 2 && e.args[1].Val? && e.args[1].v.VOctets? }

  /** The type of a CAST is written in a form that has its text. */
  predicate PrintableCast(y: Style, e: Tree) {
    IsCast(e) && var f := y.cast(e.args[1].v.o); GoodForm(f) && FormText(f) == e.args[1].v.o
  }

  /** The trees that have a textual form. Columns are written in TABLE mode and document fields in
      DOCUMENT mode. `blobs` tells if strings are reported as octets, which the parser does in the
      list of an IN operator and, inherited from there, in the first argument of a call. A call is
      not reported under the name POSITION, and its only argument must not leave that name in the
      parser. The right side of an IN without a list must not start with a parenthesis. */
  predicate Printable(y: Style, e: Tree, mode: Mode, blobs: bool)
    decreases e, 0
  {
    match e
    case Val(v) => PrintableValue(v, blobs)
    case Param(_) => true
    case Col(ref, path) =>
      && mode == TABLE && ref.col != "" && (ref.table.name == "" ==> ref.table.schema == "")
      && (path.Some? ==> DocPath.Valid(path.value))
    case Field(path) => mode == DOCUMENT && DocPath.Valid(path)
    case Op(op, args) =>
      if op == NCast then PrintableCast(y, e) && Printable(y, args[0], mode, blobs)
      else if op in {NIn, NNotIn} then
        IsIlri(op, args) && Printable(y, args[0], mode, blobs) && AllPrintable(y, args[1..], mode, true)
      else
        && (IsBinary(e) || IsIlri(op, args) || (op == NStar && args == []) || (|args| == 1 && IsUnary(op)))
        && AllPrintable(y, args, mode, blobs)
        && (op in {NContIn, NNotContIn} ==> !HeadIs(Print(y, args[1], COMP), LParen))
    case Call(fn, args) =>
      && fn.name != "" && !IsFunc(fn, "position")
      && (|args| == 1 ==> !IsFunc(Left(y, args[0], fn), "position"))
      && (args != [] ==> Printable(y, args[0], mode, blobs) && AllPrintable(y, args[1..], mode, false))
    case Arr(els) => AllPrintable(y, els, mode, false)
    case Doc(kvs) => AllKvPrintable(y, kvs, mode)
  }

  predicate PrintableValue(v: Value, blobs: bool) {
    match v
    case VNull => true
    case VBool(_) => true
    case VStr(_) => !blobs
    case VOctets(_) => blobs
    case VUInt(n) => n <= UINT64_MAX
    case VInt(i) => i <= 0 && 0 - i <= INT64_MAX
    case VDouble(_, _) => true
  }

  predicate AllPrintable(y: Style, es: seq<Tree>, mode: Mode, blobs: bool)
    decreases es, 1
  {
    es != [] ==> Printable(y, es[0], mode, blobs) && AllPrintable(y, es[1..], mode, blobs)
  }

  predicate AllKvPrintable(y: Style, kvs: seq<KeyVal>, mode: Mode)
    decreases kvs, 1
  {
    kvs != [] ==> Printable(y, kvs[0].val, mode, false) && AllKvPrintable(y, kvs[1..], mode)
  }

  function Parens(s: seq<Token>): seq<Token> { [Sym(LParen)] + s + [Sym(RParen)] }

  /** Parentheses are written when the level of the tree needs them, or by choice. */
  function Print(y: Style, e: Tree, l: nat): seq<Token>
    decreases e, 1
  {
    if NaturalLevel(e) > l || y.wrap(e) then Parens(Body(y, e)) else Body(y, e)
  }

  /** A prefix `~` ends an expression at level BIT, so it is parenthesised on the left. */
  function PrintLeft(y: Style, e: Tree, l: nat): seq<Token>
    decreases e, 2
  {
    if IsTilde(e) && l < BIT then Parens(Body(y, e)) else Print(y, e, l)
  }

  /** A sign directly before a number would become part of the literal. */
  function PrintOperand(y: Style, op: OpName, e: Tree): seq<Token>
    decreases e, 2
  {
    if op in {NPlus, NMinus} && e.Val? && (e.v.VUInt? || (e.v.VDouble? && !e.v.neg)) then Parens(Body(y, e))
    else Print(y, e, ATOMIC)
  }

  /** An array element or document value that starts with a bracket must be one. */
  function PrintElement(y: Style, e: Tree): seq<Token>
    decreases e, 1
  {
    if y.wrap(e) || (!e.Arr? && !e.Doc? && (HeadIs(Body(y, e), LCurly) || HeadIs(Body(y, e), LSq))) then
      Parens(Body(y, e))
    else Body(y, e)
  }

  function Body(y: Style, e: Tree): seq<Token>
    decreases e, 0
  {
    match e
    case Val(v) => PrintValue(y, v)
    case Param(name) => [Sym(Colon), Token(Word, KwNone, name)]
    case Col(ref, path) =>
      PrintColumn(y, ref) + ArrowTokens(y, path)
    case Field(path) => PrintField(y, path)
    case Op(op, args) =>
      if IsCast(e) then
        [KwTok(KwCast), Sym(LParen)] + Print(y, args[0], OR)
        + ([KwTok(KwAs)] + FormTokens(y.cast(args[1].v.o)) + [Sym(RParen)])
      else if IsBinary(e) then PrintLeft(y, args[0], OpLevel(op) - 1) + [OpTok(y, e)] + Print(y, args[1], OpLevel(op))
      else if IsIlri(op, args) then Print(y, args[0], COMP) + IlriTokens(y, e) + IlriOperands(y, op, args)
      else if |args| == 1 then [UnaryTok(op)] + PrintOperand(y, op, args[0])
      else [Sym(Star)]
    case Call(fn, args) => PrintTable(y, fn) + [Sym(LParen)] + PrintArgs(y, args) + [Sym(RParen)]
    case Arr(els) => [Sym(LSq)] + PrintElements(y, els) + [Sym(RSq)]
    case Doc(kvs) => [Sym(LCurly)] + PrintKvs(y, kvs) + [Sym(RCurly)]
  }

  function ArrowTokens(y: Style, path: Option<Path>): seq<Token> {
    match path
    case None => []
    case Some(p) => [Sym(if y.long(p) then Arrow2 else Arrow)] + DocPath.PrintPath(y.member, p)
  }

  function IlriOperands(y: Style, op: OpName, args: seq<Tree>): seq<Token>
    requires IsIlri(op, args)
    decreases args, 1
  {
    var k := IlriWord(op);
    if op in {NIn, NNotIn} then Parens(PrintArgs(y, args[1..]))
    else if k == KwBetween then Print(y, args[1], COMP) + [KwTok(KwAnd)] + Print(y, args[2], COMP)
    else if k == KwIs then
      (if op == NIsNot then [KwTok(KwNot)] else []) + [KwTok(if args[1] == Val(VNull) then KwNull else KwTrue)]
    else Print(y, args[1], COMP)
  }

  function PrintArgs(y: Style, es: seq<Tree>): seq<Token>
    decreases es, 2
  {
    if es == [] then []
    else if |es| == 1 then Print(y, es[0], OR)
    else Print(y, es[0], OR) + [Sym(Comma)] + PrintArgs(y, es[1..])
  }

  function PrintElements(y: Style, es: seq<Tree>): seq<Token>
    decreases es, 2
  {
    if es == [] then []
    else if |es| == 1 then PrintElement(y, es[0])
    else PrintElement(y, es[0]) + [Sym(Comma)] + PrintElements(y, es[1..])
  }

  function PrintKv(y: Style, kv: KeyVal): seq<Token>
    decreases kv, 2
  {
    [KeyTok(y, kv.key), Sym(Colon)] + PrintElement(y, kv.val)
  }

  function PrintKvs(y: Style, kvs: seq<KeyVal>): seq<Token>
    decreases kvs, 3
  {
    if kvs == [] then []
    else if |kvs| == 1 then PrintKv(y, kvs[0])
    else PrintKv(y, kvs[0]) + [Sym(Comma)] + PrintKvs(y, kvs[1..])
  }

  function PrintValue(y: Style, v: Value): seq<Token> {
    match v
    case VNull => [KwTok(KwNull)]
    case VBool(b) => [KwTok(if b then KwTrue else KwFalse)]
    case VStr(s) => [TextTok(y, s)]
    case VOctets(s) => [TextTok(y, s)]
    case VUInt(n) =>
      (match y.number(n)
       case Decimal => [Token(Integer, KwNone, Digits(n))]
       case Signed => [Sym(Plus), Token(Integer, KwNone, Digits(n))]
       case Hexadecimal => [Token(Hex, KwNone, HexDigits(n))])
    case VInt(i) => [Sym(Minus), Token(Integer, KwNone, Digits(if i < 0 then 0 - i else i))]
    case VDouble(neg, d) => (if neg then [Sym(Minus)] else []) + [Token(Number, KwNone, d)]
  }

  function TextTok(y: Style, s: string): Token { Token(if y.text(s) then QQString else QString, KwNone, s) }

  function KeyTok(y: Style, s: string): Token { if y.name(s) then TextTok(y, s) else Token(Word, KwNone, s) }

  function PrintTable(y: Style, t: TableRef): seq<Token> {
    if t.schema == "" then [NameTok(y, t.name)] else [NameTok(y, t.schema), Sym(Dot), NameTok(y, t.name)]
  }

  function PrintColumn(y: Style, r: ColumnRef): seq<Token> {
    if r.table.name == "" then [NameTok(y, r.col)] else PrintTable(y, r.table) + [Sym(Dot), NameTok(y, r.col)]
  }
}
