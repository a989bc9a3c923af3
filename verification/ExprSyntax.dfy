/** Tokens, operator tables and expression trees of the X DevAPI expression language. */
module ExprSyntax {

  import opened Wrappers

  /** Result of a parsing step: the value and the tokens left, or the number of
      tokens that were left at the point where the parse error was thrown. */
  datatype Parsed<+T> = Err(at: nat) | Ok(val: T, rest: seq<Token>) {
    predicate IsFailure() { Err? }

    function PropagateFailure<U>(): Parsed<U>
      requires Err?
    {
      Err(at)
    }

    function Extract(): (T, seq<Token>)
      requires Ok?
    {
      (val, rest)
    }
  }

  datatype TokType =
    | Word | QWord | QString | QQString | Number | Integer | Hex
    | LParen | RParen | LCurly | RCurly | LSq | RSq | Dot | Comma | Eq | Gt | Lt
    | Amp | Bar | Hat | Plus | Minus | Star | Slash | Percent | Bang | Tilde
    | Question | Colon | Dollar
    | Ne | Df | Ge | Le | LShift | RShift | DoubleStar | Arrow2 | Arrow | Amp2 | Bar2 | Eq2

  /** Reserved words the grammar looks at; all other words are KwNone here. */
  datatype Keyword =
    | KwNone | KwNot | KwAnd | KwOr | KwIs | KwBetween | KwTrue | KwFalse | KwNull
    | KwLike | KwRLike | KwRegexp | KwEscape | KwMod | KwAs | KwUsing | KwCast | KwIn
    | KwSounds | KwLeading | KwTrailing | KwBoth | KwFrom
    | KwBinary | KwChar | KwDecimal | KwSigned | KwUnsigned | KwInteger | KwInt
    | KwDate | KwDateTime | KwTime | KwJson

  datatype Token = Token(ty: TokType, word: Keyword, text: string) {
    /** Only plain words can be reserved; a back-quoted word never is. */
    function Kw(): Keyword { if ty.Word? then word else KwNone }
  }

  /** A token without a text of its own. */
  function Sym(ty: TokType): Token { Token(ty, KwNone, "") }

  /** Operator names as they are reported to a processor. NRLike and NSoundsLike are
      recognised but never reported: the first is reported as NRegexp. */
  datatype OpName =
    | NPlus | NMinus | NStar | NBang | NTilde | NNot
    | NSlash | NPercent | NOr | NAnd | NBitOr | NBitAnd | NBitXor | NLShift | NRShift
    | NEq | NNe | NGt | NGe | NLt | NLe
    | NIs | NIsNot | NIn | NNotIn | NContIn | NNotContIn | NLike | NNotLike
    | NRegexp | NNotRegexp | NBetween | NNotBetween | NCast | NRLike | NSoundsLike

  // Grammar levels, lowest binding last. FULL is the same as OR.
  const ATOMIC := 0
  const MUL := 1
  const ADD := 2
  const SHIFT := 3
  const BIT := 4
  const COMP := 5
  const ILRI := 6
  const AND := 7
  const OR := 8
  const NO_LEVEL := 9

  /** A binary operator: its reported name and the level whose operator set contains it. */
  datatype BinOp = BinOp(name: OpName, level: nat)

  const NOT_BINARY := BinOp(NNot, NO_LEVEL)

  function Binary(t: Token): BinOp {
    match t.ty
    case Star => BinOp(NStar, MUL)
    case Slash => BinOp(NSlash, MUL)
    case Percent => BinOp(NPercent, MUL)
    case Plus => BinOp(NPlus, ADD)
    case Minus => BinOp(NMinus, ADD)
    case LShift => BinOp(NLShift, SHIFT)
    case RShift => BinOp(NRShift, SHIFT)
    case Amp => BinOp(NBitAnd, BIT)
    case Bar => BinOp(NBitOr, BIT)
    case Hat => BinOp(NBitXor, BIT)
    case Ge => BinOp(NGe, COMP)
    case Gt => BinOp(NGt, COMP)
    case Le => BinOp(NLe, COMP)
    case Lt => BinOp(NLt, COMP)
    case Eq => BinOp(NEq, COMP)
    case Eq2 => BinOp(NEq, COMP)
    case Ne => BinOp(NNe, COMP)
    case Df => BinOp(NNe, COMP)
    case Amp2 => BinOp(NAnd, AND)
    case Bar2 => BinOp(NOr, OR)
    case Word => BinaryWord(t.word)
    case _ => NOT_BINARY
  }

  function BinaryWord(k: Keyword): BinOp {
    match k
    case KwMod => BinOp(NPercent, MUL)
    case KwAnd => BinOp(NAnd, AND)
    case KwOr => BinOp(NOr, OR)
    case KwIs => BinOp(NIs, ILRI)
    case KwIn => BinOp(NIn, ILRI)
    case KwLike => BinOp(NLike, ILRI)
    case KwRLike => BinOp(NRLike, ILRI)
    case KwRegexp => BinOp(NRegexp, ILRI)
    case KwBetween => BinOp(NBetween, ILRI)
    case KwSounds => BinOp(NSoundsLike, ILRI)
    case _ => NOT_BINARY
  }

  /** Prefix operators that take one atomic argument. */
  function Unary(t: Token): Option<OpName> {
    match t.ty
    case Plus => Some(NPlus)
    case Minus => Some(NMinus)
    case Bang => Some(NBang)
    case Tilde => Some(NTilde)
    case Word => if t.word == KwNot then Some(NNot) else None
    case _ => None
  }

  // Documents paths, column references, values

  datatype PathEl = Member(name: string) | AnyMember | Index(i: nat) | AnyIndex | AnyPath
  datatype Path = WholeDocument | Steps(els: seq<PathEl>)

  /** An empty string stands for a part that is not present. */
  datatype TableRef = TableRef(name: string, schema: string)
  datatype ColumnRef = ColumnRef(col: string, table: TableRef)

  datatype Value =
    | VNull | VBool(b: bool) | VStr(s: string) | VOctets(o: string)
    | VUInt(n: nat) | VInt(i: int) | VDouble(neg: bool, digits: string)

  /** What a processor learns from one expression. */
  datatype Tree =
    | Val(v: Value)
    | Param(name: string)
    | Col(ref: ColumnRef, path: Option<Path>)
    | Field(field: Path)
    | Op(op: OpName, args: seq<Tree>)
    | Call(fn: TableRef, args: seq<Tree>)
    | Arr(els: seq<Tree>)
    | Doc(kvs: seq<KeyVal>)

  datatype KeyVal = KeyVal(key: string, val: Tree)

  predicate HeadIs(s: seq<Token>, ty: TokType) { s != [] && s[0].ty == ty }

  predicate HeadKw(s: seq<Token>, k: Keyword) { s != [] && s[0].Kw() == k }

  function BinaryLevel(s: seq<Token>): nat { if s == [] then NO_LEVEL else Binary(s[0]).level }

  function Expect(s: seq<Token>, ty: TokType): (r: Parsed<Token>)
    ensures r.Ok? ==> |r.rest| < |s|
  {
    if HeadIs(s, ty) then Ok(s[0], s[1..]) else Err(|s|)
  }

  function ExpectKw(s: seq<Token>, k: Keyword): (r: Parsed<Token>)
    ensures r.Ok? ==> |r.rest| < |s|
  {
    if HeadKw(s, k) then Ok(s[0], s[1..]) else Err(|s|)
  }

  // Numbers

  function DigitVal(c: char): nat {
    if '0' <= c <= '9' then c as nat - '0' as nat
    else if 'a' <= c <= 'f' then c as nat - 'a' as nat + 10
    else if 'A' <= c <= 'F' then c as nat - 'A' as nat + 10
    else 99
  }

  predicate AllDigits(s: string, hex: bool) {
    forall i :: 0 <= i < |s| ==> DigitVal(s[i]) < if hex then 16 else 10
  }

  function NatOf(s: string, hex: bool): nat {
    if s == [] then 0
    else if hex then NatOf(s[..|s| - 1], hex) * 16 + DigitVal(s[|s| - 1])
    else NatOf(s[..|s| - 1], hex) * 10 + DigitVal(s[|s| - 1])
  }

  /** Conversion of a numeric literal; None stands for the conversion error. */
  function ToNat(s: string, hex: bool, limit: nat): Option<nat> {
    if s != [] && AllDigits(s, hex) && NatOf(s, hex) <= limit then Some(NatOf(s, hex)) else None
  }

  function Digits(n: nat): string {
    (if n < 10 then [] else Digits(n / 10)) + [('0' as int + n % 10) as char]
  }

  lemma {:induction false} DigitsDenote(n: nat)
    ensures Digits(n) != [] && AllDigits(Digits(n), false) && NatOf(Digits(n), false) == n
  {
    var s := Digits(n);
    assert DigitVal(s[|s| - 1]) == n % 10;
    if n < 10 {
      assert s[..|s| - 1] == [];
    } else {
      DigitsDenote(n / 10);
      assert s[..|s| - 1] == Digits(n / 10);
    }
  }

  lemma DigitsConvert(n: nat, limit: nat)
    requires n <= limit
    ensures ToNat(Digits(n), false, limit) == Some(n)
  {
    DigitsDenote(n);
  }

  function HexDigits(n: nat): string {
    (if n < 16 then [] else HexDigits(n / 16)) + ["0123456789abcdef"[n % 16]]
  }

  lemma HexDigit(k: nat)
    requires k < 16
    ensures DigitVal("0123456789abcdef"[k]) == k
  {
  }

  lemma {:induction false} HexDigitsConvert(n: nat, limit: nat)
    requires n <= limit
    ensures ToNat(HexDigits(n), true, limit) == Some(n)
  {
    hide DigitVal;
    var s := HexDigits(n);
    HexDigit(n % 16);
    if n < 16 {
      assert s[..|s| - 1] == [] && NatOf([], true) == 0;
    } else {
      HexDigitsConvert(n / 16, limit);
      assert s[..|s| - 1] == HexDigits(n / 16);
    }
  }

  const UINT64_MAX: nat := 0xFFFF_FFFF_FFFF_FFFF
  const INT64_MAX: nat := 0x7FFF_FFFF_FFFF_FFFF
  const UINT32_MAX: nat := 0xFFFF_FFFF

  // Case-insensitive names

  function Lower(s: string): string {
    if s == [] then [] else [if 'A' <= s[0] <= 'Z' then ((s[0] as int) + 32) as char else s[0]] + Lower(s[1..])
  }

  predicate IsFunc(f: TableRef, name: string) { f.schema == "" && Lower(f.name) == name }
}
