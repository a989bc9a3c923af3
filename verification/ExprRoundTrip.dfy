/** Parsing inverts printing, for every printable tree and at every level. */
module ExprRoundTrip {
  import opened Wrappers
  import opened ExprSyntax
  import opened ExprGrammar
  import opened ExprPrinter
  import DocPath

  // How the tokens after an expression and its own first token may look

  /** No rule up to level `l` wants to continue with these tokens. */
  predicate Stops(l: nat, rest: seq<Token>) {
    rest == [] || (StopToken(rest[0]) && Binary(rest[0]).level > l && (l >= ILRI ==> !IlriMore(rest[0])))
  }

  predicate StopToken(t: Token) {
    !(t.ty.Dot? || t.ty.LParen? || t.ty.Arrow? || t.ty.Arrow2? || t.ty.DoubleStar? || t.ty.LSq?)
  }

  predicate IlriMore(t: Token) { t.Kw() == KwNot || t.Kw() == KwEscape }

  /** Tokens a printed expression can start with. */
  predicate Starts(t: Token) {
    || t.ty.QWord? || (t.ty.Word? && t.word in {KwNone, KwCast})
    || t.ty.QString? || t.ty.QQString? || t.ty.Integer? || t.ty.Number? || t.ty.Hex?
    || t.ty.Minus? || t.ty.Plus? || t.ty.Bang? || t.ty.Tilde? || t.ty.Star?
    || t.ty.LParen? || t.ty.LSq? || t.ty.LCurly? || t.ty.Colon? || t.ty.Dollar?
    || t.Kw() == KwNot || t.Kw() == KwNull || t.Kw() == KwTrue || t.Kw() == KwFalse
  }

  /** Every printed form is the body of the tree, parenthesised or not. */
  lemma Forms(y: Style, e: Tree, l: nat, op: OpName)
    ensures Print(y, e, l) == if NaturalLevel(e) > l || y.wrap(e) then Parens(Body(y, e)) else Body(y, e)
    ensures PrintLeft(y, e, l) == if IsTilde(e) && l < BIT then Parens(Body(y, e)) else Print(y, e, l)
    ensures PrintOperand(y, op, e) == Parens(Body(y, e)) || PrintOperand(y, op, e) == Print(y, e, ATOMIC)
  {
  }

  lemma {:induction false} FirstToken(y: Style, e: Tree, mode: Mode, blobs: bool)
    requires Printable(y, e, mode, blobs)
    ensures Body(y, e) != [] && Starts(Body(y, e)[0])
    ensures NaturalLevel(e) <= BIT && !IsTilde(e) ==> !Body(y, e)[0].ty.Tilde?
    decreases e, 1
  {
    hide Body, Printable;
    if e.Op? && NaturalLevel(e) > ATOMIC {
      FirstTokenLeft(y, e, mode, blobs);
    } else {
      FirstTokenAtomic(y, e, mode, blobs);
    }
  }

  lemma {:induction false} FirstTokenLeft(y: Style, e: Tree, mode: Mode, blobs: bool)
    requires Printable(y, e, mode, blobs) && e.Op? && NaturalLevel(e) > ATOMIC
    ensures Body(y, e) != [] && Starts(Body(y, e)[0])
    ensures NaturalLevel(e) <= BIT ==> !Body(y, e)[0].ty.Tilde?
    decreases e, 0
  {
    hide PrintLeft, Print, IlriOperands, IlriTokens, OpTok, Body;
    var a := e.args[0];
    FirstToken(y, a, mode, blobs);
    if IsBinary(e) {
      BinaryBody(y, e);
      Forms(y, a, OpLevel(e.op) - 1, NNot);
      assert Body(y, e)[0] == PrintLeft(y, a, OpLevel(e.op) - 1)[0];
    } else {
      IlriBody(y, e);
      Forms(y, a, COMP, NNot);
      assert Body(y, e)[0] == Print(y, a, COMP)[0];
    }
  }

  lemma FirstTokenAtomic(y: Style, e: Tree, mode: Mode, blobs: bool)
    requires Printable(y, e, mode, blobs) && NaturalLevel(e) == ATOMIC
    ensures Body(y, e) != [] && Starts(Body(y, e)[0])
    ensures !IsTilde(e) ==> !Body(y, e)[0].ty.Tilde?
  {
    hide PrintOperand, PrintArgs, PrintElements, PrintKvs, Digits, HexDigits, PrintField, DocPath.PrintPath,
      DocPath.Valid, IsFunc, Left, Print, AllPrintable, AllKvPrintable, PrintTable, PrintColumn, IlriOperands,
      FormTokens, PrintableCast;
    if e.Field? {
      PathStarts(y, e.field);
    } else if e.Col? {
      ColumnStarts(y, e.ref);
    } else if e.Call? {
      TableStarts(y, e.fn);
    }
  }

  predicate IsName(t: Token) { t.ty.QWord? || (t.ty.Word? && t.word == KwNone) }

  lemma TableStarts(y: Style, t: TableRef)
    ensures PrintTable(y, t) != [] && IsName(PrintTable(y, t)[0])
  {
  }

  lemma ColumnStarts(y: Style, ref: ColumnRef)
    ensures PrintColumn(y, ref) != [] && IsName(PrintColumn(y, ref)[0])
  {
  }

  lemma PathStarts(y: Style, path: Path)
    ensures PrintField(y, path) != [] && (PrintField(y, path)[0] == Sym(Dollar) || IsName(PrintField(y, path)[0]))
  {
    hide DocPath.PrintSteps;
  }

  lemma {:induction false} ArgPrintable(y: Style, args: seq<Tree>, i: nat, mode: Mode, blobs: bool)
    requires AllPrintable(y, args, mode, blobs) && i < |args|
    ensures Printable(y, args[i], mode, blobs)
    decreases i
  {
    if i > 0 {
      ArgPrintable(y, args[1..], i - 1, mode, blobs);
    }
  }

  // Which rule an atomic expression is read by

  lemma AtomicIdent(c: Config, m: TableRef, s: seq<Token>)
    requires HeadIs(s, QWord) || (HeadIs(s, Word) && s[0].word == KwNone)
    ensures Level(ATOMIC, c, m, s) == Ident(c, s)
  {
    hide Literal, Document, Array, Cast, Ident;
  }

  lemma AtomicUnary(c: Config, m: TableRef, s: seq<Token>, a: Expr, rest: seq<Token>)
    requires s != [] && Unary(s[0]).Some? && !SignedLiteral(s) && Level(ATOMIC, c, m, s[1..]) == Ok(a, rest)
    ensures Level(ATOMIC, c, m, s) == Ok(Expr(Op(Unary(s[0]).value, [a.tree]), a.m), rest)
  {
    hide Literal, Document, Array, Cast, Ident;
  }

  lemma AtomicLiteral(c: Config, m: TableRef, s: seq<Token>, v: Value, rest: seq<Token>)
    requires
      || (SignedLiteral(s) && Literal(c, s[0].ty.Minus?, s[1..]) == Ok(v, rest))
      || (s != [] && IsLiteral(s[0]) && Literal(c, false, s) == Ok(v, rest))
    ensures Level(ATOMIC, c, m, s) == Ok(Expr(Val(v), m), rest)
  {
    hide Literal, Document, Array, Cast, Ident;
  }

  lemma AtomicBracket(c: Config, m: TableRef, s: seq<Token>, t: Tree, rest: seq<Token>)
    requires
      || (HeadIs(s, LSq) && Array(c.(blobs := false), s) == Ok(t, rest))
      || (HeadIs(s, LCurly) && Document(c.(blobs := false), s) == Ok(t, rest))
    ensures Level(ATOMIC, c, m, s) == Ok(Expr(t, m), rest)
  {
    hide Literal, Document, Array, Cast, Ident;
  }

  lemma AtomicParens(c: Config, m: TableRef, s: seq<Token>, e: Expr, rest: seq<Token>)
    requires HeadIs(s, LParen) && Level(OR, c, m, s[1..]) == Ok(e, [Sym(RParen)] + rest)
    ensures Level(ATOMIC, c, m, s) == Ok(e, rest)
  {
    hide Literal, Document, Array, Cast, Ident;
    assert ([Sym(RParen)] + rest)[1..] == rest;
  }

  // Generic parsing steps

  lemma BinaryStep(l: nat, c: Config, m: TableRef, s: seq<Token>, a: Expr, r: seq<Token>, b: Expr, rest: seq<Token>)
    requires l in {MUL, ADD, SHIFT, BIT, COMP, AND, OR}
    requires l == BIT ==> !HeadIs(s, Tilde)
    requires Level(l - 1, c, m, s) == Ok(a, r) && BinaryLevel(r) == l
    requires Level(l, c, a.m, r[1..]) == Ok(b, rest)
    ensures Level(l, c, m, s) == Ok(Expr(Op(Binary(r[0]).name, [a.tree, b.tree]), b.m), rest)
  {
    hide Atomic, Ilri, Binary;
  }

  lemma TildeStep(c: Config, m: TableRef, s: seq<Token>, a: Expr, rest: seq<Token>)
    requires HeadIs(s, Tilde) && Level(ATOMIC, c, m, s[1..]) == Ok(a, rest)
    ensures Level(BIT, c, m, s) == Ok(Expr(Op(NTilde, [a.tree]), a.m), rest)
  {
    hide Atomic, Ilri;
  }

  /** An expression of a tight level is an expression of every looser one. */
  lemma {:induction false} Lift(k: nat, l: nat, c: Config, m: TableRef, s: seq<Token>)
    requires k <= l <= OR && Level(k, c, m, s).Ok? && Stops(l, Level(k, c, m, s).rest)
    requires k < BIT <= l ==> !HeadIs(s, Tilde)
    ensures Level(l, c, m, s) == Level(k, c, m, s)
    decreases l
  {
    hide Level;
    if k < l {
      Lift(k, l - 1, c, m, s);
      if l == ILRI {
        IlriStops(c, m, s);
      } else {
        LevelStops(l, c, m, s);
      }
    }
  }

  lemma LevelStops(l: nat, c: Config, m: TableRef, s: seq<Token>)
    requires ATOMIC < l <= OR && l != ILRI && (l == BIT ==> !HeadIs(s, Tilde))
    requires Level(l - 1, c, m, s).Ok? && Stops(l, Level(l - 1, c, m, s).rest)
    ensures Level(l, c, m, s) == Level(l - 1, c, m, s)
  {
    hide Atomic, Ilri, Binary;
  }

  lemma IlriStops(c: Config, m: TableRef, s: seq<Token>)
    requires Level(COMP, c, m, s).Ok? && Stops(ILRI, Level(COMP, c, m, s).rest)
    ensures Level(ILRI, c, m, s) == Level(COMP, c, m, s)
  {
    hide Level, IlriTail, Binary;
    LevelIlri(c, m, s);
  }

  // The round trip of one tree at its natural level, and at any level

  function Whole(y: Style, e: Tree, m: TableRef, rest: seq<Token>): Parsed<Expr> { Ok(Expr(e, Left(y, e, m)), rest) }

  lemma {:induction false} RoundTripAt(y: Style, e: Tree, l: nat, c: Config, m: TableRef, rest: seq<Token>)
    requires Printable(y, e, c.mode, c.blobs) && l <= OR && Stops(l, rest)
    ensures Level(l, c, m, Print(y, e, l) + rest) == Whole(y, e, m, rest)
    decreases e, 1
  {
    hide Level, Printable, Body, NaturalLevel, Left;
    Forms(y, e, l, NNot);
    FirstToken(y, e, c.mode, c.blobs);
    if NaturalLevel(e) > l || y.wrap(e) {
      RoundTripParens(y, e, l, c, m, rest);
    } else if IsTilde(e) && l >= BIT {
      RoundTripTilde(y, e, l, c, m, rest);
    } else {
      RoundTripBody(y, e, c, m, rest);
      Lift(NaturalLevel(e), l, c, m, Body(y, e) + rest);
    }
  }

  lemma {:induction false} RoundTripParens(y: Style, e: Tree, l: nat, c: Config, m: TableRef, rest: seq<Token>)
    requires Printable(y, e, c.mode, c.blobs) && l <= OR && Stops(l, rest)
    ensures Level(l, c, m, Parens(Body(y, e)) + rest) == Whole(y, e, m, rest)
    decreases e, 0, 3
  {
    hide Level, Printable, Body, NaturalLevel, Left;
    var s := Parens(Body(y, e)) + rest;
    var r := [Sym(RParen)] + rest;
    assert s[1..] == Body(y, e) + r;
    FirstToken(y, e, c.mode, c.blobs);
    if IsTilde(e) {
      RoundTripTilde(y, e, OR, c, m, r);
    } else {
      RoundTripBody(y, e, c, m, r);
      Lift(NaturalLevel(e), OR, c, m, Body(y, e) + r);
    }
    AtomicParens(c, m, s, Expr(e, Left(y, e, m)), rest);
    Lift(ATOMIC, l, c, m, s);
  }

  lemma {:induction false} RoundTripTilde(y: Style, e: Tree, l: nat, c: Config, m: TableRef, rest: seq<Token>)
    requires Printable(y, e, c.mode, c.blobs) && IsTilde(e) && BIT <= l <= OR && Stops(l, rest)
    ensures Level(l, c, m, Body(y, e) + rest) == Whole(y, e, m, rest)
    decreases e, 0, 0
  {
    hide Level, Print, Left, Stops, Body;
    var a, s := e.args[0], Body(y, e) + rest;
    StopsBelow(l, rest);
    UnaryBody(y, e);
    assert PrintOperand(y, NTilde, a) == Print(y, a, ATOMIC);
    assert s[1..] == Print(y, a, ATOMIC) + rest;
    RoundTripAt(y, a, ATOMIC, c, m, rest);
    TildeStep(c, m, s, Expr(a, Left(y, a, m)), rest);
    LeftArgs(y, NTilde, [a], m);
    assert e == Op(NTilde, [a]);
    Lift(BIT, l, c, m, s);
  }

  lemma StopsBelow(l: nat, rest: seq<Token>)
    requires Stops(l, rest)
    ensures forall k: nat :: k <= l ==> Stops(k, rest)
  {
    hide Binary;
  }

  /** Operands are read from left to right by the same parser. */
  lemma LeftArgs(y: Style, op: OpName, args: seq<Tree>, m: TableRef)
    requires op !in {NIn, NNotIn}
    ensures |args| == 0 ==> Left(y, Op(op, args), m) == m
    ensures |args| == 1 ==> Left(y, Op(op, args), m) == Left(y, args[0], m)
    ensures |args| == 2 ==> Left(y, Op(op, args), m) == Left(y, args[1], Left(y, args[0], m))
    ensures |args| == 3 ==> Left(y, Op(op, args), m) == Left(y, args[2], Left(y, args[1], Left(y, args[0], m)))
  {
    if |args| >= 1 {
      var m1, args1 := Left(y, args[0], m), args[1..];
      assert LeftAll(y, args, m) == LeftAll(y, args1, m1);
      if |args| >= 2 {
        var m2, args2 := Left(y, args1[0], m1), args1[1..];
        assert LeftAll(y, args1, m1) == LeftAll(y, args2, m2);
        assert |args| == 3 ==>
          args2[0] == args[2] && LeftAll(y, args2, m2) == LeftAll(y, args2[1..], Left(y, args2[0], m2));
      }
    }
  }

  lemma {:induction false} RoundTripBody(y: Style, e: Tree, c: Config, m: TableRef, rest: seq<Token>)
    requires Printable(y, e, c.mode, c.blobs) && Stops(NaturalLevel(e), rest)
    ensures Level(NaturalLevel(e), c, m, Body(y, e) + rest) == Whole(y, e, m, rest)
    decreases e, 0, 2
  {
    hide Level, Left, Print, PrintArgs, PrintElements, PrintKvs, PrintOperand, PrintValue, PrintField, IlriOperands;
    match e
    case Val(v) =>
      RoundTripValue(y, v, c, m, rest);
      LeftLeaf(y, e, m);
    case Param(name) =>
      RoundTripParam(name, c, m, rest);
      LeftLeaf(y, e, m);
    case Col(ref, path) =>
      RoundTripColumn(y, ref, path, c, m, rest);
      LeftLeaf(y, e, m);
    case Op(_, _) => RoundTripOp(y, e, c, m, rest);
    case Call(fn, args) => RoundTripCall(y, fn, args, c, m, rest);
    case Arr(els) =>
      RoundTripArray(y, els, c, m, rest);
      LeftLeaf(y, e, m);
    case Doc(kvs) =>
      RoundTripDoc(y, kvs, c, m, rest);
      LeftLeaf(y, e, m);
    case Field(path) =>
      RoundTripField(y, path, c, m, rest);
      LeftLeaf(y, e, m);
  }

  lemma {:induction false} RoundTripOp(y: Style, e: Tree, c: Config, m: TableRef, rest: seq<Token>)
    requires Printable(y, e, c.mode, c.blobs) && Stops(NaturalLevel(e), rest) && e.Op?
    ensures Level(NaturalLevel(e), c, m, Body(y, e) + rest) == Whole(y, e, m, rest)
    decreases e, 0, 1
  {
    hide Level, Left, Print, PrintLeft, PrintOperand, IlriOperands, Stops;
    var op, args := e.op, e.args;
    if IsCast(e) {
      RoundTripCast(y, e, c, m, rest);
    } else if IsBinary(e) {
      RoundTripBinary(y, e, c, m, rest);
    } else if IsIlri(op, args) {
      RoundTripIlri(y, e, c, m, rest);
    } else if |args| == 1 {
      RoundTripUnary(y, e, c, m, rest);
    } else {
      RoundTripStar(c, m, rest);
      LeftArgs(y, NStar, [], m);
    }
  }

  lemma LeftLeaf(y: Style, e: Tree, m: TableRef)
    ensures e.Col? ==> Left(y, e, m) == e.ref.table
    ensures e.Field? ==> Left(y, e, m) == if IsBare(y, e.field) then BareTable(e.field.els) else NO_TABLE
    ensures !e.Col? && !e.Field? && !e.Op? && !e.Call? ==> Left(y, e, m) == m
  {
  }

  lemma RoundTripParam(name: string, c: Config, m: TableRef, rest: seq<Token>)
    ensures Level(ATOMIC, c, m, [Sym(Colon), Token(Word, KwNone, name)] + rest) == Ok(Expr(Param(name), m), rest)
  {
    hide Literal, Document, Array, Cast, Ident;
    var s := [Sym(Colon), Token(Word, KwNone, name)] + rest;
    assert s[1..] == [Token(Word, KwNone, name)] + rest && s[1..][1..] == rest;
  }

  lemma RoundTripStar(c: Config, m: TableRef, rest: seq<Token>)
    ensures Level(ATOMIC, c, m, [Sym(Star)] + rest) == Ok(Expr(Op(NStar, []), m), rest)
  {
    hide Literal, Document, Array, Cast, Ident;
    assert ([Sym(Star)] + rest)[1..] == rest;
  }

  lemma {:induction false} RoundTripLeft(y: Style, e: Tree, l: nat, c: Config, m: TableRef, rest: seq<Token>)
    requires Printable(y, e, c.mode, c.blobs) && l <= OR && Stops(l, rest)
    ensures Level(l, c, m, PrintLeft(y, e, l) + rest) == Whole(y, e, m, rest)
    decreases e, 2
  {
    hide Level, Printable, Body, Print, Left;
    Forms(y, e, l, NNot);
    if IsTilde(e) && l < BIT {
      RoundTripParens(y, e, l, c, m, rest);
    } else {
      RoundTripAt(y, e, l, c, m, rest);
    }
  }

  lemma {:induction false} RoundTripBinary(y: Style, e: Tree, c: Config, m: TableRef, rest: seq<Token>)
    requires Printable(y, e, c.mode, c.blobs) && IsBinary(e) && Stops(OpLevel(e.op), rest)
    ensures Level(OpLevel(e.op), c, m, Body(y, e) + rest) == Whole(y, e, m, rest)
    decreases e, 0, 0
  {
    hide Level, Print, PrintLeft, Binary, OpTok, Left, Body, Stops, Spellings;
    var l, a, b := OpLevel(e.op), e.args[0], e.args[1];
    var right := Print(y, b, l) + rest;
    var r := [OpTok(y, e)] + right;
    assert Body(y, e) == PrintLeft(y, a, l - 1) + [OpTok(y, e)] + Print(y, b, l) by { BinaryBody(y, e); }
    SpellingIsRead(e.op, OpTok(y, e), right);
    assert Body(y, e) + rest == PrintLeft(y, a, l - 1) + r;
    assert r[1..] == right;
    ArgPrintable(y, e.args, 0, c.mode, c.blobs);
    ArgPrintable(y, e.args, 1, c.mode, c.blobs);
    RoundTripLeft(y, a, l - 1, c, m, r);
    var m1 := Left(y, a, m);
    RoundTripAt(y, b, l, c, m1, rest);
    FirstToken(y, e, c.mode, c.blobs);
    BinaryStep(l, c, m, Body(y, e) + rest, Expr(a, m1), r, Expr(b, Left(y, b, m1)), rest);
    LeftArgs(y, e.op, [a, b], m);
    assert e == Op(e.op, [a, b]);
  }

  lemma BinaryBody(y: Style, e: Tree)
    requires IsBinary(e)
    ensures Body(y, e) ==
      PrintLeft(y, e.args[0], OpLevel(e.op) - 1) + [OpTok(y, e)] + Print(y, e.args[1], OpLevel(e.op))
  {
    hide PrintLeft, Print, OpTok;
  }

  /** Every spelling of an operator is read as that operator, at its level. */
  lemma SpellingIsRead(op: OpName, t: Token, rest: seq<Token>)
    requires OpLevel(op) != NO_LEVEL && t in Spellings(op)
    ensures Binary(t) == BinOp(op, OpLevel(op))
    ensures OpLevel(op) > 0 && Stops(OpLevel(op) - 1, [t] + rest)
  {
    hide Spellings, Binary;
    var k :| 0 <= k < |Spellings(op)| && Spellings(op)[k] == t;
    SpellingAt(op, k);
  }

  lemma SpellingAt(op: OpName, k: nat)
    requires OpLevel(op) != NO_LEVEL && k < |Spellings(op)|
    ensures Binary(Spellings(op)[k]) == BinOp(op, OpLevel(op)) && OpLevel(op) > 0
    ensures StopToken(Spellings(op)[k]) && !IlriMore(Spellings(op)[k])
  {
    hide Binary, StopToken, IlriMore, Spellings;
    if op in {NStar, NSlash, NPercent, NPlus, NMinus, NLShift, NRShift} {
      ArithmeticSpelling(op, k);
    } else if op in {NBitAnd, NBitOr, NBitXor, NAnd, NOr} {
      LogicSpelling(op, k);
    } else {
      ComparisonSpelling(op, k);
    }
  }

  lemma ArithmeticSpelling(op: OpName, k: nat)
    requires op in {NStar, NSlash, NPercent, NPlus, NMinus, NLShift, NRShift} && k < |Spellings(op)|
    ensures var t := Spellings(op)[k]; Binary(t) == BinOp(op, OpLevel(op)) && StopToken(t) && !IlriMore(t)
  {
  }

  lemma LogicSpelling(op: OpName, k: nat)
    requires op in {NBitAnd, NBitOr, NBitXor, NAnd, NOr} && k < |Spellings(op)|
    ensures var t := Spellings(op)[k]; Binary(t) == BinOp(op, OpLevel(op)) && StopToken(t) && !IlriMore(t)
  {
  }

  lemma ComparisonSpelling(op: OpName, k: nat)
    requires op in {NEq, NNe, NGt, NGe, NLt, NLe} && k < |Spellings(op)|
    ensures var t := Spellings(op)[k]; Binary(t) == BinOp(op, OpLevel(op)) && StopToken(t) && !IlriMore(t)
  {
  }

  lemma UnaryBody(y: Style, e: Tree)
    requires e.Op? && |e.args| == 1 && IsUnary(e.op)
    ensures Body(y, e) == [UnaryTok(e.op)] + PrintOperand(y, e.op, e.args[0])
  {
    hide PrintOperand, UnaryTok;
  }

  lemma UnaryIsRead(op: OpName)
    requires IsUnary(op)
    ensures Unary(UnaryTok(op)) == Some(op)
    ensures UnaryTok(op).ty.Plus? || UnaryTok(op).ty.Minus? ==> op in {NPlus, NMinus}
  {
  }

  lemma {:induction false} RoundTripUnary(y: Style, e: Tree, c: Config, m: TableRef, rest: seq<Token>)
    requires Printable(y, e, c.mode, c.blobs) && e.Op? && |e.args| == 1 && IsUnary(e.op) && Stops(ATOMIC, rest)
    ensures Level(ATOMIC, c, m, Body(y, e) + rest) == Whole(y, e, m, rest)
    decreases e, 0, 0
  {
    hide Level, Print, Left, PrintOperand, Body, Stops, UnaryTok;
    var a := e.args[0];
    var operand := PrintOperand(y, e.op, a);
    var s := [UnaryTok(e.op)] + operand + rest;
    UnaryBody(y, e);
    UnaryIsRead(e.op);
    assert s[1..] == operand + rest;
    ArgPrintable(y, e.args, 0, c.mode, c.blobs);
    RoundTripOperand(y, e.op, a, c, m, rest);
    assert s[1] == operand[0];
    AtomicUnary(c, m, s, Expr(a, Left(y, a, m)), rest);
    LeftArgs(y, e.op, [a], m);
    assert e == Op(e.op, [a]);
  }

  lemma {:induction false} RoundTripOperand(y: Style, op: OpName, e: Tree, c: Config, m: TableRef, rest: seq<Token>)
    requires Printable(y, e, c.mode, c.blobs) && Stops(ATOMIC, rest)
    ensures PrintOperand(y, op, e) != [] && Level(ATOMIC, c, m, PrintOperand(y, op, e) + rest) == Whole(y, e, m, rest)
    ensures op in {NPlus, NMinus} ==> !PrintOperand(y, op, e)[0].ty.Integer? && !PrintOperand(y, op, e)[0].ty.Number?
    decreases e, 2
  {
    hide Level, Printable, Digits, Left;
    Forms(y, e, ATOMIC, op);
    FirstToken(y, e, c.mode, c.blobs);
    if PrintOperand(y, op, e) == Print(y, e, ATOMIC) {
      RoundTripAt(y, e, ATOMIC, c, m, rest);
    } else {
      RoundTripParens(y, e, ATOMIC, c, m, rest);
    }
    if !e.Val? && NaturalLevel(e) == ATOMIC {
      FirstNotNumber(y, e, c.mode, c.blobs);
    }
  }

  lemma FirstNotNumber(y: Style, e: Tree, mode: Mode, blobs: bool)
    requires Printable(y, e, mode, blobs) && !e.Val? && NaturalLevel(e) == ATOMIC
    ensures Body(y, e) != [] && !Body(y, e)[0].ty.Integer? && !Body(y, e)[0].ty.Number?
  {
    hide PrintOperand, PrintArgs, PrintElements, PrintKvs, Digits, HexDigits, PrintField, DocPath.PrintPath,
      DocPath.Valid, IsFunc, Left, Print, AllPrintable, AllKvPrintable, PrintTable, PrintColumn, IlriOperands,
      FormTokens, PrintableCast;
    if e.Field? {
      PathStarts(y, e.field);
    } else if e.Col? {
      ColumnStarts(y, e.ref);
    } else if e.Call? {
      TableStarts(y, e.fn);
    }
  }

  // Literals

  lemma RoundTripValue(y: Style, v: Value, c: Config, m: TableRef, rest: seq<Token>)
    requires PrintableValue(v, c.blobs)
    ensures Level(ATOMIC, c, m, PrintValue(y, v) + rest) == Ok(Expr(Val(v), m), rest)
  {
    hide Level, Digits, HexDigits, ToNat;
    var s := PrintValue(y, v) + rest;
    match v {
      case VUInt(n) =>
        UnsignedTokens(y, n, c, rest);
      case VInt(i) =>
        DigitsConvert(0 - i, INT64_MAX);
        NegativeTokens(Digits(0 - i), 0 - i, c, rest);
      case VDouble(neg, d) =>
        assert neg ==> s[1] == Token(Number, KwNone, d) && s[1..][1..] == rest;
        assert !neg ==> s[1..] == rest;
      case _ => assert s[1..] == rest;
    }
    AtomicLiteral(c, m, s, v, rest);
  }

  /** An unsigned number in all three notations. */
  lemma UnsignedTokens(y: Style, n: nat, c: Config, rest: seq<Token>)
    requires n <= UINT64_MAX
    ensures
      var s := PrintValue(y, VUInt(n)) + rest;
      if y.number(n).Signed? then SignedLiteral(s) && !s[0].ty.Minus? && Literal(c, false, s[1..]) == Ok(VUInt(n), rest)
      else s != [] && IsLiteral(s[0]) && Literal(c, false, s) == Ok(VUInt(n), rest)
  {
    hide ToNat, Digits, HexDigits;
    DigitsConvert(n, UINT64_MAX);
    HexDigitsConvert(n, UINT64_MAX);
    var s := PrintValue(y, VUInt(n)) + rest;
    if y.number(n).Signed? {
      assert s[1..] == [Token(Integer, KwNone, Digits(n))] + rest && s[1..][1..] == rest;
    } else {
      assert s[1..] == rest;
    }
  }

  /** A text of digits, of the kind that is asked for. */
  predicate Numeral(t: string, hex: bool) {
    t != "" && forall i :: 0 <= i < |t| ==> t[i] in (if hex then "0123456789abcdefABCDEF" else "0123456789")
  }

  /** Exactly the numerals up to 2^64 - 1 are numbers, and up to 2^63 - 1 after a minus sign; any other
      text of an integer or hexadecimal token is an error. */
  lemma NumeralIsRead(c: Config, neg: bool, t: Token, rest: seq<Token>)
    requires t.ty == Integer || t.ty == Hex
    ensures
      var n, limit := NatOf(t.text, t.ty.Hex?), if neg then 0x7FFF_FFFF_FFFF_FFFF else 0xFFFF_FFFF_FFFF_FFFF;
      Literal(c, neg, [t] + rest) ==
        if !Numeral(t.text, t.ty.Hex?) || n > limit then Err(|rest|)
        else Ok(if neg then VInt(0 - n) else VUInt(n), rest)
  {
    hide NatOf, Numeral;
    assert ([t] + rest)[1..] == rest;
    NumeralIs(t.text, t.ty.Hex?);
  }

  lemma NumeralIs(t: string, hex: bool)
    ensures Numeral(t, hex) <==> t != "" && AllDigits(t, hex)
  {
    hide DigitVal;
    forall i | 0 <= i < |t|
      ensures DigitVal(t[i]) < (if hex then 16 else 10) <==>
        t[i] in (if hex then "0123456789abcdefABCDEF" else "0123456789")
    {
      DigitIs(t[i]);
    }
  }

  lemma DigitIs(c: char)
    ensures DigitVal(c) < 10 <==> c in "0123456789"
    ensures DigitVal(c) < 16 <==> c in "0123456789abcdefABCDEF"
  {
  }

  /** The value of a digit, in either case. */
  lemma DigitValues(k: nat)
    requires k < 16
    ensures DigitVal("0123456789abcdef"[k]) == k && DigitVal("0123456789ABCDEF"[k]) == k
  {
  }

  /** An index of a path is any numeral up to 2^32 - 1, and nothing else. */
  lemma IndexIsRead(t: string, rest: seq<Token>)
    ensures
      var r := DocPath.Step([Sym(LSq), Token(Integer, KwNone, t), Sym(RSq)] + rest);
      if Numeral(t, false) && NatOf(t, false) <= 0xFFFF_FFFF then r == Ok(Index(NatOf(t, false)), rest) else r.Err?
  {
    hide NatOf, Numeral;
    var s := [Sym(LSq), Token(Integer, KwNone, t), Sym(RSq)] + rest;
    assert s[2..] == [Sym(RSq)] + rest && s[2..][1..] == rest;
    NumeralIs(t, false);
  }

  lemma NegativeTokens(digits: string, n: nat, c: Config, rest: seq<Token>)
    requires ToNat(digits, false, INT64_MAX) == Some(n)
    ensures
      var s := [Sym(Minus), Token(Integer, KwNone, digits)] + rest;
      SignedLiteral(s) && Literal(c, true, s[1..]) == Ok(VInt(0 - n), rest)
  {
    hide ToNat;
    var s := [Sym(Minus), Token(Integer, KwNone, digits)] + rest;
    assert s[1..] == [Token(Integer, KwNone, digits)] + rest && s[1..][1..] == rest;
  }

  // Columns

  lemma RoundTripColumn(y: Style, ref: ColumnRef, path: Option<Path>, c: Config, m: TableRef, rest: seq<Token>)
    requires Printable(y, Col(ref, path), c.mode, c.blobs) && Stops(ATOMIC, rest)
    ensures Level(ATOMIC, c, m, Body(y, Col(ref, path)) + rest) == Ok(Expr(Col(ref, path), ref.table), rest)
  {
    hide Level, ColumnPath, PrintColumn, DocPath.PrintPath;
    var pathTokens := ArrowTokens(y, path);
    var tail := pathTokens + rest;
    RoundTripColumnPath(y, ref, path, c, rest);
    assert Body(y, Col(ref, path)) + rest == PrintColumn(y, ref) + tail;
    RoundTripColumnName(y, ref, c, m, tail);
  }

  lemma RoundTripColumnPath(y: Style, ref: ColumnRef, path: Option<Path>, c: Config, rest: seq<Token>)
    requires path.Some? ==> DocPath.Valid(path.value)
    requires Stops(ATOMIC, rest)
    ensures
      var tail := ArrowTokens(y, path) + rest;
      !HeadIs(tail, Dot) && !HeadIs(tail, LParen)
        && ColumnPath(c, ref, tail) == Ok(Expr(Col(ref, path), ref.table), rest)
  {
    hide DocPath.FieldFrom, DocPath.PrintPath, DocPath.Valid, ColumnPath, Stops, ArrowTokens, DocPath.StartsStep;
    StopsName(rest);
    ArrowForm(y, path, rest);
    if path.Some? {
      var p := DocPath.PrintPath(y.member, path.value) + rest;
      DocPath.PathRoundTrip(y.member, path.value, rest);
      var arrow := Sym(if y.long(path.value) then Arrow2 else Arrow);
      Tails(arrow, p);
      ArrowPath(ref, path.value, c, arrow, p, rest);
    } else {
      NoPath(ref, c, rest);
    }
  }

  lemma ArrowForm(y: Style, path: Option<Path>, rest: seq<Token>)
    ensures ArrowTokens(y, path) + rest ==
      match path
      case None => rest
      case Some(p) => [Sym(if y.long(p) then Arrow2 else Arrow)] + (DocPath.PrintPath(y.member, p) + rest)
  {
    hide DocPath.PrintPath;
  }

  lemma StopsName(rest: seq<Token>)
    requires Stops(ATOMIC, rest)
    ensures !HeadIs(rest, Dot) && !HeadIs(rest, LParen) && !DocPath.StartsStep(rest)
  {
  }

  lemma ArrowPath(ref: ColumnRef, path: Path, c: Config, arrow: Token, p: seq<Token>, rest: seq<Token>)
    requires HeadIs(p, Dollar) && DocPath.FieldFrom(p, true) == Ok(path, rest) && (arrow.ty.Arrow? || arrow.ty.Arrow2?)
    ensures ColumnPath(c, ref, [arrow] + p) == Ok(Expr(Col(ref, Some(path)), ref.table), rest)
  {
    hide DocPath.FieldFrom;
    assert ([arrow] + p)[1..] == p;
  }

  lemma NoPath(ref: ColumnRef, c: Config, rest: seq<Token>)
    requires Stops(ATOMIC, rest)
    ensures ColumnPath(c, ref, rest) == Ok(Expr(Col(ref, None), ref.table), rest)
  {
    hide DocPath.FieldFrom;
  }

  lemma RoundTripColumnName(y: Style, ref: ColumnRef, c: Config, m: TableRef, tail: seq<Token>)
    requires c.mode == TABLE && ref.col != "" && (ref.table.name == "" ==> ref.table.schema == "")
    requires !HeadIs(tail, Dot) && !HeadIs(tail, LParen)
    ensures Level(ATOMIC, c, m, PrintColumn(y, ref) + tail) == ColumnPath(c, ref, tail)
  {
    hide Level, Ident, ColumnPath;
    AtomicIdent(c, m, PrintColumn(y, ref) + tail);
    ColumnName(y, ref, c, tail);
  }

  lemma ColumnName(y: Style, ref: ColumnRef, c: Config, tail: seq<Token>)
    requires c.mode == TABLE && ref.col != "" && (ref.table.name == "" ==> ref.table.schema == "")
    requires !HeadIs(tail, Dot) && !HeadIs(tail, LParen)
    ensures Ident(c, PrintColumn(y, ref) + tail) == ColumnPath(c, ref, tail)
  {
    hide ColumnPath, FunctionCall, SchemaIdent;
    var t := ref.table;
    if t.name == "" {
      NameTail(y, ref.col, tail);
      assert t == TableRef("", "");
    } else if t.schema == "" {
      QualifiedTail(y, t.name, ref.col, tail);
      assert PrintColumn(y, ref) + tail == [NameTok(y, t.name), Sym(Dot), NameTok(y, ref.col)] + tail;
      assert t == TableRef(t.name, "");
    } else {
      var r := [Sym(Dot), NameTok(y, ref.col)] + tail;
      QualifiedTail(y, t.schema, t.name, r);
      assert PrintColumn(y, ref) + tail == [NameTok(y, t.schema), Sym(Dot), NameTok(y, t.name)] + r;
      assert r[1..][0] == NameTok(y, ref.col) && r[2..] == tail;
    }
  }

  // Document fields

  lemma RoundTripField(y: Style, path: Path, c: Config, m: TableRef, rest: seq<Token>)
    requires c.mode == DOCUMENT && DocPath.Valid(path) && Stops(ATOMIC, rest)
    ensures Level(ATOMIC, c, m, PrintField(y, path) + rest) == Ok(Expr(Field(path), Left(y, Field(path), m)), rest)
  {
    hide Level, Ident, DocPath.FieldFrom, DocPath.PrintPath, DocPath.PrintSteps, DocPath.MoreSteps, Stops;
    var s := PrintField(y, path) + rest;
    StopsName(rest);
    if IsBare(y, path) {
      RoundTripBare(y, path, c, m, rest);
    } else {
      DocPath.PathRoundTrip(y.member, path, rest);
      DollarIsField(c, m, s);
    }
  }

  /** A path without `$`: its first words are taken for a name at first. */
  lemma RoundTripBare(y: Style, path: Path, c: Config, m: TableRef, rest: seq<Token>)
    requires c.mode == DOCUMENT && DocPath.Valid(path) && IsBare(y, path) && Stops(ATOMIC, rest)
    ensures Level(ATOMIC, c, m, PrintField(y, path) + rest) == Ok(Expr(Field(path), BareTable(path.els)), rest)
  {
    hide Level, Ident, DocPath.PrintSteps, DocPath.MoreSteps, Stops, DocPath.StartsStep;
    var s, els, t := PrintField(y, path) + rest, path.els, BareTable(path.els);
    var k := if t.schema == "" then 1 else 2;
    var tail := DocPath.PrintSteps(y.member, els[k..]) + rest;
    StopsName(rest);
    DocPath.MoreStepsRoundTrip(y.member, els[k..], rest);
    BareStops(y, els[k..], rest);
    BareIsField(c, m, s, t, tail);
    assert Members(t) + els[k..] == els;
    if k == 1 {
      assert s == [Token(Word, KwNone, t.name)] + tail;
    } else {
      assert s == [Token(Word, KwNone, t.schema), Sym(Dot), Token(Word, KwNone, t.name)] + tail;
    }
  }

  /** The steps after the words do not start with a parenthesis, and with a dot only before a member. */
  lemma BareStops(y: Style, els: seq<PathEl>, rest: seq<Token>)
    requires Stops(ATOMIC, rest)
    ensures
      var tail := DocPath.PrintSteps(y.member, els) + rest;
      !HeadIs(tail, LParen) && (HeadIs(tail, Dot) ==> els != [] && (els[0].Member? || els[0].AnyMember?))
  {
    if els == [] {
      assert DocPath.PrintSteps(y.member, els) + rest == rest;
    } else {
      assert (DocPath.PrintSteps(y.member, els) + rest)[0] == DocPath.PrintStep(y.member, els[0])[0];
    }
  }

  lemma BareIsField(c: Config, m: TableRef, s: seq<Token>, t: TableRef, tail: seq<Token>)
    requires c.mode == DOCUMENT && t.name != "" && !HeadIs(tail, LParen) && (t.schema == "" ==> !HeadIs(tail, Dot))
    requires
      s ==
        (if t.schema == "" then [] else [Token(Word, KwNone, t.schema), Sym(Dot)])
        + [Token(Word, KwNone, t.name)] + tail
    requires DocPath.MoreSteps(tail).Ok?
    ensures
      var r := DocPath.MoreSteps(tail);
      Level(ATOMIC, c, m, s) == Ok(Expr(Field(Steps(Members(t) + r.val)), t), r.rest)
  {
    hide Level, FunctionCall, Column, DocPath.FieldFrom, DocPath.MoreSteps, SchemaIdent;
    AtomicIdent(c, m, s);
    BareWords(s, t, tail);
  }

  lemma BareWords(s: seq<Token>, t: TableRef, tail: seq<Token>)
    requires t.schema == "" ==> !HeadIs(tail, Dot)
    requires
      s ==
        (if t.schema == "" then [] else [Token(Word, KwNone, t.schema), Sym(Dot)])
        + [Token(Word, KwNone, t.name)] + tail
    ensures SchemaIdent(s) == SchemaId(true, t, false, tail)
  {
    if t.schema == "" {
      assert s[1..] == tail && t == TableRef(t.name, "");
    } else {
      assert s[1..][0] == Sym(Dot) && s[2..][0] == Token(Word, KwNone, t.name) && s[3..] == tail;
    }
  }

  /** A dot after the first word that no word follows is lost: only the word is the field, and reading
      goes on after the dot. So `a.*b` is the product of `a` and `b`, and `a."b"` is an error. */
  lemma DotBeforeNoWord(c: Config, m: TableRef, word: Token, tail: seq<Token>)
    requires c.mode == DOCUMENT && word.ty == Word && word.word == KwNone && word.text != ""
    requires !IsIdent(tail) && !DocPath.StartsStep(tail)
    ensures
      Level(ATOMIC, c, m, [word, Sym(Dot)] + tail)
      == Ok(Expr(Field(Steps([Member(word.text)])), TableRef(word.text, "")), tail)
  {
    hide Level, FunctionCall, Column, SchemaIdent, DocPath.MoreSteps, DocPath.StartsStep;
    AtomicIdent(c, m, [word, Sym(Dot)] + tail);
    DotTaken(word, tail);
    DocPath.NoMoreSteps(tail);
    assert [Member(word.text)] + [] == [Member(word.text)];
  }

  /** So a star after the dot is read as a multiplication. */
  lemma StarIsProduct(c: Config, m: TableRef, word: Token, s: seq<Token>)
    requires c.mode == DOCUMENT && word.ty == Word && word.word == KwNone && word.text != ""
    requires Level(MUL, c, TableRef(word.text, ""), s).Ok?
    ensures
      var b := Level(MUL, c, TableRef(word.text, ""), s);
      Level(MUL, c, m, [word, Sym(Dot), Sym(Star)] + s)
      == Ok(Expr(Op(NStar, [Field(Steps([Member(word.text)])), b.val.tree]), b.val.m), b.rest)
  {
    hide Level;
    var tail := [Sym(Star)] + s;
    DotBeforeNoWord(c, m, word, tail);
    assert [word, Sym(Dot), Sym(Star)] + s == [word, Sym(Dot)] + tail && tail[1..] == s;
    var a := Level(ATOMIC, c, m, [word, Sym(Dot)] + tail);
    var b := Level(MUL, c, a.val.m, s);
    BinaryStep(MUL, c, m, [word, Sym(Dot)] + tail, a.val, tail, b.val, b.rest);
  }

  lemma DotTaken(word: Token, tail: seq<Token>)
    requires word.ty == Word && !IsIdent(tail)
    ensures SchemaIdent([word, Sym(Dot)] + tail) == SchemaId(false, TableRef(word.text, ""), false, tail)
  {
    var s := [word, Sym(Dot)] + tail;
    assert s[1..][0] == Sym(Dot) && s[2..] == tail;
  }

  lemma DollarIsField(c: Config, m: TableRef, s: seq<Token>)
    requires c.mode == DOCUMENT && HeadIs(s, Dollar) && DocPath.FieldFrom(s, true).Ok?
    ensures
      var r := DocPath.FieldFrom(s, true);
      Level(ATOMIC, c, m, s) == Ok(Expr(Field(r.val), NO_TABLE), r.rest)
  {
    hide Literal, Document, Array, Cast, FunctionCall, Column, DocPath.FieldFrom, DocPath.MoreSteps;
    assert Level(ATOMIC, c, m, s) == Ident(c, s);
  }

  lemma NameTail(y: Style, name: string, tail: seq<Token>)
    requires !HeadIs(tail, Dot)
    ensures SchemaIdent([NameTok(y, name)] + tail) == SchemaId(true, TableRef(name, ""), y.name(name), tail)
  {
    assert ([NameTok(y, name)] + tail)[1..] == tail;
  }

  lemma QualifiedTail(y: Style, first: string, second: string, tail: seq<Token>)
    ensures SchemaIdent([NameTok(y, first), Sym(Dot), NameTok(y, second)] + tail) ==
            SchemaId(true, TableRef(second, first), y.name(first) || y.name(second), tail)
  {
    var s := [NameTok(y, first), Sym(Dot), NameTok(y, second)] + tail;
    assert s[1..][0] == Sym(Dot) && s[2..][0] == NameTok(y, second) && s[3..] == tail;
  }

  // Keyword operators

  lemma LevelIlri(c: Config, m: TableRef, s: seq<Token>)
    ensures Level(ILRI, c, m, s) == Ilri(c, m, s)
  {
    hide Ilri;
  }

  /** The operator that a word stands for. */
  function WordOp(k: Keyword): OpName {
    match k
    case KwIn => NIn
    case KwLike => NLike
    case KwRegexp => NRegexp
    case KwRLike => NRLike
    case KwBetween => NBetween
    case _ => NIs
  }

  lemma IlriStep(c: Config, m: TableRef, s: seq<Token>, a: Expr, op: OpName, k: Keyword, operands: seq<Token>)
    requires IlriWord(op) != KwNone && k in IlriWords(op)
    requires Level(COMP, c, m, s) == Ok(a, (if Negated(op) then [KwTok(KwNot)] else []) + [KwTok(k)] + operands)
    ensures Level(ILRI, c, m, s) == IlriTail(c, WordOp(k), Negated(op), a, operands)
  {
    hide Level, IlriTail;
    LevelIlri(c, m, s);
    var r := (if Negated(op) then [KwTok(KwNot)] else []) + [KwTok(k)] + operands;
    if Negated(op) {
      assert r[1..] == [KwTok(k)] + operands && r[1..][1..] == operands;
    } else {
      assert r[1..] == operands;
    }
  }

  lemma IlriBody(y: Style, e: Tree)
    requires e.Op? && IsIlri(e.op, e.args)
    ensures Body(y, e) == Print(y, e.args[0], COMP) + IlriTokens(y, e) + IlriOperands(y, e.op, e.args)
  {
    hide Print, IlriTokens, IlriOperands;
  }

  lemma IlriWordStops(y: Style, e: Tree, operands: seq<Token>) returns (k: Keyword)
    requires e.Op? && IsIlri(e.op, e.args)
    ensures k in IlriWords(e.op) && IlriTokens(y, e) == (if Negated(e.op) then [KwTok(KwNot)] else []) + [KwTok(k)]
    ensures Stops(COMP, IlriTokens(y, e) + operands)
  {
    var ks := IlriWords(e.op);
    k := ks[y.op(e) % |ks|];
  }

  lemma {:induction false} RoundTripIlri(y: Style, e: Tree, c: Config, m: TableRef, rest: seq<Token>)
    requires Printable(y, e, c.mode, c.blobs) && e.Op? && IsIlri(e.op, e.args) && Stops(ILRI, rest)
    ensures Level(ILRI, c, m, Body(y, e) + rest) == Whole(y, e, m, rest)
    decreases e, 0, 0
  {
    hide Level, IlriOperands, IlriTokens, Print, IlriTail, Left, Body, Stops;
    var a, op := e.args[0], e.op;
    var operands := IlriOperands(y, op, e.args) + rest;
    var r := IlriTokens(y, e) + operands;
    var k := IlriWordStops(y, e, operands);
    IlriBody(y, e);
    assert Body(y, e) + rest == Print(y, a, COMP) + r;
    IlriPrintable(y, e, c.mode, c.blobs);
    RoundTripAt(y, a, COMP, c, m, r);
    IlriStep(c, m, Body(y, e) + rest, Expr(a, Left(y, a, m)), op, k, operands);
    IlriTailIsRead(y, e, k, c, m, rest);
  }

  lemma {:induction false} IlriTailIsRead(y: Style, e: Tree, k: Keyword, c: Config, m: TableRef, rest: seq<Token>)
    requires Printable(y, e, c.mode, c.blobs) && e.Op? && IsIlri(e.op, e.args) && k in IlriWords(e.op)
    requires Stops(ILRI, rest)
    ensures
      var a := Expr(e.args[0], Left(y, e.args[0], m));
      IlriTail(c, WordOp(k), Negated(e.op), a, IlriOperands(y, e.op, e.args) + rest) == Whole(y, e, m, rest)
    decreases e.args, 4
  {
    hide Level, IlriOperands, Print, IlriTail, Left, Stops, Printable;
    var op := e.op;
    IlriPrintable(y, e, c.mode, c.blobs);
    assert e == Op(op, e.args);
    if op in {NIn, NNotIn} {
      RoundTripIn(y, op, e.args, c, m, rest);
    } else if op in {NContIn, NNotContIn} {
      RoundTripContIn(y, op, e.args, c, m, rest);
    } else if IlriWord(op) == KwIs {
      RoundTripIs(y, op, e.args, c, m, rest);
    } else if IlriWord(op) == KwBetween {
      RoundTripBetween(y, op, e.args, c, m, rest);
    } else {
      RoundTripLike(y, op, WordOp(k), e.args, c, m, rest);
    }
  }

  /** What is asked of the operands. */
  lemma IlriPrintable(y: Style, e: Tree, mode: Mode, blobs: bool)
    requires Printable(y, e, mode, blobs) && e.Op? && IsIlri(e.op, e.args)
    ensures Printable(y, e.args[0], mode, blobs)
    ensures e.op in {NIn, NNotIn} ==> AllPrintable(y, e.args[1..], mode, true)
    ensures e.op !in {NIn, NNotIn} ==> forall i :: 0 <= i < |e.args| ==> Printable(y, e.args[i], mode, blobs)
    ensures e.op in {NContIn, NNotContIn} ==> !HeadIs(Print(y, e.args[1], COMP), LParen)
  {
    hide Print, Left;
    if e.op !in {NIn, NNotIn} {
      forall i | 0 <= i < |e.args|
        ensures Printable(y, e.args[i], mode, blobs)
      {
        ArgPrintable(y, e.args, i, mode, blobs);
      }
    }
  }

  lemma {:induction false} RoundTripContIn(
    y: Style, op: OpName, args: seq<Tree>, c: Config, m: TableRef, rest: seq<Token>)
    requires op in {NContIn, NNotContIn} && |args| == 2 && Stops(ILRI, rest)
    requires Printable(y, args[1], c.mode, c.blobs) && !HeadIs(Print(y, args[1], COMP), LParen)
    ensures
      IlriTail(c, NIn, Negated(op), Expr(args[0], Left(y, args[0], m)), IlriOperands(y, op, args) + rest)
      == Whole(y, Op(op, args), m, rest)
    decreases args, 3
  {
    hide Level, Print, Printable, Left, IlriTail, Stops, IlriOperands;
    var m1, right := Left(y, args[0], m), Print(y, args[1], COMP);
    assert IlriOperands(y, op, args) == right by { LikeOperands(y, op, args); }
    StopsPattern(rest);
    RoundTripAt(y, args[1], COMP, c, m1, rest);
    FirstToken(y, args[1], c.mode, c.blobs);
    Forms(y, args[1], COMP, NNot);
    assert (right + rest)[0] == right[0];
    LeftArgs(y, op, args, m);
    assert [args[0], args[1]] == args;
    TailContIn(c, op == NNotContIn, Expr(args[0], m1), right + rest, Expr(args[1], Left(y, args[1], m1)), rest);
  }

  lemma {:induction false} RoundTripIn(y: Style, op: OpName, args: seq<Tree>, c: Config, m: TableRef, rest: seq<Token>)
    requires op in {NIn, NNotIn} && |args| >= 2 && AllPrintable(y, args[1..], c.mode, true)
    ensures IlriTail(c, NIn, op == NNotIn, Expr(args[0], Left(y, args[0], m)), IlriOperands(y, op, args) + rest) ==
      Whole(y, Op(op, args), m, rest)
    decreases args, 3
  {
    hide Level, Args, PrintArgs, AllPrintable, IlriTail, Print, IlriOperands, Left;
    LeftIn(y, op, args, m);
    var r := [Sym(RParen)] + rest;
    var s := IlriOperands(y, op, args) + rest;
    assert IlriOperands(y, op, args) == Parens(PrintArgs(y, args[1..])) by { InOperands(y, op, args); }
    assert s == [Sym(LParen)] + (PrintArgs(y, args[1..]) + r);
    assert s[1..] == PrintArgs(y, args[1..]) + r;
    RoundTripArgs(y, args[1..], c.(blobs := true), r);
    assert r[1..] == rest;
    assert [args[0]] + args[1..] == args;
    TailIn(c, op == NNotIn, Expr(args[0], Left(y, args[0], m)), s, args[1..], r);
  }

  lemma LeftIn(y: Style, op: OpName, args: seq<Tree>, m: TableRef)
    requires op in {NIn, NNotIn} && args != []
    ensures Left(y, Op(op, args), m) == Left(y, args[0], m)
  {
  }

  lemma InOperands(y: Style, op: OpName, args: seq<Tree>)
    requires op in {NIn, NNotIn} && |args| >= 2
    ensures IlriOperands(y, op, args) == Parens(PrintArgs(y, args[1..]))
  {
    hide Print, PrintArgs;
  }

  // What follows the operators, one at a time

  lemma TailIn(c: Config, neg: bool, a: Expr, s: seq<Token>, more: seq<Tree>, r: seq<Token>)
    requires HeadIs(s, LParen) && Args(c.(blobs := true), s[1..]) == Ok(more, r) && HeadIs(r, RParen)
    ensures IlriTail(c, NIn, neg, a, s) == Ok(Expr(Op(if neg then NNotIn else NIn, [a.tree] + more), a.m), r[1..])
  {
    hide Args, Level;
  }

  lemma TailContIn(c: Config, neg: bool, a: Expr, s: seq<Token>, b: Expr, r: seq<Token>)
    requires !HeadIs(s, LParen) && Level(COMP, c, a.m, s) == Ok(b, r)
    ensures IlriTail(c, NIn, neg, a, s) == Ok(Expr(Op(if neg then NNotContIn else NContIn, [a.tree, b.tree]), b.m), r)
  {
    hide Args, Level;
  }

  lemma TailLike(c: Config, op: OpName, word: OpName, a: Expr, s: seq<Token>, b: Expr, r: seq<Token>)
    requires op in {NLike, NNotLike, NRegexp, NNotRegexp} && Level(COMP, c, a.m, s) == Ok(b, r) && !HeadKw(r, KwEscape)
    requires word in (if op in {NLike, NNotLike} then {NLike} else {NRegexp, NRLike})
    ensures IlriTail(c, word, Negated(op), a, s) == Ok(Expr(Op(op, [a.tree, b.tree]), b.m), r)
  {
    hide Args, Level;
  }

  lemma TailBetween(c: Config, neg: bool, a: Expr, s: seq<Token>, lo: Expr, r: seq<Token>, hi: Expr, rest: seq<Token>)
    requires Level(COMP, c, a.m, s) == Ok(lo, r) && HeadKw(r, KwAnd) && Level(COMP, c, lo.m, r[1..]) == Ok(hi, rest)
    ensures
      IlriTail(c, NBetween, neg, a, s)
      == Ok(Expr(Op(if neg then NNotBetween else NBetween, [a.tree, lo.tree, hi.tree]), hi.m), rest)
  {
    hide Args, Level;
  }

  lemma RoundTripIs(y: Style, op: OpName, args: seq<Tree>, c: Config, m: TableRef, rest: seq<Token>)
    requires op in {NIs, NIsNot} && IsIlri(op, args)
    ensures IlriTail(c, NIs, false, Expr(args[0], Left(y, args[0], m)), IlriOperands(y, op, args) + rest) ==
      Whole(y, Op(op, args), m, rest)
  {
    hide Level, Args, Left;
    var s := IlriOperands(y, op, args) + rest;
    if op == NIsNot {
      assert s[1..] == [IlriOperands(y, op, args)[1]] + rest && s[1..][1..] == rest;
    } else {
      assert s[1..] == rest;
    }
    assert [args[0], args[1]] == args;
    LeftArgs(y, op, args, m);
    LeftLeaf(y, args[1], Left(y, args[0], m));
  }

  lemma LikeOperands(y: Style, op: OpName, args: seq<Tree>)
    requires op in {NLike, NNotLike, NRegexp, NNotRegexp, NContIn, NNotContIn} && |args| == 2
    ensures IlriOperands(y, op, args) == Print(y, args[1], COMP)
  {
    hide Print;
  }

  lemma StopsPattern(rest: seq<Token>)
    requires Stops(ILRI, rest)
    ensures Stops(COMP, rest) && !HeadKw(rest, KwEscape)
  {
  }

  lemma {:induction false} RoundTripLike(
    y: Style, op: OpName, word: OpName, args: seq<Tree>, c: Config, m: TableRef, rest: seq<Token>)
    requires word in (if op in {NLike, NNotLike} then {NLike} else {NRegexp, NRLike})
    requires op in {NLike, NNotLike, NRegexp, NNotRegexp} && |args| == 2 && Stops(ILRI, rest)
    requires Printable(y, args[1], c.mode, c.blobs)
    ensures
      IlriTail(c, word, Negated(op), Expr(args[0], Left(y, args[0], m)), IlriOperands(y, op, args) + rest)
      == Whole(y, Op(op, args), m, rest)
    decreases args, 3
  {
    hide Level, Print, Printable, Left, IlriTail, Stops, IlriOperands, Negated;
    var m1 := Left(y, args[0], m);
    assert IlriOperands(y, op, args) == Print(y, args[1], COMP) by { LikeOperands(y, op, args); }
    StopsPattern(rest);
    RoundTripAt(y, args[1], COMP, c, m1, rest);
    LeftArgs(y, op, args, m);
    assert [args[0], args[1]] == args;
    TailLike(c, op, word, Expr(args[0], m1), Print(y, args[1], COMP) + rest, Expr(args[1], Left(y, args[1], m1)), rest);
  }

  lemma {:induction false} RoundTripBetween(
    y: Style, op: OpName, args: seq<Tree>, c: Config, m: TableRef, rest: seq<Token>)
    requires op in {NBetween, NNotBetween} && |args| == 3 && Stops(ILRI, rest)
    requires Printable(y, args[1], c.mode, c.blobs) && Printable(y, args[2], c.mode, c.blobs)
    ensures
      var a := Expr(args[0], Left(y, args[0], m));
      IlriTail(c, NBetween, op == NNotBetween, a, IlriOperands(y, op, args) + rest) == Whole(y, Op(op, args), m, rest)
    decreases args, 3
  {
    hide Level, Print, Printable, Left, IlriTail;
    var m1 := Left(y, args[0], m);
    var m2 := Left(y, args[1], m1);
    var hi := Print(y, args[2], COMP) + rest;
    var r := [KwTok(KwAnd)] + hi;
    assert IlriOperands(y, op, args) + rest == Print(y, args[1], COMP) + r;
    RoundTripAt(y, args[1], COMP, c, m1, r);
    assert r[1..] == hi;
    RoundTripAt(y, args[2], COMP, c, m2, rest);
    LeftArgs(y, op, args, m);
    assert [args[0], args[1], args[2]] == args;
    TailBetween(c, op == NNotBetween, Expr(args[0], m1), Print(y, args[1], COMP) + r, Expr(args[1], m2), r,
                Expr(args[2], Left(y, args[2], m2)), rest);
  }

  // CAST

  lemma {:induction false} RoundTripCast(y: Style, e: Tree, c: Config, m: TableRef, rest: seq<Token>)
    requires Printable(y, e, c.mode, c.blobs) && IsCast(e)
    ensures Level(ATOMIC, c, m, Body(y, e) + rest) == Whole(y, e, m, rest)
    decreases e, 0, 0
  {
    hide Level, Print, Left, FormTokens, FormText, GoodForm, CastType, Stops, Body, Printable;
    CastBody(y, e, c.mode, c.blobs);
    var a, f := e.args[0], y.cast(e.args[1].v.o);
    var close := [Sym(RParen)] + rest;
    var ty := FormTokens(f) + close;
    var r := [KwTok(KwAs)] + ty;
    var s := Body(y, e) + rest;
    assert s == [KwTok(KwCast), Sym(LParen)] + (Print(y, a, OR) + r);
    assert r[1..] == ty && close[1..] == rest;
    AsStops(r);
    RoundTripAt(y, a, OR, c, m, r);
    FormIsRead(f, close);
    CastStep(c, m, s, Expr(a, Left(y, a, m)), r, FormText(f), close);
    assert e == Op(NCast, [a, Val(VOctets(FormText(f)))]);
    LeftArgs(y, NCast, e.args, m);
    LeftLeaf(y, e.args[1], Left(y, a, m));
  }

  lemma CastBody(y: Style, e: Tree, mode: Mode, blobs: bool)
    requires Printable(y, e, mode, blobs) && IsCast(e)
    ensures
      var f := y.cast(e.args[1].v.o);
      && Body(y, e) ==
         [KwTok(KwCast), Sym(LParen)] + Print(y, e.args[0], OR) + ([KwTok(KwAs)] + FormTokens(f) + [Sym(RParen)])
      && Printable(y, e.args[0], mode, blobs) && GoodForm(f) && FormText(f) == e.args[1].v.o
  {
    hide Print, FormTokens, FormText, GoodForm;
  }

  lemma AsStops(r: seq<Token>)
    requires HeadKw(r, KwAs)
    ensures Stops(OR, r)
  {
  }

  lemma CastStep(c: Config, m: TableRef, s: seq<Token>, a: Expr, r: seq<Token>, ty: string, close: seq<Token>)
    requires |s| > 1 && s[0] == KwTok(KwCast) && s[1] == Sym(LParen)
    requires Level(OR, c, m, s[2..]) == Ok(a, r) && HeadKw(r, KwAs)
    requires CastType(r[1..]) == Ok(ty, close) && HeadIs(close, RParen)
    ensures Level(ATOMIC, c, m, s) == Ok(Expr(Op(NCast, [a.tree, Val(VOctets(ty))]), a.m), close[1..])
  {
    hide Level, CastType;
    AtomicCast(c, m, s);
    assert s[1..][1..] == s[2..];
  }

  lemma AtomicCast(c: Config, m: TableRef, s: seq<Token>)
    requires HeadKw(s, KwCast)
    ensures Level(ATOMIC, c, m, s) == Cast(c, m, s[1..])
  {
    hide Literal, Document, Array, Cast, Ident;
  }

  /** Every written type is read with its text. */
  lemma FormIsRead(f: CastForm, rest: seq<Token>)
    requires GoodForm(f) && HeadIs(rest, RParen)
    ensures CastType(FormTokens(f) + rest) == Ok(FormText(f), rest)
  {
    hide CastType, FormTokens, FormText, PrintDims;
    match f {
      case Sized(kw, dims) => SizedIsRead(kw, dims, rest);
      case Integral(kw, suffix) => IntegralIsRead(kw, suffix, rest);
      case Simple(kw) => SimpleIsRead(kw, rest);
    }
  }

  lemma SizedIsRead(kw: Keyword, dims: seq<string>, rest: seq<Token>)
    requires GoodForm(Sized(kw, dims)) && HeadIs(rest, RParen)
    ensures CastType(FormTokens(Sized(kw, dims)) + rest) == Ok(FormText(Sized(kw, dims)), rest)
  {
    hide Dimension, PrintDims, DimsText;
    var s := FormTokens(Sized(kw, dims)) + rest;
    assert s[1..] == PrintDims(dims) + rest;
    DimsAreRead(TypeName(kw), dims, kw == KwDecimal, rest);
  }

  lemma IntegralIsRead(kw: Keyword, suffix: Keyword, rest: seq<Token>)
    requires GoodForm(Integral(kw, suffix)) && HeadIs(rest, RParen)
    ensures CastType(FormTokens(Integral(kw, suffix)) + rest) == Ok(FormText(Integral(kw, suffix)), rest)
  {
    hide Dimension;
    var s := FormTokens(Integral(kw, suffix)) + rest;
    if suffix == KwNone {
      assert s[1..] == rest;
    } else {
      assert s[1..][0] == KwTok(suffix) && s[1..][1..] == rest;
    }
  }

  lemma SimpleIsRead(kw: Keyword, rest: seq<Token>)
    requires GoodForm(Simple(kw))
    ensures CastType(FormTokens(Simple(kw)) + rest) == Ok(FormText(Simple(kw)), rest)
  {
    hide Dimension;
    assert (FormTokens(Simple(kw)) + rest)[1..] == rest;
  }

  lemma DimsAreRead(name: string, dims: seq<string>, two: bool, rest: seq<Token>)
    requires |dims| <= (if two then 2 else 1) && HeadIs(rest, RParen)
    ensures
      Dimension(name, two, PrintDims(dims) + rest)
      == Ok(name + DimsText(dims), rest)
  {
    hide Dimension, PrintDims;
    if dims == [] {
      NoDimension(name, two, rest);
    } else if |dims| == 1 {
      OneDimension(name, dims[0], two, rest);
      assert dims == [dims[0]];
    } else {
      TwoDimensions(name, dims[0], dims[1], rest);
      assert dims == [dims[0], dims[1]];
    }
  }

  lemma NoDimension(name: string, two: bool, rest: seq<Token>)
    requires HeadIs(rest, RParen)
    ensures Dimension(name, two, PrintDims([]) + rest) == Ok(name + "", rest)
  {
    assert PrintDims([]) + rest == rest && name + "" == name;
  }

  lemma OneDimension(name: string, d: string, two: bool, rest: seq<Token>)
    ensures Dimension(name, two, PrintDims([d]) + rest) == Ok(name + ("(" + d + ")"), rest)
  {
    var s := PrintDims([d]) + rest;
    var r := [Sym(RParen)] + rest;
    assert s[1..] == [Token(Integer, KwNone, d)] + r && s[1..][1..] == r && r[1..] == rest;
    assert name + "(" + d + ")" == name + ("(" + d + ")");
  }

  lemma TwoDimsTokens(d: string, d1: string, rest: seq<Token>)
    ensures PrintDims([d, d1]) + rest ==
      [Sym(LParen)] + ([Token(Integer, KwNone, d)]
        + ([Sym(Comma)] + ([Token(Integer, KwNone, d1)] + ([Sym(RParen)] + rest))))
  {
  }

  lemma TwoDimensions(name: string, d: string, d1: string, rest: seq<Token>)
    ensures Dimension(name, true, PrintDims([d, d1]) + rest) == Ok(name + ("(" + d + "," + d1 + ")"), rest)
  {
    hide PrintDims, Dimension;
    var r := [Sym(RParen)] + rest;
    var r1 := [Token(Integer, KwNone, d1)] + r;
    var r2 := [Sym(Comma)] + r1;
    var r3 := [Token(Integer, KwNone, d)] + r2;
    var s := [Sym(LParen)] + r3;
    TwoDimsTokens(d, d1, rest);
    Tails(Sym(LParen), r3);
    Tails(Token(Integer, KwNone, d), r2);
    Tails(Sym(Comma), r1);
    Tails(Token(Integer, KwNone, d1), r);
    Tails(Sym(RParen), rest);
    ReadsTwo(name, s);
    TwoDimsText(name, d, d1);
  }

  lemma Tails(t: Token, s: seq<Token>)
    ensures ([t] + s)[1..] == s && ([t] + s)[0] == t
  {
  }

  lemma ReadsTwo(name: string, s: seq<Token>)
    requires HeadIs(s, LParen) && HeadIs(s[1..], Integer) && HeadIs(s[1..][1..], Comma)
    requires HeadIs(s[1..][1..][1..], Integer) && HeadIs(s[1..][1..][1..][1..], RParen)
    ensures Dimension(name, true, s) ==
      Ok(name + "(" + s[1..][0].text + "," + s[1..][1..][1..][0].text + ")", s[1..][1..][1..][1..][1..])
  {
  }

  lemma TwoDimsText(name: string, d: string, d1: string)
    ensures name + "(" + d + "," + d1 + ")" == name + ("(" + d + "," + d1 + ")")
  {
  }

  // Argument lists and calls

  lemma {:induction false} RoundTripArgs(y: Style, es: seq<Tree>, c: Config, rest: seq<Token>)
    requires es != [] && AllPrintable(y, es, c.mode, c.blobs) && HeadIs(rest, RParen)
    ensures Args(c, PrintArgs(y, es) + rest) == Ok(es, rest)
    decreases es, 2
  {
    hide Level, Print, Printable, Left, Stops, PrintArgs, Args;
    var first := Print(y, es[0], OR);
    PrintArgsForm(y, es);
    if |es| == 1 {
      SeparatorStops(rest);
      RoundTripAt(y, es[0], OR, c, NO_TABLE, rest);
      ArgsStep(c, first + rest, Expr(es[0], Left(y, es[0], NO_TABLE)), rest);
      assert es == [es[0]];
    } else {
      var more := PrintArgs(y, es[1..]) + rest;
      var r := [Sym(Comma)] + more;
      Regrouped(first, [Sym(Comma)], PrintArgs(y, es[1..]), rest);
      SeparatorStops(r);
      RoundTripAt(y, es[0], OR, c, NO_TABLE, r);
      assert r[1..] == more;
      RoundTripArgs(y, es[1..], c, rest);
      ArgsStep(c, first + r, Expr(es[0], Left(y, es[0], NO_TABLE)), r);
      assert [es[0]] + es[1..] == es;
    }
  }

  lemma Regrouped(a: seq<Token>, b: seq<Token>, c: seq<Token>, d: seq<Token>)
    ensures a + b + c + d == a + (b + (c + d))
  {
  }

  /** A comma or a closing bracket ends an expression of any level. */
  lemma SeparatorStops(rest: seq<Token>)
    requires HeadIs(rest, Comma) || HeadIs(rest, RParen) || HeadIs(rest, RSq) || HeadIs(rest, RCurly)
    ensures Stops(OR, rest)
  {
  }

  lemma PrintArgsForm(y: Style, es: seq<Tree>)
    requires es != []
    ensures |es| == 1 ==> PrintArgs(y, es) == Print(y, es[0], OR)
    ensures |es| > 1 ==> PrintArgs(y, es) == Print(y, es[0], OR) + [Sym(Comma)] + PrintArgs(y, es[1..])
  {
    hide Print;
  }

  lemma ArgsStep(c: Config, s: seq<Token>, e: Expr, r: seq<Token>)
    requires Level(OR, c, NO_TABLE, s) == Ok(e, r)
    ensures
      if HeadIs(r, Comma) then
        Args(c, r[1..]).Ok? ==> Args(c, s) == Ok([e.tree] + Args(c, r[1..]).val, Args(c, r[1..]).rest)
      else Args(c, s) == Ok([e.tree], r)
  {
    hide Level;
  }

  lemma {:induction false} RoundTripCall(
    y: Style, fn: TableRef, args: seq<Tree>, c: Config, m: TableRef, rest: seq<Token>)
    requires Printable(y, Call(fn, args), c.mode, c.blobs)
    ensures Level(ATOMIC, c, m, Body(y, Call(fn, args)) + rest) == Whole(y, Call(fn, args), m, rest)
    decreases args, 4
  {
    hide Level, FunctionCall, PrintArgs, PrintTable, IsFunc;
    var call := PrintArgs(y, args) + ([Sym(RParen)] + rest);
    assert Body(y, Call(fn, args)) + rest == PrintTable(y, fn) + ([Sym(LParen)] + call);
    CallName(y, fn, c, m, call);
    RoundTripCallArgs(y, fn, args, c, rest);
  }

  lemma CallName(y: Style, fn: TableRef, c: Config, m: TableRef, call: seq<Token>)
    requires fn.name != ""
    ensures Level(ATOMIC, c, m, PrintTable(y, fn) + ([Sym(LParen)] + call)) == FunctionCall(c, fn, call)
  {
    hide Level, FunctionCall, Column;
    var open := [Sym(LParen)] + call;
    AtomicIdent(c, m, PrintTable(y, fn) + open);
    assert open[1..] == call;
    if fn.schema == "" {
      NameTail(y, fn.name, open);
      assert fn == TableRef(fn.name, "");
    } else {
      QualifiedTail(y, fn.schema, fn.name, open);
    }
  }

  lemma {:induction false} RoundTripCallArgs(y: Style, fn: TableRef, args: seq<Tree>, c: Config, rest: seq<Token>)
    requires fn.name != "" && !IsFunc(fn, "position")
    requires |args| == 1 ==> !IsFunc(Left(y, args[0], fn), "position")
    requires args != [] ==> Printable(y, args[0], c.mode, c.blobs) && AllPrintable(y, args[1..], c.mode, false)
    ensures FunctionCall(c, fn, PrintArgs(y, args) + ([Sym(RParen)] + rest)) ==
            Ok(Expr(Call(fn, args), if args == [] then fn else Left(y, args[0], fn)), rest)
    decreases args, 3
  {
    hide Level, Args, IsFunc, Print, Body, Printable, AllPrintable, FunctionCall, Left;
    var close := [Sym(RParen)] + rest;
    if args == [] {
      assert PrintArgs(y, args) + close == close;
      CallEmpty(fn, c, rest);
    } else {
      var first := Print(y, args[0], OR);
      FirstToken(y, args[0], c.mode, c.blobs);
      Forms(y, args[0], OR, NNot);
      assert [args[0]] + args[1..] == args;
      var a := Expr(args[0], Left(y, args[0], fn));
      if |args| == 1 {
        RoundTripAt(y, args[0], OR, c, fn, close);
        CallOne(fn, c, first + close, a, rest);
        assert [args[0]] == args;
      } else {
        var more := PrintArgs(y, args[1..]) + close;
        var r := [Sym(Comma)] + more;
        assert PrintArgs(y, args) + close == first + r;
        RoundTripAt(y, args[0], OR, c, fn, r);
        assert r[1..] == more;
        RoundTripArgs(y, args[1..], c.(blobs := false), close);
        CallMore(fn, c, first + r, a, r, args[1..], rest);
      }
    }
  }

  lemma CallEmpty(fn: TableRef, c: Config, rest: seq<Token>)
    requires !IsFunc(fn, "position")
    ensures FunctionCall(c, fn, [Sym(RParen)] + rest) == Ok(Expr(Call(fn, []), fn), rest)
  {
    hide IsFunc, Level, Args;
    assert ([Sym(RParen)] + rest)[1..] == rest;
  }

  lemma CallOne(fn: TableRef, c: Config, s: seq<Token>, a: Expr, rest: seq<Token>)
    requires !IsFunc(fn, "position") && !IsFunc(a.m, "position") && s != [] && Starts(s[0])
    requires Level(OR, c, fn, s) == Ok(a, [Sym(RParen)] + rest)
    ensures FunctionCall(c, fn, s) == Ok(Expr(Call(fn, [a.tree]), a.m), rest)
  {
    hide IsFunc, Level, Args;
    assert ([Sym(RParen)] + rest)[1..] == rest;
  }

  lemma CallMore(fn: TableRef, c: Config, s: seq<Token>, a: Expr, r: seq<Token>, more: seq<Tree>, rest: seq<Token>)
    requires !IsFunc(fn, "position") && s != [] && Starts(s[0]) && Level(OR, c, fn, s) == Ok(a, r)
    requires HeadIs(r, Comma) && Args(c.(blobs := false), r[1..]) == Ok(more, [Sym(RParen)] + rest)
    ensures FunctionCall(c, fn, s) == Ok(Expr(Call(fn, [a.tree] + more), a.m), rest)
  {
    hide IsFunc, Level, Args;
    assert ([Sym(RParen)] + rest)[1..] == rest;
  }

  // Arrays and documents

  lemma BracketBody(y: Style, e: Tree)
    ensures e.Arr? ==> HeadIs(Body(y, e), LSq) && Body(y, e) == [Sym(LSq)] + PrintElements(y, e.els) + [Sym(RSq)]
    ensures e.Doc? ==> HeadIs(Body(y, e), LCurly) && Body(y, e) == [Sym(LCurly)] + PrintKvs(y, e.kvs) + [Sym(RCurly)]
  {
    hide PrintElements, PrintKvs;
  }

  lemma {:induction false} RoundTripElement(y: Style, e: Tree, c: Config, rest: seq<Token>)
    requires !c.blobs && Printable(y, e, c.mode, false) && Stops(OR, rest)
    ensures AnyValue(c, PrintElement(y, e) + rest) == Ok(e, rest)
    decreases e, 2
  {
    hide Level, Body, Array, Document, Print, Left, PrintElements, PrintKvs, Stops;
    FirstToken(y, e, c.mode, false);
    Forms(y, e, OR, NNot);
    BracketBody(y, e);
    if PrintElement(y, e) != Body(y, e) {
      RoundTripParens(y, e, OR, c, NO_TABLE, rest);
    } else if e.Arr? {
      ArrayTokens(y, e.els, c, rest);
    } else if e.Doc? {
      DocTokens(y, e.kvs, c, rest);
    } else {
      RoundTripAt(y, e, OR, c, NO_TABLE, rest);
    }
  }

  lemma FirstElement(y: Style, e: Tree, mode: Mode)
    requires Printable(y, e, mode, false)
    ensures PrintElement(y, e) != [] && Starts(PrintElement(y, e)[0])
  {
    hide Body, Printable;
    FirstToken(y, e, mode, false);
  }

  lemma {:induction false} RoundTripElements(y: Style, es: seq<Tree>, c: Config, rest: seq<Token>)
    requires !c.blobs && es != [] && AllPrintable(y, es, c.mode, false) && HeadIs(rest, RSq)
    ensures Elements(c, PrintElements(y, es) + rest) == Ok(es, rest)
    decreases es, 3
  {
    hide AnyValue, PrintElement, Printable, PrintElements, Elements, Stops;
    var first := PrintElement(y, es[0]);
    PrintElementsForm(y, es);
    if |es| == 1 {
      SeparatorStops(rest);
      RoundTripElement(y, es[0], c, rest);
      ElementsStep(c, first + rest, es[0], rest);
      assert es == [es[0]];
    } else {
      var more := PrintElements(y, es[1..]) + rest;
      var r := [Sym(Comma)] + more;
      Regrouped(first, [Sym(Comma)], PrintElements(y, es[1..]), rest);
      SeparatorStops(r);
      RoundTripElement(y, es[0], c, r);
      assert r[1..] == more;
      RoundTripElements(y, es[1..], c, rest);
      ElementsStep(c, first + r, es[0], r);
      assert [es[0]] + es[1..] == es;
    }
  }

  lemma PrintElementsForm(y: Style, es: seq<Tree>)
    requires es != []
    ensures |es| == 1 ==> PrintElements(y, es) == PrintElement(y, es[0])
    ensures |es| > 1 ==> PrintElements(y, es) == PrintElement(y, es[0]) + [Sym(Comma)] + PrintElements(y, es[1..])
  {
    hide PrintElement;
  }

  lemma ElementsStep(c: Config, s: seq<Token>, e: Tree, r: seq<Token>)
    requires AnyValue(c, s) == Ok(e, r)
    ensures
      if HeadIs(r, Comma) then
        Elements(c, r[1..]).Ok? ==> Elements(c, s) == Ok([e] + Elements(c, r[1..]).val, Elements(c, r[1..]).rest)
      else Elements(c, s) == Ok([e], r)
  {
    hide AnyValue;
  }

  lemma {:induction false} ArrayTokens(y: Style, els: seq<Tree>, c: Config, rest: seq<Token>)
    requires !c.blobs && AllPrintable(y, els, c.mode, false)
    ensures
      var s := [Sym(LSq)] + PrintElements(y, els) + [Sym(RSq)] + rest;
      Array(c, s) == Ok(Arr(els), rest)
    decreases els, 4
  {
    hide Elements, PrintElement, Printable;
    var s := [Sym(LSq)] + PrintElements(y, els) + [Sym(RSq)] + rest;
    var close := [Sym(RSq)] + rest;
    assert close[1..] == rest;
    assert s[1..] == PrintElements(y, els) + close;
    if els == [] {
      assert s[1..] == close;
      assert s[2..] == rest;
    } else {
      FirstElement(y, els[0], c.mode);
      assert s[1..][0] == PrintElement(y, els[0])[0];
      RoundTripElements(y, els, c, close);
    }
  }

  lemma {:induction false} RoundTripArray(y: Style, els: seq<Tree>, c: Config, m: TableRef, rest: seq<Token>)
    requires AllPrintable(y, els, c.mode, false)
    ensures Level(ATOMIC, c, m, Body(y, Arr(els)) + rest) == Ok(Expr(Arr(els), m), rest)
    decreases els, 5
  {
    hide Level, Array, PrintElements, AllPrintable, Body;
    BracketBody(y, Arr(els));
    ArrayTokens(y, els, c.(blobs := false), rest);
    AtomicBracket(c, m, Body(y, Arr(els)) + rest, Arr(els), rest);
  }

  lemma {:induction false} RoundTripKvs(y: Style, kvs: seq<KeyVal>, c: Config, rest: seq<Token>)
    requires !c.blobs && kvs != [] && AllKvPrintable(y, kvs, c.mode) && HeadIs(rest, RCurly)
    ensures KeyVals(c, PrintKvs(y, kvs) + rest) == Ok(kvs, rest)
    decreases kvs, 3
  {
    hide AnyValue, PrintElement, Printable, KeyVals, PrintKvs, Stops;
    var kv, more := kvs[0], MoreKvs(y, kvs, rest);
    SeparatorStops(more);
    RoundTripElement(y, kv.val, c, more);
    KvStep(y, kv, c, PrintElement(y, kv.val) + more, more);
    PrintKvsForm(y, kvs, rest);
    if |kvs| == 1 {
      assert [kv] == kvs;
    } else {
      RoundTripKvs(y, kvs[1..], c, rest);
      assert more[1..] == PrintKvs(y, kvs[1..]) + rest;
      assert [kv] + kvs[1..] == kvs;
    }
  }

  function MoreKvs(y: Style, kvs: seq<KeyVal>, rest: seq<Token>): seq<Token>
    requires kvs != []
  {
    if |kvs| == 1 then rest else [Sym(Comma)] + (PrintKvs(y, kvs[1..]) + rest)
  }

  lemma PrintKvsForm(y: Style, kvs: seq<KeyVal>, rest: seq<Token>)
    requires kvs != []
    ensures PrintKvs(y, kvs) + rest ==
            [KeyTok(y, kvs[0].key), Sym(Colon)] + (PrintElement(y, kvs[0].val) + MoreKvs(y, kvs, rest))
  {
    hide PrintElement;
  }

  lemma KvStep(y: Style, kv: KeyVal, c: Config, v: seq<Token>, more: seq<Token>)
    requires AnyValue(c, v) == Ok(kv.val, more)
    ensures
      var r := KeyVals(c, [KeyTok(y, kv.key), Sym(Colon)] + v);
      if HeadIs(more, Comma)
      then KeyVals(c, more[1..]).Ok? ==> r == Ok([kv] + KeyVals(c, more[1..]).val, KeyVals(c, more[1..]).rest)
      else r == Ok([kv], more)
  {
    hide AnyValue;
    var s := [KeyTok(y, kv.key), Sym(Colon)] + v;
    assert s[1..] == [Sym(Colon)] + v && s[1..][1..] == v;
    assert KeyVal(kv.key, kv.val) == kv;
  }

  lemma {:induction false} DocTokens(y: Style, kvs: seq<KeyVal>, c: Config, rest: seq<Token>)
    requires !c.blobs && AllKvPrintable(y, kvs, c.mode)
    ensures
      var s := [Sym(LCurly)] + PrintKvs(y, kvs) + [Sym(RCurly)] + rest;
      Document(c, s) == Ok(Doc(kvs), rest)
    decreases kvs, 4
  {
    hide KeyVals, PrintElement, Printable;
    var s := [Sym(LCurly)] + PrintKvs(y, kvs) + [Sym(RCurly)] + rest;
    var close := [Sym(RCurly)] + rest;
    assert close[1..] == rest;
    assert s[1..] == PrintKvs(y, kvs) + close;
    if kvs == [] {
      assert s[1..] == close;
      assert s[2..] == rest;
    } else {
      assert s[1..][0] == PrintKv(y, kvs[0])[0];
      RoundTripKvs(y, kvs, c, close);
    }
  }

  lemma {:induction false} RoundTripDoc(y: Style, kvs: seq<KeyVal>, c: Config, m: TableRef, rest: seq<Token>)
    requires AllKvPrintable(y, kvs, c.mode)
    ensures Level(ATOMIC, c, m, Body(y, Doc(kvs)) + rest) == Ok(Expr(Doc(kvs), m), rest)
    decreases kvs, 5
  {
    hide Level, Document, PrintKvs, AllKvPrintable, Body;
    BracketBody(y, Doc(kvs));
    DocTokens(y, kvs, c.(blobs := false), rest);
    AtomicBracket(c, m, Body(y, Doc(kvs)) + rest, Doc(kvs), rest);
  }

  /** Printing a tree and parsing all of the tokens returns the tree. */
  lemma ParsePrint(y: Style, e: Tree, c: Config)
    requires Printable(y, e, c.mode, c.blobs)
    ensures Level(OR, c, NO_TABLE, Print(y, e, OR)) == Ok(Expr(e, Left(y, e, NO_TABLE)), [])
  {
    hide Level, Printable, Print, Left;
    RoundTripAt(y, e, OR, c, NO_TABLE, []);
    assert Print(y, e, OR) + [] == Print(y, e, OR);
  }

  // How operators group

  /** How tightly an operator binds, the tightest first. */
  function Precedence(op: OpName): nat {
    if op in {NStar, NSlash, NPercent} then 1
    else if op in {NPlus, NMinus} then 2
    else if op in {NLShift, NRShift} then 3
    else if op in {NBitAnd, NBitOr, NBitXor} then 4
    else if op in {NEq, NNe, NGt, NGe, NLt, NLe} then 5
    else if op == NAnd then 6
    else 7
  }

  lemma LevelsOrder(op1: OpName, op2: OpName)
    requires OpLevel(op1) != NO_LEVEL && OpLevel(op2) != NO_LEVEL
    ensures Precedence(op1) < Precedence(op2) <==> OpLevel(op1) < OpLevel(op2)
    ensures 0 < OpLevel(op1) <= OR
  {
  }

  predicate IsAtom(y: Style, e: Tree, c: Config) {
    Printable(y, e, c.mode, c.blobs) && NaturalLevel(e) == ATOMIC && !IsTilde(e)
  }

  lemma AtomIsRead(y: Style, e: Tree, l: nat, c: Config, m: TableRef, rest: seq<Token>)
    requires IsAtom(y, e, c) && l <= OR && Stops(l, rest)
    ensures Level(l, c, m, Print(y, e, ATOMIC) + rest) == Whole(y, e, m, rest)
    ensures Print(y, e, ATOMIC) != [] && !Print(y, e, ATOMIC)[0].ty.Tilde?
  {
    hide Level, Printable, Body, Left, Stops;
    Forms(y, e, l, NNot);
    Forms(y, e, ATOMIC, NNot);
    FirstToken(y, e, c.mode, c.blobs);
    RoundTripAt(y, e, l, c, m, rest);
  }

  /** `a op1 b`, read at the level of the operator or a looser one. */
  lemma TwoAtoms(y: Style, op: OpName, t: Token, a: Tree, b: Tree, l: nat, c: Config, m: TableRef, rest: seq<Token>)
    requires OpLevel(op) <= l <= OR && t in Spellings(op) && IsAtom(y, a, c) && IsAtom(y, b, c) && Stops(l, rest)
    ensures
      Level(l, c, m, Print(y, a, ATOMIC) + ([t] + (Print(y, b, ATOMIC) + rest)))
      == Ok(Expr(Op(op, [a, b]), Left(y, b, Left(y, a, m))), rest)
  {
    hide Level, Printable, Print, Left, Stops, Spellings, Binary, NaturalLevel;
    var k, right := OpLevel(op), Print(y, b, ATOMIC) + rest;
    var r := [t] + right;
    var s, m1 := Print(y, a, ATOMIC) + r, Left(y, a, m);
    SpellingIsRead(op, t, right);
    StopsBelow(l, rest);
    LevelsOrder(op, op);
    AtomIsRead(y, a, k - 1, c, m, r);
    AtomIsRead(y, b, k, c, m1, rest);
    assert r[1..] == right && s[0] == Print(y, a, ATOMIC)[0];
    BinaryStep(k, c, m, s, Expr(a, m1), r, Expr(b, Left(y, b, m1)), rest);
    Lift(k, l, c, m, s);
  }

  /** Without parentheses the operator that binds tighter takes its operands first, and operators that
      bind alike group to the right. */
  lemma Grouping(
    y: Style, op1: OpName, t1: Token, op2: OpName, t2: Token, a: Tree, b: Tree, d: Tree, c: Config, m: TableRef)
    requires OpLevel(op1) != NO_LEVEL && OpLevel(op2) != NO_LEVEL && t1 in Spellings(op1) && t2 in Spellings(op2)
    requires IsAtom(y, a, c) && IsAtom(y, b, c) && IsAtom(y, d, c)
    ensures
      var s := Print(y, a, ATOMIC) + ([t1] + (Print(y, b, ATOMIC) + ([t2] + Print(y, d, ATOMIC))));
      var tree :=
        if Precedence(op1) < Precedence(op2) then Op(op2, [Op(op1, [a, b]), d])
        else Op(op1, [a, Op(op2, [b, d])]);
      Level(OR, c, m, s) == Ok(Expr(tree, Left(y, d, Left(y, b, Left(y, a, m)))), [])
  {
    hide Level, Printable, Print, Left, Stops, Spellings, Binary, NaturalLevel;
    var last := Print(y, d, ATOMIC);
    var r2 := [t2] + last;
    var r1 := [t1] + (Print(y, b, ATOMIC) + r2);
    var s := Print(y, a, ATOMIC) + r1;
    var m1, m2 := Left(y, a, m), Left(y, b, Left(y, a, m));
    LevelsOrder(op1, op2);
    LevelsOrder(op2, op1);
    SpellingIsRead(op1, t1, Print(y, b, ATOMIC) + r2);
    SpellingIsRead(op2, t2, last);
    NothingStops();
    AtomIsRead(y, a, OpLevel(op1) - 1, c, m, r1);
    assert s[0] == Print(y, a, ATOMIC)[0];
    assert last + [] == last && r2[1..] == last && r1[1..] == Print(y, b, ATOMIC) + r2;
    if Precedence(op1) < Precedence(op2) {
      var l := OpLevel(op2);
      TwoAtoms(y, op1, t1, a, b, l - 1, c, m, r2);
      AtomIsRead(y, d, l, c, m2, []);
      BinaryStep(l, c, m, s, Expr(Op(op1, [a, b]), m2), r2, Expr(d, Left(y, d, m2)), []);
      Lift(l, OR, c, m, s);
    } else {
      var l := OpLevel(op1);
      TwoAtoms(y, op2, t2, b, d, l, c, m1, []);
      BinaryStep(l, c, m, s, Expr(a, m1), r1, Expr(Op(op2, [b, d]), Left(y, d, m2)), []);
      Lift(l, OR, c, m, s);
    }
  }

  lemma NothingStops()
    ensures forall l: nat :: Stops(l, [])
  {
  }

  // What the state left by an argument does to a call

  /** POSITION(a IN b), under any spelling `f` of the name. */
  function PositionTokens(y: Style, f: TableRef, a: Tree, b: Tree): seq<Token> {
    PrintTable(y, f) + [Sym(LParen)] + Print(y, a, COMP) + [KwTok(KwIn)] + Print(y, b, OR) + [Sym(RParen)]
  }

  /** For all printable arguments, POSITION(a IN b) is read if and only if reading `a` leaves the
      name POSITION in the parser, and then it is reported as LOCATE(a, b). */
  lemma PositionOfPrinted(y: Style, f: TableRef, a: Tree, b: Tree, c: Config, m: TableRef, rest: seq<Token>)
    requires IsFunc(f, "position") && Printable(y, a, c.mode, c.blobs) && Printable(y, b, c.mode, c.blobs)
    ensures
      var r := Level(ATOMIC, c, m, PositionTokens(y, f, a, b) + rest);
      && (r.Ok? <==> IsFunc(Left(y, a, f), "position"))
      && (r.Ok? ==> r == Ok(Expr(Call(TableRef("locate", ""), [a, b]), Left(y, b, Left(y, a, f))), rest))
  {
    hide Level, IsFunc, FunctionCall, Printable, Print, Left, Stops;
    var close := [Sym(RParen)] + rest;
    var tail := [KwTok(KwIn)] + (Print(y, b, OR) + close);
    var call := Print(y, a, COMP) + tail;
    assert PositionTokens(y, f, a, b) + rest == PrintTable(y, f) + ([Sym(LParen)] + call);
    PositionNamed(f);
    CallName(y, f, c, m, call);
    StopsAt(tail, close);
    RoundTripAt(y, a, COMP, c, f, tail);
    assert tail[1..] == Print(y, b, OR) + close;
    RoundTripAt(y, b, OR, c, Left(y, a, f), close);
    PositionCall(c, f, call, Expr(a, Left(y, a, f)), tail);
    assert close[1..] == rest;
  }

  lemma StopsAt(s: seq<Token>, t: seq<Token>)
    requires HeadKw(s, KwIn) && HeadIs(t, RParen)
    ensures Stops(COMP, s) && Stops(OR, t)
  {
  }

  /** With a column as first argument that is the case only if its table is called POSITION, with a
      document field only if it starts, without `$`, with that word alone, with a value always. */
  lemma PositionOfColumn(y: Style, f: TableRef, a: Tree, b: Tree, c: Config, m: TableRef, rest: seq<Token>)
    requires IsFunc(f, "position") && Printable(y, a, c.mode, c.blobs) && Printable(y, b, c.mode, c.blobs)
    ensures a.Col? ==> (Level(ATOMIC, c, m, PositionTokens(y, f, a, b) + rest).Ok? <==> IsFunc(a.ref.table, "position"))
    ensures a.Field? ==>
      (Level(ATOMIC, c, m, PositionTokens(y, f, a, b) + rest).Ok? <==>
        IsBare(y, a.field) && IsFunc(BareTable(a.field.els), "position"))
    ensures a.Val? || a.Param? ==> Level(ATOMIC, c, m, PositionTokens(y, f, a, b) + rest).Ok?
  {
    hide Level, IsFunc, Printable, Print, PositionTokens;
    PositionOfPrinted(y, f, a, b, c, m, rest);
    NoTable();
  }

  /** A name before IN is rejected whatever follows, unless it is a plain word in DOCUMENT mode that
      is itself POSITION. */
  lemma PositionOfName(f: TableRef, name: Token, c: Config, tail: seq<Token>)
    requires IsFunc(f, "position") && HeadKw(tail, KwIn)
    requires name.text != "" && (name.ty == QWord || (name.ty == Word && name.word == KwNone))
    ensures
      var t := TableRef(name.text, "");
      var b := Level(OR, c, t, tail[1..]);
      FunctionCall(c, f, [name] + tail).Ok? <==>
        c.mode == DOCUMENT && name.ty == Word && IsFunc(t, "position") && b.Ok? && HeadIs(b.rest, RParen)
  {
    hide Level, FunctionCall, IsFunc;
    var s := [name] + tail;
    assert s[1..] == tail;
    NameBeforeIn(c, f, s);
    var r := Level(ATOMIC, c, f, s);
    if r.Ok? {
      Lift(ATOMIC, COMP, c, f, s);
      PositionCall(c, f, s, r.val, tail);
      NoTable();
    } else {
      NothingAtName(COMP, c, f, s);
      PositionNamed(f);
      CallFails(c, f, s);
    }
  }

  lemma CallFails(c: Config, f: TableRef, s: seq<Token>)
    requires IsFunc(f, "position") && s != [] && !HeadIs(s, RParen) && Level(COMP, c, f, s).Err?
    ensures FunctionCall(c, f, s).Err?
  {
    hide Level, IsFunc, Args;
  }

  /** What is not an atom is not an expression, unless it starts with `~`. */
  lemma {:induction false} NothingAtName(l: nat, c: Config, m: TableRef, s: seq<Token>)
    requires l <= OR && Level(ATOMIC, c, m, s).Err? && !HeadIs(s, Tilde)
    ensures Level(l, c, m, s).Err?
    decreases l
  {
    hide Atomic, IlriTail;
    if l > ATOMIC {
      NothingAtName(l - 1, c, m, s);
    }
  }

  lemma NameBeforeIn(c: Config, m: TableRef, s: seq<Token>)
    requires s != [] && s[0].text != "" && HeadKw(s[1..], KwIn)
    requires s[0].ty == QWord || (s[0].ty == Word && s[0].word == KwNone)
    ensures
      var r, t := Level(ATOMIC, c, m, s), TableRef(s[0].text, "");
      if c.mode == TABLE then r == Ok(Expr(Col(ColumnRef(s[0].text, NO_TABLE), None), NO_TABLE), s[1..])
      else if s[0].ty == QWord then r.Err?
      else r == Ok(Expr(Field(Steps([Member(s[0].text)])), t), s[1..])
  {
    hide Level, FunctionCall;
    AtomicIdent(c, m, s);
    assert [Member(s[0].text)] + [] == [Member(s[0].text)];
  }

  /** The IN form of a call is accepted if and only if the name is still POSITION when IN is
      reached and the rest is well formed. */
  lemma PositionCall(c: Config, f: TableRef, s: seq<Token>, a: Expr, r: seq<Token>)
    requires IsFunc(f, "position") && Level(COMP, c, f, s) == Ok(a, r) && HeadKw(r, KwIn)
    ensures
      var b := Level(OR, c, a.m, r[1..]);
      FunctionCall(c, f, s).Ok? <==> IsFunc(a.m, "position") && b.Ok? && HeadIs(b.rest, RParen)
    ensures FunctionCall(c, f, s).Ok? ==>
      var b := Level(OR, c, a.m, r[1..]);
      FunctionCall(c, f, s) == Ok(Expr(Call(TableRef("locate", ""), [a.tree, b.val.tree]), b.val.m), b.rest[1..])
  {
    hide Level, IsFunc, Args;
    PositionNamed(f);
    if s == [] || HeadIs(s, RParen) {
      NothingAtParen(c, f, s);
    }
  }

  lemma NothingAtParen(c: Config, m: TableRef, s: seq<Token>)
    requires s == [] || HeadIs(s, RParen)
    ensures Level(COMP, c, m, s).Err?
  {
    hide Level;
    NoAtomAtParen(c, m, s);
    assert Level(ATOMIC, c, m, s) == Atomic(c, m, s) by { AtomicLevel(c, m, s); }
    NothingAtName(COMP, c, m, s);
  }

  lemma AtomicLevel(c: Config, m: TableRef, s: seq<Token>)
    ensures Level(ATOMIC, c, m, s) == Atomic(c, m, s)
  {
    hide Atomic;
  }

  lemma NoAtomAtParen(c: Config, m: TableRef, s: seq<Token>)
    requires s == [] || HeadIs(s, RParen)
    ensures Atomic(c, m, s).Err?
  {
    hide Document, Array, Cast, Literal, Level, FunctionCall, Column, DocPath.MoreSteps;
    if s != [] {
      assert Atomic(c, m, s) == Ident(c, s);
      assert SchemaIdent(s) == SchemaId(false, TableRef("", ""), false, s);
    }
  }

  function SmallLetter(c: char): char { if c in "ABCDEFGHIJKLMNOPQRSTUVWXYZ" then (c as int + 32) as char else c }

  /** A function has a special name if it has no schema and the name is the same but for the case of its
      letters. */
  lemma {:induction false} NameInAnyCase(f: TableRef, name: string)
    ensures IsFunc(f, name) <==>
      f.schema == "" && |f.name| == |name| && forall i :: 0 <= i < |name| ==> name[i] == SmallLetter(f.name[i])
    decreases |name|
  {
    hide SmallLetter;
    if f.name != "" && name != "" {
      SmallLetterIs(f.name[0]);
      NameInAnyCase(TableRef(f.name[1..], f.schema), name[1..]);
      assert Lower(f.name) == [SmallLetter(f.name[0])] + Lower(f.name[1..]);
      assert name == [name[0]] + name[1..];
      assert Lower(f.name) == name <==> SmallLetter(f.name[0]) == name[0] && Lower(f.name[1..]) == name[1..];
      if IsFunc(TableRef(f.name[1..], f.schema), name[1..]) && SmallLetter(f.name[0]) == name[0] {
        forall i | 0 <= i < |name|
          ensures name[i] == SmallLetter(f.name[i])
        {
          assert i > 0 ==> name[i] == name[1..][i - 1] && f.name[i] == f.name[1..][i - 1];
        }
      }
    }
  }

  lemma SmallLetterIs(c: char)
    ensures SmallLetter(c) == if 'A' <= c <= 'Z' then (c as int + 32) as char else c
  {
  }

  lemma PositionNamed(f: TableRef)
    requires IsFunc(f, "position")
    ensures !IsFunc(f, "trim") && f.name != ""
  {
    hide Lower;
    if f.name == "" {
      NoTable();
    }
  }

  lemma NoTable()
    ensures !IsFunc(NO_TABLE, "position")
  {
    assert Lower("") == "";
  }

  // What IS reports

  function LiteralValue(k: Keyword): Value {
    if k == KwNull then VNull else VBool(k == KwTrue)
  }

  /** IS and IS NOT accept exactly the literals TRUE, FALSE and NULL, and report the literal's own
      value if and only if it is not FALSE, for which they report true. */
  lemma IsReports(c: Config, a: Expr, s: seq<Token>)
    ensures
      var isNot := HeadKw(s, KwNot);
      var s1 := if isNot then s[1..] else s;
      var r := IlriTail(c, NIs, false, a, s);
      && (r.Ok? <==> s1 != [] && s1[0].Kw() in {KwTrue, KwFalse, KwNull})
      && (r.Ok? ==>
            && r.rest == s1[1..]
            && (r.val.tree == Op(if isNot then NIsNot else NIs, [a.tree, Val(LiteralValue(s1[0].Kw()))]) <==>
              s1[0].Kw() != KwFalse)
            && (s1[0].Kw() == KwFalse ==> r.val.tree == Op(if isNot then NIsNot else NIs, [a.tree, Val(VBool(true))])))
  {
    hide Level, Args;
  }

  /** So an expression followed by IS FALSE and by IS TRUE is the same tree. */
  lemma IsFalseIsTrue(c: Config, m: TableRef, s: seq<Token>, t: seq<Token>, a: Expr, not: bool, rest: seq<Token>)
    requires Level(COMP, c, m, s) == Ok(a, IsTokens(not, KwFalse) + rest)
    requires Level(COMP, c, m, t) == Ok(a, IsTokens(not, KwTrue) + rest)
    ensures Level(ILRI, c, m, s) == Level(ILRI, c, m, t)
         == Ok(Expr(Op(if not then NIsNot else NIs, [a.tree, Val(VBool(true))]), a.m), rest)
  {
    hide Level, IlriTail;
    IsStep(c, m, s, a, not, KwFalse, rest);
    IsStep(c, m, t, a, not, KwTrue, rest);
  }

  function IsTokens(not: bool, k: Keyword): seq<Token> {
    [KwTok(KwIs)] + (if not then [KwTok(KwNot)] else []) + [KwTok(k)]
  }

  lemma IsStep(c: Config, m: TableRef, s: seq<Token>, a: Expr, not: bool, k: Keyword, rest: seq<Token>)
    requires k == KwTrue || k == KwFalse
    requires Level(COMP, c, m, s) == Ok(a, IsTokens(not, k) + rest)
    ensures Level(ILRI, c, m, s) == Ok(Expr(Op(if not then NIsNot else NIs, [a.tree, Val(VBool(true))]), a.m), rest)
  {
    hide Level, IlriTail, Ilri;
    var r := IsTokens(not, k) + rest;
    var tail := (if not then [KwTok(KwNot)] else []) + ([KwTok(k)] + rest);
    assert r == [KwTok(KwIs)] + tail;
    IsDispatch(c, m, s, a, tail);
    assert not ==> tail[1..] == [KwTok(k)] + rest;
    assert !not ==> tail == [KwTok(k)] + rest;
    assert ([KwTok(k)] + rest)[1..] == rest;
    IsReports(c, a, tail);
    IsKeeps(c, a, tail);
  }

  lemma IsDispatch(c: Config, m: TableRef, s: seq<Token>, a: Expr, tail: seq<Token>)
    requires Level(COMP, c, m, s) == Ok(a, [KwTok(KwIs)] + tail)
    ensures Level(ILRI, c, m, s) == IlriTail(c, NIs, false, a, tail)
  {
    hide Level, IlriTail;
    assert ([KwTok(KwIs)] + tail)[1..] == tail;
    LevelIlri(c, m, s);
  }

  lemma IsKeeps(c: Config, a: Expr, s: seq<Token>)
    ensures IlriTail(c, NIs, false, a, s).Ok? ==> IlriTail(c, NIs, false, a, s).val.m == a.m
  {
    hide Level, Args;
  }
}
