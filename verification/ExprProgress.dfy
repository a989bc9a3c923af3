/** The cursor only moves forward: what a rule leaves is the end of what it was given. */
module ExprProgress {
  import opened Wrappers
  import opened ExprSyntax
  import opened ExprGrammar
  import DocPath

  predicate Tail(r: seq<Token>, s: seq<Token>) { |r| <= |s| && s[|s| - |r|..] == r }

  predicate Forward<T>(r: Parsed<T>, s: seq<Token>) { r.Ok? ==> Tail(r.rest, s) }

  lemma Drop(s: seq<Token>, k: nat)
    requires k <= |s|
    ensures Tail(s[k..], s)
  {
  }

  lemma Onward(r: seq<Token>, t: seq<Token>, s: seq<Token>)
    requires Tail(r, t) && Tail(t, s)
    ensures Tail(r, s)
  {
    assert s[|s| - |t|..][|t| - |r|..] == s[|s| - |r|..];
  }

  /** What is left of what follows the first `k` tokens. */
  lemma After(r: seq<Token>, s: seq<Token>, k: nat)
    requires k <= |s| && Tail(r, s[k..])
    ensures Tail(r, s)
  {
    hide Tail;
    Drop(s, k);
    Onward(r, s[k..], s);
  }

  lemma Here(s: seq<Token>)
    ensures Tail(s, s)
  {
  }

  /** An expected token. */
  lemma Expected(s: seq<Token>, ty: TokType, k: Keyword)
    ensures Forward(Expect(s, ty), s) && Forward(ExpectKw(s, k), s)
  {
  }

  // Document paths

  lemma StepForward(s: seq<Token>)
    requires DocPath.StartsStep(s)
    ensures Forward(DocPath.Step(s), s)
  {
    hide Tail;
    Drop(s, 1);
    if |s| > 1 {
      Drop(s, 2);
      Expected(s[2..], RSq, KwIn);
      if Expect(s[2..], RSq).Ok? {
        After(Expect(s[2..], RSq).rest, s, 2);
      }
    }
  }

  lemma {:induction false} MoreStepsForward(s: seq<Token>)
    ensures Forward(DocPath.MoreSteps(s), s)
    decreases |s|
  {
    hide Tail, DocPath.Step;
    Here(s);
    if DocPath.StartsStep(s) && DocPath.Step(s).Ok? {
      var r := DocPath.Step(s).rest;
      StepForward(s);
      MoreStepsForward(r);
      if DocPath.MoreSteps(r).Ok? {
        Onward(DocPath.MoreSteps(r).rest, r, s);
      }
    }
  }

  lemma PathForward(s: seq<Token>, requireDot: bool)
    ensures Forward(DocPath.PathFrom(s, requireDot), s)
  {
    hide Tail, DocPath.MoreSteps;
    Here(s);
    if s != [] {
      MoreStepsForward(s[1..]);
      if DocPath.MoreSteps(s[1..]).Ok? {
        After(DocPath.MoreSteps(s[1..]).rest, s, 1);
      }
    }
    if HeadIs(s, Dot) && DocPath.DotMember(s).Ok? {
      var r := DocPath.DotMember(s).rest;
      Drop(s, 2);
      MoreStepsForward(r);
      if DocPath.MoreSteps(r).Ok? {
        Onward(DocPath.MoreSteps(r).rest, r, s);
      }
    }
  }

  lemma FieldForward(s: seq<Token>, prefix: bool)
    ensures Forward(DocPath.FieldFrom(s, prefix), s)
  {
    hide Tail, DocPath.PathFrom;
    PathForward(s, false);
    if s != [] {
      PathForward(s[1..], true);
      if DocPath.PathFrom(s[1..], true).Ok? {
        After(DocPath.PathFrom(s[1..], true).rest, s, 1);
      }
    }
  }

  // Expressions

  lemma {:induction false} LevelForward(l: nat, c: Config, m: TableRef, s: seq<Token>)
    requires l <= OR
    ensures Forward(Level(l, c, m, s), s)
    decreases |s|, 1 + l, 1
  {
    hide Tail, Atomic, Ilri;
    if l == ATOMIC {
      AtomicForward(c, m, s);
    } else if l == ILRI {
      IlriForward(c, m, s);
    } else if l == BIT && HeadIs(s, Tilde) {
      LevelForward(ATOMIC, c, m, s[1..]);
      var a := Level(ATOMIC, c, m, s[1..]);
      if a.Ok? {
        After(a.rest, s, 1);
      }
    } else {
      LevelForward(l - 1, c, m, s);
      var a := Level(l - 1, c, m, s);
      if a.Ok? && BinaryLevel(a.rest) == l {
        LevelForward(l, c, a.val.m, a.rest[1..]);
        var b := Level(l, c, a.val.m, a.rest[1..]);
        if b.Ok? {
          After(b.rest, a.rest, 1);
          Onward(b.rest, a.rest, s);
        }
      }
    }
  }

  lemma {:induction false} IlriForward(c: Config, m: TableRef, s: seq<Token>)
    ensures Forward(Ilri(c, m, s), s)
    decreases |s|, 1 + ILRI, 0
  {
    hide Tail, Level, IlriTail;
    LevelForward(COMP, c, m, s);
    var a := Level(COMP, c, m, s);
    if a.Ok? {
      var r := a.rest;
      var neg := HeadKw(r, KwNot);
      var r1 := if neg then r[1..] else r;
      if BinaryLevel(r1) == ILRI {
        var k := if neg then 2 else 1;
        assert r1[1..] == r[k..];
        IlriTailForward(c, Binary(r1[0]).name, neg, a.val, r1[1..]);
        var t := IlriTail(c, Binary(r1[0]).name, neg, a.val, r1[1..]);
        if t.Ok? {
          After(t.rest, r, k);
          Onward(t.rest, r, s);
        }
      }
    }
  }

  lemma {:induction false} IlriTailForward(c: Config, op: OpName, neg: bool, a: Expr, s: seq<Token>)
    ensures Forward(IlriTail(c, op, neg, a, s), s)
    decreases |s|, 1 + ILRI, 0
  {
    hide Tail, Level, Args;
    if op == NIs {
      IsForward(c, neg, a, s);
    } else if op == NIn && HeadIs(s, LParen) {
      InListForward(c, neg, a, s);
    } else if op in {NIn, NLike, NRLike, NRegexp, NBetween} {
      LevelForward(COMP, c, a.m, s);
      var b := Level(COMP, c, a.m, s);
      if op == NBetween && b.Ok? && HeadKw(b.rest, KwAnd) {
        var r := b.rest[1..];
        LevelForward(COMP, c, b.val.m, r);
        var d := Level(COMP, c, b.val.m, r);
        if d.Ok? {
          After(d.rest, b.rest, 1);
          Onward(d.rest, b.rest, s);
        }
      }
    }
  }

  lemma IsForward(c: Config, neg: bool, a: Expr, s: seq<Token>)
    ensures Forward(IlriTail(c, NIs, neg, a, s), s)
  {
    hide Tail, Level, Args;
    if s != [] {
      Drop(s, 1);
      if |s| > 1 {
        Drop(s, 2);
        assert s[1..][1..] == s[2..];
      }
    }
  }

  lemma {:induction false} InListForward(c: Config, neg: bool, a: Expr, s: seq<Token>)
    requires HeadIs(s, LParen)
    ensures Forward(IlriTail(c, NIn, neg, a, s), s)
    decreases |s|, 0
  {
    hide Tail, Level, Args;
    ArgsForward(c.(blobs := true), s[1..]);
    var args := Args(c.(blobs := true), s[1..]);
    if args.Ok? && HeadIs(args.rest, RParen) {
      Closed(args.rest, s, 1);
    }
  }

  /** A closing token after what is left of the text after `k` tokens. */
  lemma Closed(r: seq<Token>, s: seq<Token>, k: nat)
    requires k <= |s| && Tail(r, s[k..]) && r != []
    ensures Tail(r[1..], s)
  {
    hide Tail;
    After(r, s, k);
    Drop(r, 1);
    Onward(r[1..], r, s);
  }

  lemma {:induction false} ArgsForward(c: Config, s: seq<Token>)
    ensures Forward(Args(c, s), s)
    decreases |s|, 1 + OR, 2
  {
    hide Tail, Level;
    LevelForward(OR, c, NO_TABLE, s);
    var e := Level(OR, c, NO_TABLE, s);
    if e.Ok? && HeadIs(e.rest, Comma) {
      ArgsForward(c, e.rest[1..]);
      var es := Args(c, e.rest[1..]);
      if es.Ok? {
        After(es.rest, e.rest, 1);
        Onward(es.rest, e.rest, s);
      }
    }
  }

  lemma {:induction false} AtomicForward(c: Config, m: TableRef, s: seq<Token>)
    ensures Forward(Atomic(c, m, s), s)
    decreases |s|, 1, 0
  {
    hide Tail, Document, Array, Level, Cast, Literal, Ident, Expect;
    if s == [] {
    } else if s[0].ty == LCurly {
      DocumentForward(c.(blobs := false), s);
    } else if s[0].ty == LSq {
      ArrayForward(c.(blobs := false), s);
    } else if s[0].ty == LParen {
      ParensForward(c, m, s);
    } else if s[0].ty == Colon {
      Expected(s[1..], Word, KwIn);
      if Expect(s[1..], Word).Ok? {
        After(Expect(s[1..], Word).rest, s, 1);
      }
    } else if s[0].ty == Star {
      Drop(s, 1);
    } else if HeadKw(s, KwCast) {
      CastForward(c, m, s[1..]);
      if Cast(c, m, s[1..]).Ok? {
        After(Cast(c, m, s[1..]).rest, s, 1);
      }
    } else if SignedLiteral(s) {
      LiteralForward(c, s[0].ty.Minus?, s[1..]);
      if Literal(c, s[0].ty.Minus?, s[1..]).Ok? {
        After(Literal(c, s[0].ty.Minus?, s[1..]).rest, s, 1);
      }
    } else if Unary(s[0]).Some? {
      LevelForward(ATOMIC, c, m, s[1..]);
      if Level(ATOMIC, c, m, s[1..]).Ok? {
        After(Level(ATOMIC, c, m, s[1..]).rest, s, 1);
      }
    } else if IsLiteral(s[0]) {
      LiteralForward(c, false, s);
    } else {
      IdentForward(c, s);
    }
  }

  lemma {:induction false} ParensForward(c: Config, m: TableRef, s: seq<Token>)
    requires HeadIs(s, LParen)
    ensures Forward(Atomic(c, m, s), s)
    decreases |s|, 0, 3
  {
    hide Tail, Document, Array, Level, Cast, Literal, Ident;
    LevelForward(OR, c, m, s[1..]);
    var e := Level(OR, c, m, s[1..]);
    if e.Ok? && HeadIs(e.rest, RParen) {
      Closed(e.rest, s, 1);
    }
  }

  lemma LiteralForward(c: Config, neg: bool, s: seq<Token>)
    requires s != [] && IsLiteral(s[0])
    ensures Forward(Literal(c, neg, s), s)
  {
    hide Tail, ToNat, IsLiteral;
    Drop(s, 1);
  }

  lemma {:induction false} CastForward(c: Config, m: TableRef, s: seq<Token>)
    ensures Forward(Cast(c, m, s), s)
    decreases |s|, 0, 0
  {
    hide Tail, Level, CastType;
    if HeadIs(s, LParen) {
      LevelForward(OR, c, m, s[1..]);
      var e := Level(OR, c, m, s[1..]);
      if e.Ok? && HeadKw(e.rest, KwAs) {
        Closed(e.rest, s, 1);
        var r := e.rest[1..];
        TypeForward(r);
        if CastType(r).Ok? && HeadIs(CastType(r).rest, RParen) {
          Onward(CastType(r).rest, r, s);
          Drop(CastType(r).rest, 1);
          Onward(CastType(r).rest[1..], CastType(r).rest, s);
        }
      }
    }
  }

  lemma TypeForward(s: seq<Token>)
    ensures Forward(CastType(s), s)
  {
    hide Tail, Dimension;
    if s != [] {
      Drop(s, 1);
      DimensionForward("BINARY", false, s[1..]);
      DimensionForward("CHAR", false, s[1..]);
      DimensionForward("DECIMAL", true, s[1..]);
      forall r | Tail(r, s[1..])
        ensures Tail(r, s)
      {
        After(r, s, 1);
      }
      if |s| > 1 {
        Drop(s[1..], 1);
      }
    }
  }

  lemma DimensionForward(name: string, two: bool, s: seq<Token>)
    ensures Forward(Dimension(name, two, s), s)
  {
    hide Tail;
    Here(s);
    if |s| >= 3 {
      assert s[1..][1..] == s[2..] && s[2..][1..] == s[3..];
      Drop(s, 3);
    }
    if |s| >= 5 {
      assert s[3..][1..] == s[4..] && s[4..][1..] == s[5..];
      Drop(s, 5);
    }
  }

  lemma SchemaForward(s: seq<Token>)
    ensures Tail(SchemaIdent(s).rest, s)
  {
    hide Tail;
    Here(s);
    if s != [] {
      Drop(s, 1);
    }
    if |s| > 1 {
      Drop(s, 2);
    }
    if |s| > 2 {
      Drop(s, 3);
    }
  }

  lemma {:induction false} IdentForward(c: Config, s: seq<Token>)
    ensures Forward(Ident(c, s), s)
    decreases |s|, 0, 1
  {
    hide Tail, SchemaIdent, FunctionCall, Column, DocPath.FieldFrom, DocPath.MoreSteps;
    var id := SchemaIdent(s);
    SchemaForward(s);
    if id.ok && id.table.name != "" && HeadIs(id.rest, LParen) {
      FunctionForward(c, id.table, id.rest[1..]);
      var f := FunctionCall(c, id.table, id.rest[1..]);
      if f.Ok? {
        After(f.rest, id.rest, 1);
        Onward(f.rest, id.rest, s);
      }
    } else {
      ColumnForward(c, id.table, id.rest);
      FieldForward(id.rest, true);
      MoreStepsForward(id.rest);
      forall r | Tail(r, id.rest)
        ensures Tail(r, s)
      {
        Onward(r, id.rest, s);
      }
    }
  }

  lemma ColumnForward(c: Config, t: TableRef, s: seq<Token>)
    ensures Forward(Column(c, t, s), s)
  {
    hide Tail, ColumnPath;
    ColumnPathForward(c, ColumnRef(t.name, TableRef(t.schema, "")), s);
    if HeadIs(s, Dot) && IsIdent(s[1..]) {
      ColumnPathForward(c, ColumnRef(s[1].text, t), s[2..]);
      var r := ColumnPath(c, ColumnRef(s[1].text, t), s[2..]);
      if r.Ok? {
        After(r.rest, s, 2);
      }
    }
  }

  lemma ColumnPathForward(c: Config, col: ColumnRef, s: seq<Token>)
    ensures Forward(ColumnPath(c, col, s), s)
  {
    hide Tail, DocPath.FieldFrom;
    Here(s);
    if s != [] {
      FieldForward(s[1..], true);
      if DocPath.FieldFrom(s[1..], true).Ok? {
        After(DocPath.FieldFrom(s[1..], true).rest, s, 1);
      }
    }
    if |s| > 1 {
      Drop(s, 2);
    }
  }

  lemma {:induction false} FunctionForward(c: Config, f: TableRef, s: seq<Token>)
    ensures Forward(FunctionCall(c, f, s), s)
    decreases |s|, 1 + OR, 2
  {
    hide Tail, Level, Args, IsFunc, TrimClause, SpecialError;
    if HeadIs(s, RParen) {
      Drop(s, 1);
    } else {
      var l := if IsFunc(f, "position") then COMP else OR;
      LevelForward(l, c, f, s);
      var a := Level(l, c, f, s);
      if a.Ok? && a.rest != [] {
        RestForward(c, a.val, a.rest, s);
      }
    }
  }

  /** What can follow the first argument of a call. */
  lemma {:induction false} RestForward(c: Config, a: Expr, r: seq<Token>, s: seq<Token>)
    requires r != [] && Tail(r, s) && |r| < |s|
    ensures Tail(r[1..], s)
    ensures
      var more := Args(c.(blobs := false), r[1..]);
      more.Ok? && more.rest != [] ==> Tail(more.rest[1..], s)
    ensures
      var b := Level(OR, c, a.m, r[1..]);
      b.Ok? && b.rest != [] ==> Tail(b.rest[1..], s)
    decreases |r|, 1 + OR, 3
  {
    hide Tail, Level, Args;
    Drop(r, 1);
    Onward(r[1..], r, s);
    ArgsForward(c.(blobs := false), r[1..]);
    LevelForward(OR, c, a.m, r[1..]);
    forall t | Tail(t, r[1..]) && t != []
      ensures Tail(t[1..], s)
    {
      Closed(t, r, 1);
      Onward(t[1..], r, s);
    }
  }

  lemma {:induction false} AnyForward(c: Config, s: seq<Token>)
    ensures Forward(AnyValue(c, s), s)
    decreases |s|, 1 + OR, 2
  {
    hide Tail, Level, Document, Array;
    if HeadIs(s, LCurly) {
      DocumentForward(c, s);
    } else if HeadIs(s, LSq) {
      ArrayForward(c, s);
    } else {
      LevelForward(OR, c, NO_TABLE, s);
    }
  }

  lemma {:induction false} ArrayForward(c: Config, s: seq<Token>)
    requires HeadIs(s, LSq)
    ensures Forward(Array(c, s), s)
    decreases |s|, 0, 0
  {
    hide Tail, Elements;
    if HeadIs(s[1..], RSq) {
      Drop(s, 2);
    } else {
      ElementsForward(c, s[1..]);
      var es := Elements(c, s[1..]);
      if es.Ok? && HeadIs(es.rest, RSq) {
        Closed(es.rest, s, 1);
      }
    }
  }

  lemma {:induction false} ElementsForward(c: Config, s: seq<Token>)
    ensures Forward(Elements(c, s), s)
    decreases |s|, 1 + OR, 3
  {
    hide Tail, AnyValue;
    AnyForward(c, s);
    var e := AnyValue(c, s);
    if e.Ok? && HeadIs(e.rest, Comma) {
      ElementsForward(c, e.rest[1..]);
      var es := Elements(c, e.rest[1..]);
      if es.Ok? {
        After(es.rest, e.rest, 1);
        Onward(es.rest, e.rest, s);
      }
    }
  }

  lemma {:induction false} DocumentForward(c: Config, s: seq<Token>)
    requires HeadIs(s, LCurly)
    ensures Forward(Document(c, s), s)
    decreases |s|, 0, 0
  {
    hide Tail, KeyVals;
    if HeadIs(s[1..], RCurly) {
      Drop(s, 2);
    } else {
      KeyValsForward(c, s[1..]);
      var kvs := KeyVals(c, s[1..]);
      if kvs.Ok? && HeadIs(kvs.rest, RCurly) {
        Closed(kvs.rest, s, 1);
      }
    }
  }

  lemma {:induction false} PairForward(c: Config, s: seq<Token>)
    ensures Forward(Pair(c, s), s)
    decreases |s|, 0, 0
  {
    hide Tail, AnyValue;
    if |s| > 1 && HeadIs(s[1..], Colon) {
      assert s[1..][1..] == s[2..];
      AnyForward(c, s[2..]);
      if AnyValue(c, s[2..]).Ok? {
        After(AnyValue(c, s[2..]).rest, s, 2);
      }
    }
  }

  lemma {:induction false} KeyValsForward(c: Config, s: seq<Token>)
    ensures Forward(KeyVals(c, s), s)
    decreases |s|, 0, 1
  {
    hide Tail, Pair;
    PairForward(c, s);
    var kv := Pair(c, s);
    if kv.Ok? && HeadIs(kv.rest, Comma) {
      KeyValsForward(c, kv.rest[1..]);
      var kvs := KeyVals(c, kv.rest[1..]);
      if kvs.Ok? {
        After(kvs.rest, kv.rest, 1);
        Onward(kvs.rest, kv.rest, s);
      }
    }
  }

  /** A successful parse of an expression leaves a proper end of its tokens. */
  lemma CursorMovesForward(l: nat, c: Config, m: TableRef, s: seq<Token>)
    requires l <= OR && Level(l, c, m, s).Ok?
    ensures
      var k := |s| - |Level(l, c, m, s).rest|;
      0 < k <= |s| && Level(l, c, m, s).rest == s[k..]
  {
    hide Level;
    LevelForward(l, c, m, s);
  }
}
