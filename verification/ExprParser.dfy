/** The expression parser itself: a cursor over the tokens, a processor that may be null,
    and operands that are stored and replayed. Every method is proved against the grammar. */
module ExprParser {
  import opened Wrappers
  import opened ExprSyntax
  import opened ExprGrammar
  import opened ExprStorage
  import DocPath
  import DocPathParser

  /** Outcome of a parsing method: a thrown parse error, or a value. */
  datatype Out<+T> = Failed(at: nat) | Done(val: T) {
    predicate IsFailure() { Failed? }

    function PropagateFailure<U>(): Out<U>
      requires Failed?
    {
      Failed(at)
    }

    function Extract(): T
      requires Done?
    {
      val
    }
  }

  /** With a processor the expression is reported to it; without one it is stored and returned. */
  datatype Result = Reported(events: seq<Event>) | Returned(expr: Stored)

  // Agreement with the grammar, up to the order and repetition of document keys

  ghost predicate Reports(es: seq<Event>, t: Tree) {
    exists u :: es == Events(u) && Mean(u) == Mean(t)
  }

  ghost predicate ReportsList(es: seq<Event>, ts: seq<Tree>) {
    exists us :: es == ListEvents(us) && MeanList(us) == MeanList(ts)
  }

  ghost predicate ReportsKvs(es: seq<Event>, kvs: seq<KeyVal>) {
    exists us :: es == KvEvents(us) && MeanKvs(us) == MeanKvs(kvs)
  }

  ghost predicate Holds(s: Stored, t: Tree) { Wf(s) && Mean(TreeOf(s)) == Mean(t) }

  ghost predicate Delivers(prc: bool, r: Result, t: Tree) {
    if prc then r.Reported? && Reports(r.events, t) else r.Returned? && Holds(r.expr, t)
  }

  // Handing over an expression

  /** Callbacks go to the processor, or to a new storage object which is returned. */
  function Deliver(prc: bool, es: seq<Event>): Result {
    if prc then Reported(es)
    else match StoreAny(es)
      case Took(s, _) => Returned(s)
      case Stuck => Reported(es)
  }

  lemma DeliverDelivers(prc: bool, es: seq<Event>, t: Tree)
    requires Reports(es, t)
    ensures Delivers(prc, Deliver(prc, es), t)
  {
    hide Events, Mean, StoreAny, StoredOf, Wf, TreeOf;
    var u :| es == Events(u) && Mean(u) == Mean(t);
    StoreEvents(u, []);
    assert Events(u) + [] == Events(u);
    StoredMeaning(u);
  }

  /** An already stored operand is replayed to the processor or returned as it is. */
  function Forward(prc: bool, s: Stored): Result { if prc then Reported(Replay(s)) else Returned(s) }

  lemma ForwardDelivers(prc: bool, s: Stored, t: Tree)
    requires Holds(s, t)
    ensures Delivers(prc, Forward(prc, s), t)
  {
    hide Replay, Events, Mean, Wf, TreeOf;
    ReplayIsEvents(s);
  }

  /** An infix operator with a stored first operand. To a processor the operand is replayed as
      first argument; the storage object for operators keeps it and answers null for it. */
  function Infix(prc: bool, op: OpName, first: Stored, more: seq<Event>): Result {
    if prc then Reported([EScalar, EOp(op), EListBegin, EListEl] + Replay(first) + more + [EListEnd])
    else match StoreScalar(Some(first), [EOp(op), EListBegin, EListEl] + more + [EListEnd])
      case Took(s, _) => Returned(s)
      case Stuck => Reported([])
  }

  lemma InfixDelivers(prc: bool, op: OpName, first: Stored, a: Tree, more: seq<Event>, ts: seq<Tree>)
    requires Holds(first, a) && ReportsList(more, ts)
    ensures Delivers(prc, Infix(prc, op, first, more), Op(op, [a] + ts))
  {
    var us :| more == ListEvents(us) && MeanList(us) == MeanList(ts);
    if prc {
      InfixReported(op, first, a, us, ts);
    } else {
      InfixStored(op, first, us);
      InfixMeaning(op, first, a, us, ts);
    }
  }

  lemma InfixReported(op: OpName, first: Stored, a: Tree, us: seq<Tree>, ts: seq<Tree>)
    requires Holds(first, a) && MeanList(us) == MeanList(ts)
    ensures Reports([EScalar, EOp(op), EListBegin, EListEl] + Replay(first) + ListEvents(us) + [EListEnd],
      Op(op, [a] + ts))
  {
    hide Replay, TreeOf, Wf, ListEvents, MeanList;
    ReplayIsEvents(first);
    var args := [EListEl] + Replay(first) + ListEvents(us);
    ReportsCons(TreeOf(first), a, us, ts);
    ReportsApply(KOp(op), args, [a] + ts);
    assert [EScalar, EOp(op), EListBegin] + args + [EListEnd]
        == [EScalar, EOp(op), EListBegin, EListEl] + Replay(first) + ListEvents(us) + [EListEnd];
  }

  lemma ReportsCons(u: Tree, t: Tree, us: seq<Tree>, ts: seq<Tree>)
    requires Mean(u) == Mean(t) && MeanList(us) == MeanList(ts)
    ensures ReportsList([EListEl] + Events(u) + ListEvents(us), [t] + ts)
  {
    hide Mean, Events;
    var all := [u] + us;
    assert all[1..] == us && ([t] + ts)[1..] == ts;
    assert ListEvents(all) == [EListEl] + Events(u) + ListEvents(us);
    assert MeanList(all) == MeanList([t] + ts);
  }

  lemma InfixStored(op: OpName, first: Stored, us: seq<Tree>)
    ensures StoreScalar(Some(first), [EOp(op), EListBegin, EListEl] + ListEvents(us) + [EListEnd])
         == Took(SApply(KOp(op), Some(first), StoredList(us)), [])
  {
    hide ListEvents, StoredList, StoreAny;
    var es := [EOp(op), EListBegin, EListEl] + ListEvents(us) + [EListEnd];
    var body := ListEvents(us) + ([EListEnd] + []);
    assert es[1..][0] == EListBegin;
    assert es[2..] == [EListEl] + body && es[2..][1..] == body;
    StoreListEvents([], us, []);
    assert [] + StoredList(us) == StoredList(us);
  }

  lemma MeanCons(a: Tree, b: Tree, us: seq<Tree>, ts: seq<Tree>)
    requires Mean(a) == Mean(b) && MeanList(us) == MeanList(ts)
    ensures MeanList([a] + us) == MeanList([b] + ts)
  {
    hide Mean;
    assert ([a] + us)[1..] == us && ([b] + ts)[1..] == ts;
  }

  lemma InfixTree(op: OpName, first: Stored, args: seq<Stored>)
    requires Wf(first) && WfList(args)
    ensures Wf(SApply(KOp(op), Some(first), args))
    ensures Mean(TreeOf(SApply(KOp(op), Some(first), args))) ==
      MApply(KOp(op), MeanList([TreeOf(first)] + TreeList(args)))
  {
    hide WfList, MeanList, TreeList;
  }

  lemma InfixMeaning(op: OpName, first: Stored, a: Tree, us: seq<Tree>, ts: seq<Tree>)
    requires Holds(first, a) && MeanList(us) == MeanList(ts)
    ensures Holds(SApply(KOp(op), Some(first), StoredList(us)), Op(op, [a] + ts))
  {
    hide StoredList, MeanList, TreeList, TreeOf, Wf, WfList;
    StoredListMeaning(us);
    InfixTree(op, first, StoredList(us));
    MeanCons(TreeOf(first), a, TreeList(StoredList(us)), ts);
  }

  /** The rest of a call after its first argument. */
  function CallTail(c: Config, fn: TableRef, a: Expr, r: seq<Token>): Parsed<Expr> {
    if HeadIs(r, Comma) then
      var (args, r1) :- Args(c.(blobs := false), r[1..]);
      var (_, r2) :- Expect(r1, RParen);
      Ok(Expr(Call(fn, [a.tree] + args), a.m), r2)
    else if SpecialError(a.m, r) then Err(|r|)
    else if IsFunc(a.m, "position") then
      var (_, r1) :- ExpectKw(r, KwIn);
      var (b, r2) :- Level(OR, c, a.m, r1);
      var (_, r3) :- Expect(r2, RParen);
      Ok(Expr(Call(fn, [a.tree, b.tree]), b.m), r3)
    else
      var (_, r1) :- Expect(r, RParen);
      Ok(Expr(Call(fn, [a.tree]), a.m), r1)
  }

  lemma CallIsTail(c: Config, f: TableRef, s: seq<Token>)
    requires !HeadIs(s, RParen) && !TrimClause(f, s)
    ensures
      var first := Level(if IsFunc(f, "position") then COMP else OR, c, f, s);
      first.Ok? ==> FunctionCall(c, f, s) == CallTail(c, ReportedName(f), first.val, first.rest)
  {
    hide Level, Args, IsFunc, SpecialError, TrimClause, ReportedName;
  }

  // Building the callbacks of larger expressions

  lemma ReportsExact(t: Tree)
    ensures Reports(Events(t), t)
  {
  }

  lemma ReportsApply(kind: Kind, es: seq<Event>, ts: seq<Tree>)
    requires ReportsList(es, ts)
    ensures Reports([EScalar, KindEvent(kind), EListBegin] + es + [EListEnd], ApplyTree(kind, ts))
  {
    var us :| es == ListEvents(us) && MeanList(us) == MeanList(ts);
    assert Events(ApplyTree(kind, us)) == [EScalar, KindEvent(kind), EListBegin] + es + [EListEnd];
    assert Mean(ApplyTree(kind, us)) == Mean(ApplyTree(kind, ts));
  }

  lemma ReportsNil()
    ensures ReportsList([], []) && ReportsKvs([], [])
  {
    assert [] == ListEvents([]) && [] == KvEvents([]);
  }

  lemma ReportsAppend(es: seq<Event>, ts: seq<Tree>, more: seq<Event>, t: Tree)
    requires ReportsList(es, ts) && Reports(more, t)
    ensures ReportsList(es + [EListEl] + more, ts + [t])
  {
    var us :| es == ListEvents(us) && MeanList(us) == MeanList(ts);
    var u :| more == Events(u) && Mean(u) == Mean(t);
    ListEventsAppend(us, u);
    MeanListAppend(us, u);
    MeanListAppend(ts, t);
  }

  lemma ReportsTwo(es: seq<Event>, t: Tree, fs: seq<Event>, u: Tree)
    requires Reports(es, t) && Reports(fs, u)
    ensures ReportsList([EListEl] + es + [EListEl] + fs, [t, u])
  {
    hide Reports, ReportsList;
    var one := [] + [EListEl] + es;
    ReportsNil();
    ReportsAppend([], [], es, t);
    ReportsAppend(one, [] + [t], fs, u);
    assert [] + [t] + [u] == [t, u];
    assert one == [EListEl] + es;
  }

  lemma CastReports(es: seq<Event>, t: Tree, v: Value)
    requires Reports(es, t)
    ensures
      var args := [EListEl] + es + [EListEl] + [EScalar, EVal(v)];
      Reports([EScalar, EOp(NCast), EListBegin] + args + [EListEnd], Op(NCast, [t, Val(v)]))
  {
    hide Reports, ReportsList;
    var one := [] + [EListEl] + es;
    ReportsNil();
    ReportsAppend([], [], es, t);
    ReportsExact(Val(v));
    ReportsAppend(one, [] + [t], [EScalar, EVal(v)], Val(v));
    assert [] + [t] + [Val(v)] == [t, Val(v)];
    assert one == [EListEl] + es;
    ReportsApply(KOp(NCast), one + [EListEl] + [EScalar, EVal(v)], [t, Val(v)]);
  }

  lemma {:induction false} ListEventsAppend(us: seq<Tree>, u: Tree)
    ensures ListEvents(us + [u]) == ListEvents(us) + [EListEl] + Events(u)
  {
    hide Events;
    if us == [] {
      assert us + [u] == [u];
      assert ListEvents([u][1..]) == [];
    } else {
      assert (us + [u])[1..] == us[1..] + [u];
      ListEventsAppend(us[1..], u);
    }
  }

  lemma {:induction false} MeanListAppend(us: seq<Tree>, u: Tree)
    ensures MeanList(us + [u]) == MeanList(us) + [Mean(u)]
  {
    hide Mean;
    if us == [] {
      assert us + [u] == [u];
    } else {
      assert (us + [u])[1..] == us[1..] + [u];
      MeanListAppend(us[1..], u);
    }
  }

  lemma ReportsKvAppend(es: seq<Event>, kvs: seq<KeyVal>, key: string, more: seq<Event>, t: Tree)
    requires ReportsKvs(es, kvs) && Reports(more, t)
    ensures ReportsKvs(es + [EKey(key)] + more, kvs + [KeyVal(key, t)])
  {
    var us :| es == KvEvents(us) && MeanKvs(us) == MeanKvs(kvs);
    var u :| more == Events(u) && Mean(u) == Mean(t);
    KvEventsAppend(us, KeyVal(key, u));
    MeanKvsAppend(us, KeyVal(key, u));
    MeanKvsAppend(kvs, KeyVal(key, t));
  }

  lemma {:induction false} KvEventsAppend(us: seq<KeyVal>, u: KeyVal)
    ensures KvEvents(us + [u]) == KvEvents(us) + [EKey(u.key)] + Events(u.val)
  {
    hide Events;
    if us == [] {
      assert us + [u] == [u];
      assert KvEvents([u][1..]) == [];
    } else {
      assert (us + [u])[1..] == us[1..] + [u];
      KvEventsAppend(us[1..], u);
    }
  }

  lemma {:induction false} MeanKvsAppend(us: seq<KeyVal>, u: KeyVal)
    ensures MeanKvs(us + [u]) == MeanKvs(us)[u.key := Mean(u.val)]
  {
    hide Mean;
    if us == [] {
      assert us + [u] == [u];
      assert MeanKvs([u][1..]) == map[];
    } else {
      assert (us + [u])[1..] == us[1..] + [u];
      MeanKvsAppend(us[1..], u);
    }
  }

  lemma LiteralIsAtomic(c: Config, m: TableRef, s: seq<Token>)
    requires s != [] && (SignedLiteral(s) || IsLiteral(s[0]))
    ensures
      var r := if SignedLiteral(s) then Literal(c, s[0].ty.Minus?, s[1..]) else Literal(c, false, s);
      Level(ATOMIC, c, m, s) == if r.Ok? then Ok(Expr(Val(r.val), m), r.rest) else Err(r.at)
  {
    hide Document, Array, Cast, Ident, Literal, FunctionCall;
    assert Level(ATOMIC, c, m, s) == Atomic(c, m, s);
  }

  class Parser {
    const mode: Mode
    const lex: string -> Option<seq<Token>>

    /** The tokens from the current one to the end of the range. */
    var rest: seq<Token>
    /** The table part of the parser's column reference. */
    var m: TableRef

    constructor (mode: Mode, lex: string -> Option<seq<Token>>, toks: seq<Token>)
      ensures this.mode == mode && this.lex == lex && rest == toks && m == NO_TABLE
    {
      this.mode, this.lex, rest, m := mode, lex, toks, NO_TABLE;
    }

    function Cfg(blobs: bool): Config { Config(mode, blobs, lex) }

    // What a method promises, given what the grammar says of its input

    ghost predicate ExprDone(spec: Parsed<Expr>, prc: bool, r: Out<Result>)
      reads this
    {
      match spec
      case Err(at) => r == Failed(at)
      case Ok(e, after) => r.Done? && rest == after && m == e.m && Delivers(prc, r.val, e.tree)
    }

    ghost predicate EventsDone(spec: Parsed<Expr>, r: Out<seq<Event>>)
      reads this
    {
      match spec
      case Err(at) => r == Failed(at)
      case Ok(e, after) => r.Done? && rest == after && m == e.m && Reports(r.val, e.tree)
    }

    ghost predicate TreeDone(spec: Parsed<Tree>, r: Out<seq<Event>>)
      reads this
    {
      match spec
      case Err(at) => r == Failed(at)
      case Ok(t, after) => r.Done? && rest == after && Reports(r.val, t)
    }

    ghost predicate ListDone(spec: Parsed<seq<Tree>>, r: Out<seq<Event>>)
      reads this
    {
      match spec
      case Err(at) => r == Failed(at)
      case Ok(ts, after) => r.Done? && rest == after && ReportsList(r.val, ts)
    }

    ghost predicate KvsDone(spec: Parsed<seq<KeyVal>>, r: Out<seq<Event>>)
      reads this
    {
      match spec
      case Err(at) => r == Failed(at)
      case Ok(kvs, after) => r.Done? && rest == after && ReportsKvs(r.val, kvs)
    }

    // Token navigation

    method Consume(ty: TokType) returns (r: Out<Token>)
      modifies this`rest
      ensures match Expect(old(rest), ty)
              case Err(at) => r == Failed(at)
              case Ok(t, after) => r == Done(t) && rest == after
    {
      if !HeadIs(rest, ty) { return Failed(|rest|); }
      r := Done(rest[0]);
      rest := rest[1..];
    }

    method ConsumeKw(k: Keyword) returns (r: Out<Token>)
      modifies this`rest
      ensures match ExpectKw(old(rest), k)
              case Err(at) => r == Failed(at)
              case Ok(t, after) => r == Done(t) && rest == after
    {
      if !HeadKw(rest, k) { return Failed(|rest|); }
      r := Done(rest[0]);
      rest := rest[1..];
    }

    // Levels

    method Parse(l: nat, blobs: bool, prc: bool) returns (r: Out<Result>)
      requires l <= OR
      modifies this
      ensures ExprDone(Level(l, Cfg(blobs), old(m), old(rest)), prc, r)
      decreases |rest|, 1 + l, 2
    {
      if l == ATOMIC {
        r := ParseAtomic(blobs, prc);
      } else if l == ILRI {
        r := ParseIlri(blobs, prc);
      } else if l == BIT && HeadIs(rest, Tilde) {
        r := ParseBitNeg(blobs, prc);
      } else {
        r := ParseInfix(l, blobs, prc);
      }
    }

    method ParseBitNeg(blobs: bool, prc: bool) returns (r: Out<Result>)
      requires HeadIs(rest, Tilde)
      modifies this
      ensures ExprDone(Level(BIT, Cfg(blobs), old(m), old(rest)), prc, r)
      decreases |rest|, 1 + BIT, 0
    {
      hide Reports, ReportsList, Holds, Deliver, Atomic, Ilri;
      rest := rest[1..];
      var a :- Parse(ATOMIC, blobs, true);
      r := Done(Deliver(prc, [EScalar, EOp(NTilde), EListBegin] + ([] + [EListEl] + a.events) + [EListEnd]));
      ghost var t := Level(ATOMIC, Cfg(blobs), old(m), old(rest)[1..]).val.tree;
      ReportsNil();
      ReportsAppend([], [], a.events, t);
      assert [] + [t] == [t];
      ReportsApply(KOp(NTilde), [] + [EListEl] + a.events, [t]);
      DeliverDelivers(prc, [EScalar, EOp(NTilde), EListBegin] + ([] + [EListEl] + a.events) + [EListEnd],
        Op(NTilde, [t]));
    }

    method ParseInfix(l: nat, blobs: bool, prc: bool) returns (r: Out<Result>)
      requires l in {MUL, ADD, SHIFT, BIT, COMP, AND, OR}
      requires l == BIT ==> !HeadIs(rest, Tilde)
      modifies this
      ensures ExprDone(Level(l, Cfg(blobs), old(m), old(rest)), prc, r)
      decreases |rest|, 1 + l, 0
    {
      hide Reports, ReportsList, Holds, Infix, Forward, Binary, Atomic, Ilri;
      // the left operand is stored until the operator is known
      var lhs :- Parse(l - 1, blobs, false);
      ghost var a := Level(l - 1, Cfg(blobs), old(m), old(rest)).val;
      if BinaryLevel(rest) != l {
        ForwardDelivers(prc, lhs.expr, a.tree);
        return Done(Forward(prc, lhs.expr));
      }
      var op := Binary(rest[0]).name;
      rest := rest[1..];
      ghost var s1 := rest;
      var rhs :- Parse(l, blobs, true);
      ghost var b := Level(l, Cfg(blobs), a.m, s1).val;
      var more := [] + [EListEl] + rhs.events;
      ReportsNil();
      ReportsAppend([], [], rhs.events, b.tree);
      InfixDelivers(prc, op, lhs.expr, a.tree, more, [] + [b.tree]);
      assert [a.tree] + ([] + [b.tree]) == [a.tree, b.tree];
      r := Done(Infix(prc, op, lhs.expr, more));
    }

    // IS, IN, LIKE, RLIKE, BETWEEN, REGEXP

    method ParseIlri(blobs: bool, prc: bool) returns (r: Out<Result>)
      modifies this
      ensures ExprDone(Level(ILRI, Cfg(blobs), old(m), old(rest)), prc, r)
      decreases |rest|, 1 + ILRI, 0
    {
      hide Reports, Holds, Forward, IlriTail, Atomic;
      var first :- Parse(COMP, blobs, false);
      ghost var a := Level(COMP, Cfg(blobs), old(m), old(rest)).val;
      var neg := HeadKw(rest, KwNot);
      if neg { rest := rest[1..]; }
      if BinaryLevel(rest) != ILRI {
        if neg { return Failed(|rest|); }
        ForwardDelivers(prc, first.expr, a.tree);
        return Done(Forward(prc, first.expr));
      }
      var op := Binary(rest[0]).name;
      rest := rest[1..];
      r := ParseIlriTail(blobs, prc, op, neg, first.expr, a);
    }

    method ParseIlriTail(blobs: bool, prc: bool, op: OpName, neg: bool, first: Stored, ghost a: Expr)
      returns (r: Out<Result>)
      requires m == a.m && Holds(first, a.tree)
      modifies this
      ensures ExprDone(IlriTail(Cfg(blobs), op, neg, a, old(rest)), prc, r)
      decreases |rest|, 1 + ILRI, 1
    {
      hide Level, Reports, ReportsList, ReportsKvs, Holds, Infix, Args;
      if op == NIs {
        r := ParseIs(blobs, prc, neg, first, a);
      } else if op == NIn && HeadIs(rest, LParen) {
        r := ParseInList(blobs, prc, neg, first, a);
      } else if op == NBetween {
        r := ParseBetween(blobs, prc, neg, first, a);
      } else if op in {NIn, NLike, NRLike, NRegexp} {
        r := ParseMatch(blobs, prc, op, neg, first, a);
      } else {
        r := Failed(|rest|);
      }
    }

    method ParseInList(blobs: bool, prc: bool, neg: bool, first: Stored, ghost a: Expr) returns (r: Out<Result>)
      requires m == a.m && Holds(first, a.tree) && HeadIs(rest, LParen)
      modifies this
      ensures ExprDone(IlriTail(Cfg(blobs), NIn, neg, a, old(rest)), prc, r)
      decreases |rest|, 1 + ILRI, 0
    {
      hide Level, Reports, ReportsList, ReportsKvs, Holds, Infix, Args;
      rest := rest[1..];
      ghost var s1 := rest;
      var args :- ParseArgs(true);
      ghost var ts := Args(Cfg(blobs).(blobs := true), s1).val;
      var _ :- Consume(RParen);
      var name := if neg then NNotIn else NIn;
      InfixDelivers(prc, name, first, a.tree, args, ts);
      r := Done(Infix(prc, name, first, args));
    }

    /** The pattern of LIKE, RLIKE or REGEXP, or what a value is IN. */
    method ParseMatch(blobs: bool, prc: bool, op: OpName, neg: bool, first: Stored, ghost a: Expr)
      returns (r: Out<Result>)
      requires m == a.m && Holds(first, a.tree) && op in {NIn, NLike, NRLike, NRegexp}
        && !(op == NIn && HeadIs(rest, LParen))
      modifies this
      ensures ExprDone(IlriTail(Cfg(blobs), op, neg, a, old(rest)), prc, r)
      decreases |rest|, 1 + ILRI, 0
    {
      hide Level, Reports, ReportsList, ReportsKvs, Holds, Infix, Args;
      ghost var s0 := rest;
      var b :- Parse(COMP, blobs, true);
      if op in {NLike, NRLike} && HeadKw(rest, KwEscape) { return Failed(|rest|); }
      var name := Name2(op, neg);
      var more := [] + [EListEl] + b.events;
      ghost var t := Level(COMP, Cfg(blobs), a.m, s0).val.tree;
      ReportsNil();
      ReportsAppend([], [], b.events, t);
      InfixDelivers(prc, name, first, a.tree, more, [] + [t]);
      assert [a.tree] + ([] + [t]) == [a.tree, t];
      r := Done(Infix(prc, name, first, more));
    }

    static function Name2(op: OpName, neg: bool): OpName {
      if op == NIn then (if neg then NNotContIn else NContIn)
      else if op == NLike then (if neg then NNotLike else NLike)
      else (if neg then NNotRegexp else NRegexp)
    }

    method ParseIs(blobs: bool, prc: bool, neg: bool, first: Stored, ghost a: Expr) returns (r: Out<Result>)
      requires m == a.m && Holds(first, a.tree)
      modifies this`rest
      ensures ExprDone(IlriTail(Cfg(blobs), NIs, neg, a, old(rest)), prc, r)
    {
      hide Level, Reports, ReportsList, ReportsKvs, Holds, Infix;
      if neg { return Failed(|rest|); }
      var name := NIs;
      if HeadKw(rest, KwNot) {
        name := NIsNot;
        rest := rest[1..];
      }
      if rest == [] { return Failed(0); }
      var k := rest[0].Kw();
      rest := rest[1..];
      var v;
      if k == KwTrue {
        v := VBool(true);
      } else if k == KwFalse {
        v := VBool(true);
      } else if k == KwNull {
        v := VNull;
      } else {
        return Failed(|rest|);
      }
      var more := [] + [EListEl] + [EScalar, EVal(v)];
      ReportsExact(Val(v));
      ReportsNil();
      ReportsAppend([], [], [EScalar, EVal(v)], Val(v));
      InfixDelivers(prc, name, first, a.tree, more, [] + [Val(v)]);
      assert [a.tree] + ([] + [Val(v)]) == [a.tree, Val(v)];
      r := Done(Infix(prc, name, first, more));
    }

    method ParseBetween(blobs: bool, prc: bool, neg: bool, first: Stored, ghost a: Expr) returns (r: Out<Result>)
      requires m == a.m && Holds(first, a.tree)
      modifies this
      ensures ExprDone(IlriTail(Cfg(blobs), NBetween, neg, a, old(rest)), prc, r)
      decreases |rest|, 1 + ILRI, 0
    {
      hide Level, Reports, ReportsList, ReportsKvs, Holds, Infix;
      ghost var s0 := rest;
      var lo :- Parse(COMP, blobs, true);
      ghost var tlo := Level(COMP, Cfg(blobs), a.m, s0).val;
      var _ :- ConsumeKw(KwAnd);
      ghost var s1 := rest;
      var hi :- Parse(COMP, blobs, true);
      ghost var thi := Level(COMP, Cfg(blobs), tlo.m, s1).val;
      var name := if neg then NNotBetween else NBetween;
      var more := [EListEl] + lo.events + [EListEl] + hi.events;
      ReportsTwo(lo.events, tlo.tree, hi.events, thi.tree);
      InfixDelivers(prc, name, first, a.tree, more, [tlo.tree, thi.tree]);
      assert [a.tree] + [tlo.tree, thi.tree] == [a.tree, tlo.tree, thi.tree];
      r := Done(Infix(prc, name, first, more));
    }

    // Atomic expressions

    method ParseAtomic(blobs: bool, prc: bool) returns (r: Out<Result>)
      modifies this
      ensures ExprDone(Level(ATOMIC, Cfg(blobs), old(m), old(rest)), prc, r)
      decreases |rest|, 1, 1
    {
      hide Reports, Holds, Deliver, Literal, Document, Array, Cast, Ident;
      if HeadIs(rest, LParen) {
        rest := rest[1..];
        r := Parse(OR, blobs, prc);
        if r.Done? {
          var _ :- Consume(RParen);
        }
      } else {
        var es :- ParseAtomicEvents(blobs);
        DeliverDelivers(prc, es, Level(ATOMIC, Cfg(blobs), old(m), old(rest)).val.tree);
        r := Done(Deliver(prc, es));
      }
    }

    method ParseAtomicEvents(blobs: bool) returns (r: Out<seq<Event>>)
      requires !HeadIs(rest, LParen)
      modifies this
      ensures EventsDone(Level(ATOMIC, Cfg(blobs), old(m), old(rest)), r)
      decreases |rest|, 1, 0
    {
      hide Reports, ReportsList, Literal, Document, Array, Cast, Ident;
      if rest == [] { return Failed(0); }
      var t := rest[0];
      if t.ty in {LCurly, LSq, Colon, Star} {
        r := ParseMarked(blobs);
      } else if HeadKw(rest, KwCast) {
        rest := rest[1..];
        r := ParseCast(blobs);
      } else if SignedLiteral(rest) || (Unary(t).None? && IsLiteral(t)) {
        r := ParseLiteral(blobs);
      } else if Unary(t).Some? {
        rest := rest[1..];
        r := ParseUnary(blobs, Unary(t).value);
      } else {
        r := ParseIdent(blobs);
      }
    }

    /** What a bracket, a colon or a star starts. */
    method ParseMarked(blobs: bool) returns (r: Out<seq<Event>>)
      requires rest != [] && rest[0].ty in {LCurly, LSq, Colon, Star}
      modifies this
      ensures EventsDone(Level(ATOMIC, Cfg(blobs), old(m), old(rest)), r)
      decreases |rest|, 0, 3
    {
      hide Reports, ReportsList, Literal, Document, Array, Cast, Ident;
      if rest[0].ty == LCurly {
        r := ParseDoc();
      } else if rest[0].ty == LSq {
        r := ParseArr();
      } else if rest[0].ty == Colon {
        rest := rest[1..];
        var name :- Consume(Word);
        ReportsExact(Param(name.text));
        r := Done([EScalar, EParam(name.text)]);
      } else {
        rest := rest[1..];
        ReportsNil();
        ReportsApply(KOp(NStar), [], []);
        r := Done([EScalar, EOp(NStar), EListBegin] + [] + [EListEnd]);
      }
    }

    method ParseLiteral(blobs: bool) returns (r: Out<seq<Event>>)
      requires rest != [] && (SignedLiteral(rest) || IsLiteral(rest[0]))
      modifies this`rest
      ensures EventsDone(Level(ATOMIC, Cfg(blobs), old(m), old(rest)), r)
    {
      hide Reports, Level, Literal;
      LiteralIsAtomic(Cfg(blobs), m, rest);
      var neg := false;
      if SignedLiteral(rest) {
        neg := rest[0].ty.Minus?;
        rest := rest[1..];
      }
      match Literal(Cfg(blobs), neg, rest)
      case Err(at) => return Failed(at);
      case Ok(v, after) =>
        rest := after;
        ReportsExact(Val(v));
        return Done([EScalar, EVal(v)]);
    }

    method ParseUnary(blobs: bool, op: OpName) returns (r: Out<seq<Event>>)
      modifies this
      ensures EventsDone(match Level(ATOMIC, Cfg(blobs), old(m), old(rest))
                         case Err(at) => Err(at)
                         case Ok(a, after) => Ok(Expr(Op(op, [a.tree]), a.m), after), r)
      decreases |rest|, 1, 3
    {
      hide Level, Reports, ReportsList, ReportsKvs, Holds;
      ghost var spec := Level(ATOMIC, Cfg(blobs), m, rest);
      var a :- Parse(ATOMIC, blobs, true);
      var args := [] + [EListEl] + a.events;
      ReportsNil();
      ReportsAppend([], [], a.events, spec.val.tree);
      assert [] + [spec.val.tree] == [spec.val.tree];
      ReportsApply(KOp(op), args, [spec.val.tree]);
      r := Done([EScalar, EOp(op), EListBegin] + args + [EListEnd]);
    }

    method ParseCast(blobs: bool) returns (r: Out<seq<Event>>)
      modifies this
      ensures EventsDone(Cast(Cfg(blobs), old(m), old(rest)), r)
      decreases |rest|, 0, 0
    {
      hide Level, Reports, ReportsList, ReportsKvs, Holds, CastType;
      var _ :- Consume(LParen);
      ghost var s1 := rest;
      var e :- Parse(OR, blobs, true);
      ghost var t := Level(OR, Cfg(blobs), old(m), s1).val.tree;
      var _ :- ConsumeKw(KwAs);
      var ty := CastType(rest);
      if ty.Err? { return Failed(ty.at); }
      rest := ty.rest;
      var _ :- Consume(RParen);
      var v := VOctets(ty.val);
      var args := [EListEl] + e.events + [EListEl] + [EScalar, EVal(v)];
      CastReports(e.events, t, v);
      r := Done([EScalar, EOp(NCast), EListBegin] + args + [EListEnd]);
    }

    // Identifiers

    /** Keeps the consumed words in the column reference, even when it fails. */
    method ParseSchemaIdent() returns (ok: bool, quoted: bool)
      modifies this
      ensures SchemaId(ok, m, quoted, rest) == SchemaIdent(old(rest))
    {
      m := NO_TABLE;
      if !IsIdent(rest) { return false, false; }
      var first := rest[0];
      rest := rest[1..];
      m := TableRef(first.text, "");
      quoted := first.ty.QWord?;
      if !HeadIs(rest, Dot) { return true, quoted; }
      rest := rest[1..];
      assert rest == old(rest)[2..];
      if !IsIdent(rest) { return false, quoted; }
      m := TableRef(rest[0].text, first.text);
      quoted := quoted || rest[0].ty.QWord?;
      rest := rest[1..];
      assert rest == old(rest)[3..];
      return true, quoted;
    }

    method ParseIdent(blobs: bool) returns (r: Out<seq<Event>>)
      modifies this
      ensures EventsDone(Ident(Cfg(blobs), old(rest)), r)
      decreases |rest|, 0, 1
    {
      hide Reports, SchemaIdent, DocPath.FieldFrom, DocPath.MoreSteps, FunctionCall, Column;
      var ok, quoted := ParseSchemaIdent();
      if ok && m.name == "" { return Failed(|rest|); }
      if ok && HeadIs(rest, LParen) {
        rest := rest[1..];
        r := ParseFunctionCall(blobs);
        return;
      }
      if mode == TABLE {
        if !ok { return Failed(|rest|); }
        r := ParseColumn(blobs);
        return;
      }
      if quoted { return Failed(|rest|); }
      var parser := new DocPathParser.Parser(rest);
      var p;
      if m.name == "" {
        p := parser.DocumentField(true);
      } else {
        p := parser.FieldWithPrefix(Members(m));
      }
      if p.Failed? { return Failed(p.at); }
      rest := parser.rest;
      ReportsExact(Field(p.val));
      r := Done([EScalar, EField(p.val)]);
    }

    method ParseColumn(blobs: bool) returns (r: Out<seq<Event>>)
      modifies this
      ensures EventsDone(Column(Cfg(blobs), old(m), old(rest)), r)
    {
      hide Reports, ColumnPath;
      var col: ColumnRef;
      if HeadIs(rest, Dot) {
        if !IsIdent(rest[1..]) { return Failed(|rest| - 1); }
        col := ColumnRef(rest[1].text, m);
        rest := rest[2..];
      } else {
        col := ColumnRef(m.name, TableRef(m.schema, ""));
      }
      m := col.table;
      r := ParseColumnPath(blobs, col);
    }

    method ParseColumnPath(blobs: bool, col: ColumnRef) returns (r: Out<seq<Event>>)
      requires m == col.table
      modifies this`rest
      ensures EventsDone(ColumnPath(Cfg(blobs), col, old(rest)), r)
    {
      hide Reports, ArrowPath;
      if !HeadIs(rest, Arrow) && !HeadIs(rest, Arrow2) {
        ReportsExact(Col(col, None));
        return Done([EScalar, ECol(col, None)]);
      }
      rest := rest[1..];
      var p := ParseArrowPath(blobs);
      if p.Failed? { return Failed(p.at); }
      ReportsExact(Col(col, Some(p.val)));
      return Done([EScalar, ECol(col, Some(p.val))]);
    }

    method ParseArrowPath(blobs: bool) returns (r: DocPathParser.Out<Path>)
      modifies this`rest
      ensures match ArrowPath(Cfg(blobs), old(rest))
              case Err(at) => r == DocPathParser.Failed(at)
              case Ok(p, after) => r == DocPathParser.Done(p) && rest == after
    {
      hide DocPath.FieldFrom;
      if !HeadIs(rest, QString) && !HeadIs(rest, QQString) {
        var parser := new DocPathParser.Parser(rest);
        r := parser.DocumentField(true);
        if r.Done? { rest := parser.rest; }
        return;
      }
      var toks := lex(rest[0].text);
      rest := rest[1..];
      if toks.None? { return DocPathParser.Failed(|rest|); }
      var parser := new DocPathParser.Parser(toks.value);
      r := parser.DocumentField(true);
      if r.Failed? || parser.rest != [] { return DocPathParser.Failed(|rest|); }
    }

    /** The function name is a reference into the column reference: after the first argument
        has been parsed it is whatever that argument left there. */
    method ParseFunctionCall(blobs: bool) returns (r: Out<seq<Event>>)
      modifies this
      ensures EventsDone(FunctionCall(Cfg(blobs), old(m), old(rest)), r)
      decreases |rest|, 1 + OR, 3
    {
      hide Level, Reports, ReportsList, ReportsKvs, Holds, Args, IsFunc, SpecialError, TrimClause, ReportedName;
      var fn := ReportedName(m);
      ReportsNil();
      if HeadIs(rest, RParen) {
        rest := rest[1..];
        ReportsApply(KCall(fn), [], []);
        r := Done([EScalar, ECall(fn), EListBegin] + [] + [EListEnd]);
        return;
      }
      if TrimClause(m, rest) { return Failed(|rest|); }
      ghost var s0, m0 := rest, m;
      var level := if IsFunc(m, "position") then COMP else OR;
      CallIsTail(Cfg(blobs), m0, s0);
      var first :- Parse(level, blobs, true);
      ghost var a := Level(level, Cfg(blobs), m0, s0).val;
      ReportsAppend([], [], first.events, a.tree);
      assert [] + [a.tree] == [a.tree];
      r := ParseCallTail(blobs, fn, [] + [EListEl] + first.events, a);
    }

    /** What follows the first argument `a` of a call. */
    method ParseCallTail(blobs: bool, fn: TableRef, first: seq<Event>, ghost a: Expr) returns (r: Out<seq<Event>>)
      requires m == a.m && ReportsList(first, [a.tree])
      modifies this
      ensures EventsDone(CallTail(Cfg(blobs), fn, a, old(rest)), r)
      decreases |rest|, 1 + OR, 4
    {
      hide Level, Reports, ReportsList, ReportsKvs, Holds, Args, IsFunc, SpecialError;
      var args := first;
      ghost var ts := [a.tree];
      if HeadIs(rest, Comma) {
        rest := rest[1..];
        ghost var s1 := rest;
        var more :- ParseArgs(false);
        ghost var us := Args(Cfg(false), s1).val;
        ReportsConcat(args, ts, more, us);
        args, ts := args + more, ts + us;
        assert Cfg(blobs).(blobs := false) == Cfg(false);
      } else {
        if SpecialError(m, rest) { return Failed(|rest|); }
        if IsFunc(m, "position") {
          var _ :- ConsumeKw(KwIn);
          ghost var s1, m1 := rest, m;
          var b :- Parse(OR, blobs, true);
          ghost var u := Level(OR, Cfg(blobs), m1, s1).val.tree;
          ReportsAppend(args, ts, b.events, u);
          args, ts := args + [EListEl] + b.events, ts + [u];
          assert ts == [a.tree, u];
        }
      }
      var _ :- Consume(RParen);
      ReportsApply(KCall(fn), args, ts);
      r := Done([EScalar, ECall(fn), EListBegin] + args + [EListEnd]);
    }

    // Lists. Each element is read by a new parser object that shares the cursor.

    method ParseArgs(blobs: bool) returns (r: Out<seq<Event>>)
      modifies this
      ensures ListDone(Args(Cfg(blobs), old(rest)), r) && (r.Done? ==> m == old(m))
      decreases |rest|, 1 + OR, 3
    {
      hide Reports, ReportsList, Level;
      ghost var s0 := rest;
      ghost var ts: seq<Tree> := [];
      var es: seq<Event> := [];
      var saved := m;
      ReportsNil();
      ArgsStart(Cfg(blobs), s0);
      while true
        invariant |rest| <= |s0| && ReportsList(es, ts) && ArgsThen(Cfg(blobs), s0, ts, rest)
        decreases |rest|
      {
        ghost var s1 := rest;
        m := NO_TABLE;
        var e := Parse(OR, blobs, true);
        ArgsStep(Cfg(blobs), s0, ts, s1);
        if e.Failed? { return Failed(e.at); }
        ghost var t := Level(OR, Cfg(blobs), NO_TABLE, s1).val.tree;
        ReportsAppend(es, ts, e.val.events, t);
        es, ts := es + [EListEl] + e.val.events, ts + [t];
        if !HeadIs(rest, Comma) { break; }
        rest := rest[1..];
      }
      m := saved;
      r := Done(es);
    }

    method ParseAny() returns (r: Out<seq<Event>>)
      modifies this
      ensures TreeDone(AnyValue(Cfg(false), old(rest)), r)
      decreases |rest|, 1 + OR, 3
    {
      hide Reports, Level, Document, Array;
      if HeadIs(rest, LCurly) {
        r := ParseDoc();
      } else if HeadIs(rest, LSq) {
        r := ParseArr();
      } else {
        m := NO_TABLE;
        var e :- Parse(OR, false, true);
        r := Done(e.events);
      }
    }

    method ParseArr() returns (r: Out<seq<Event>>)
      requires HeadIs(rest, LSq)
      modifies this
      ensures TreeDone(Array(Cfg(false), old(rest)), r) && (r.Done? ==> m == old(m))
      decreases |rest|, 0, 0
    {
      hide Reports, ReportsList, Elements;
      rest := rest[1..];
      var es: seq<Event> := [];
      ghost var ts: seq<Tree> := [];
      ReportsNil();
      ghost var s1 := rest;
      if !HeadIs(rest, RSq) {
        es :- ParseElements();
        ts := Elements(Cfg(false), s1).val;
      }
      var _ :- Consume(RSq);
      ReportsArr(es, ts);
      r := Done([EArr, EListBegin] + es + [EListEnd]);
    }

    method ParseElements() returns (r: Out<seq<Event>>)
      modifies this
      ensures ListDone(Elements(Cfg(false), old(rest)), r) && (r.Done? ==> m == old(m))
      decreases |rest|, 1 + OR, 4
    {
      hide Reports, ReportsList, AnyValue;
      ghost var s0 := rest;
      ghost var ts: seq<Tree> := [];
      var es: seq<Event> := [];
      var saved := m;
      ReportsNil();
      ElementsStart(Cfg(false), s0);
      while true
        invariant |rest| <= |s0| && ReportsList(es, ts) && ElementsThen(Cfg(false), s0, ts, rest)
        decreases |rest|
      {
        ghost var s1 := rest;
        var e := ParseAny();
        ElementsStep(Cfg(false), s0, ts, s1);
        if e.Failed? { return Failed(e.at); }
        ghost var t := AnyValue(Cfg(false), s1).val;
        ReportsAppend(es, ts, e.val, t);
        es, ts := es + [EListEl] + e.val, ts + [t];
        if !HeadIs(rest, Comma) { break; }
        rest := rest[1..];
      }
      m := saved;
      r := Done(es);
    }

    method ParseDoc() returns (r: Out<seq<Event>>)
      requires HeadIs(rest, LCurly)
      modifies this
      ensures TreeDone(Document(Cfg(false), old(rest)), r) && (r.Done? ==> m == old(m))
      decreases |rest|, 0, 0
    {
      hide Reports, ReportsKvs, KeyVals;
      rest := rest[1..];
      var es: seq<Event> := [];
      ghost var kvs: seq<KeyVal> := [];
      ReportsNil();
      ghost var s1 := rest;
      if !HeadIs(rest, RCurly) {
        es :- ParseKeyVals();
        kvs := KeyVals(Cfg(false), s1).val;
      }
      var _ :- Consume(RCurly);
      ReportsDoc(es, kvs);
      r := Done([EDoc, EDocBegin] + es + [EDocEnd]);
    }

    method ParsePair() returns (r: Out<(string, seq<Event>)>)
      modifies this
      ensures match Pair(Cfg(false), old(rest))
              case Err(at) => r == Failed(at)
              case Ok(kv, after) => r.Done? && rest == after && r.val.0 == kv.key && Reports(r.val.1, kv.val)
      decreases |rest|, 0, 0
    {
      if !IsKey(rest) { return Failed(|rest|); }
      var key := rest[0].text;
      rest := rest[1..];
      var _ :- Consume(Colon);
      var v :- ParseAny();
      r := Done((key, v));
    }

    method ParseKeyVals() returns (r: Out<seq<Event>>)
      modifies this
      ensures KvsDone(KeyVals(Cfg(false), old(rest)), r) && (r.Done? ==> m == old(m))
      decreases |rest|, 0, 1
    {
      hide Reports, ReportsKvs, Pair;
      ghost var s0 := rest;
      ghost var kvs: seq<KeyVal> := [];
      var es: seq<Event> := [];
      var saved := m;
      ReportsNil();
      KeyValsStart(Cfg(false), s0);
      while true
        invariant |rest| <= |s0| && ReportsKvs(es, kvs) && KeyValsThen(Cfg(false), s0, kvs, rest)
        decreases |rest|
      {
        ghost var s1 := rest;
        KeyValsStep(Cfg(false), s0, kvs, s1);
        var p := ParsePair();
        if p.Failed? { return Failed(p.at); }
        ghost var kv := Pair(Cfg(false), s1).val;
        ReportsKvAppend(es, kvs, kv.key, p.val.1, kv.val);
        es, kvs := es + [EKey(p.val.0)] + p.val.1, kvs + [kv];
        if !HeadIs(rest, Comma) { break; }
        rest := rest[1..];
      }
      m := saved;
      r := Done(es);
    }
  }

  lemma ReportsArr(es: seq<Event>, ts: seq<Tree>)
    requires ReportsList(es, ts)
    ensures Reports([EArr, EListBegin] + es + [EListEnd], Arr(ts))
  {
    var us :| es == ListEvents(us) && MeanList(us) == MeanList(ts);
    assert Events(Arr(us)) == [EArr, EListBegin] + es + [EListEnd];
    assert Mean(Arr(us)) == Mean(Arr(ts));
  }

  lemma ReportsDoc(es: seq<Event>, kvs: seq<KeyVal>)
    requires ReportsKvs(es, kvs)
    ensures Reports([EDoc, EDocBegin] + es + [EDocEnd], Doc(kvs))
  {
    var us :| es == KvEvents(us) && MeanKvs(us) == MeanKvs(kvs);
    assert Events(Doc(us)) == [EDoc, EDocBegin] + es + [EDocEnd];
    assert Mean(Doc(us)) == Mean(Doc(kvs));
  }

  lemma ReportsConcat(es: seq<Event>, ts: seq<Tree>, more: seq<Event>, ts': seq<Tree>)
    requires ReportsList(es, ts) && ReportsList(more, ts')
    ensures ReportsList(es + more, ts + ts')
  {
    var us :| es == ListEvents(us) && MeanList(us) == MeanList(ts);
    var us' :| more == ListEvents(us') && MeanList(us') == MeanList(ts');
    ListConcat(us, us');
    ListConcat(ts, ts');
  }

  lemma {:induction false} ListConcat(us: seq<Tree>, us': seq<Tree>)
    ensures ListEvents(us + us') == ListEvents(us) + ListEvents(us')
    ensures MeanList(us + us') == MeanList(us) + MeanList(us')
  {
    hide Events, Mean;
    if us == [] {
      assert us + us' == us';
    } else {
      assert (us + us')[1..] == us[1..] + us';
      ListConcat(us[1..], us');
    }
  }

  // The list loops against the recursive rules: after the elements seen so far,
  // the rule continues on the current tokens

  ghost predicate ArgsThen(c: Config, s: seq<Token>, ts: seq<Tree>, now: seq<Token>) {
    match Args(c, now)
    case Err(at) => Args(c, s) == Err(at)
    case Ok(us, after) => Args(c, s) == Ok(ts + us, after)
  }

  lemma ArgsStart(c: Config, s: seq<Token>)
    ensures ArgsThen(c, s, [], s)
  {
    if Args(c, s).Ok? {
      assert [] + Args(c, s).val == Args(c, s).val;
    }
  }

  lemma ArgsStep(c: Config, s: seq<Token>, ts: seq<Tree>, now: seq<Token>)
    requires ArgsThen(c, s, ts, now)
    ensures
      match Level(OR, c, NO_TABLE, now)
      case Err(at) => Args(c, s) == Err(at)
      case Ok(e, r) =>
        if HeadIs(r, Comma) then ArgsThen(c, s, ts + [e.tree], r[1..]) else Args(c, s) == Ok(ts + [e.tree], r)
  {
    hide Level;
    var lv := Level(OR, c, NO_TABLE, now);
    if lv.Ok? && HeadIs(lv.rest, Comma) && Args(c, lv.rest[1..]).Ok? {
      var us := Args(c, lv.rest[1..]).val;
      assert ts + ([lv.val.tree] + us) == ts + [lv.val.tree] + us;
    }
  }

  ghost predicate ElementsThen(c: Config, s: seq<Token>, ts: seq<Tree>, now: seq<Token>) {
    match Elements(c, now)
    case Err(at) => Elements(c, s) == Err(at)
    case Ok(us, after) => Elements(c, s) == Ok(ts + us, after)
  }

  lemma ElementsStart(c: Config, s: seq<Token>)
    ensures ElementsThen(c, s, [], s)
  {
    if Elements(c, s).Ok? {
      assert [] + Elements(c, s).val == Elements(c, s).val;
    }
  }

  lemma ElementsStep(c: Config, s: seq<Token>, ts: seq<Tree>, now: seq<Token>)
    requires ElementsThen(c, s, ts, now)
    ensures
      match AnyValue(c, now)
      case Err(at) => Elements(c, s) == Err(at)
      case Ok(t, r) =>
        if HeadIs(r, Comma) then ElementsThen(c, s, ts + [t], r[1..]) else Elements(c, s) == Ok(ts + [t], r)
  {
    hide AnyValue;
    var v := AnyValue(c, now);
    if v.Ok? && HeadIs(v.rest, Comma) && Elements(c, v.rest[1..]).Ok? {
      var us := Elements(c, v.rest[1..]).val;
      assert ts + ([v.val] + us) == ts + [v.val] + us;
    }
  }

  ghost predicate KeyValsThen(c: Config, s: seq<Token>, kvs: seq<KeyVal>, now: seq<Token>) {
    match KeyVals(c, now)
    case Err(at) => KeyVals(c, s) == Err(at)
    case Ok(us, after) => KeyVals(c, s) == Ok(kvs + us, after)
  }

  lemma KeyValsStart(c: Config, s: seq<Token>)
    ensures KeyValsThen(c, s, [], s)
  {
    if KeyVals(c, s).Ok? {
      assert [] + KeyVals(c, s).val == KeyVals(c, s).val;
    }
  }

  lemma KeyValsStep(c: Config, s: seq<Token>, kvs: seq<KeyVal>, now: seq<Token>)
    requires KeyValsThen(c, s, kvs, now)
    ensures
      match Pair(c, now)
      case Err(at) => KeyVals(c, s) == Err(at)
      case Ok(kv, r) =>
        if HeadIs(r, Comma) then KeyValsThen(c, s, kvs + [kv], r[1..]) else KeyVals(c, s) == Ok(kvs + [kv], r)
  {
    hide Pair;
    var p := Pair(c, now);
    if p.Ok? && HeadIs(p.rest, Comma) && KeyVals(c, p.rest[1..]).Ok? {
      var us := KeyVals(c, p.rest[1..]).val;
      assert kvs + ([p.val] + us) == kvs + [p.val] + us;
    }
  }

  // The two ways of reading an expression

  /** Both callback sequences report a tree, and the trees mean the same. */
  ghost predicate SameReport(es: seq<Event>, fs: seq<Event>) {
    exists t, u :: es == Events(t) && fs == Events(u) && Mean(t) == Mean(u)
  }

  lemma DirectAndReplayed(es: seq<Event>, s: Stored, t: Tree)
    requires Reports(es, t) && Holds(s, t)
    ensures SameReport(es, Replay(s))
  {
    hide Events, Mean, Replay, Wf, TreeOf;
    var u :| es == Events(u) && Mean(u) == Mean(t);
    ReplayIsEvents(s);
    assert es == Events(u) && Replay(s) == Events(TreeOf(s)) && Mean(u) == Mean(TreeOf(s));
  }

  /** Parsing with a processor, and parsing without one and replaying what was stored:
      the same failure, or the same tokens left and the same expression. */
  method ParseBothWays(mode: Mode, lex: string -> Option<seq<Token>>, l: nat, blobs: bool, toks: seq<Token>)
    returns (direct: Out<seq<Event>>, replayed: Out<seq<Event>>, left: seq<Token>)
    requires l <= OR
    ensures direct.Failed? ==> replayed == direct
    ensures direct.Done? ==> replayed.Done? && SameReport(direct.val, replayed.val)
    ensures match Level(l, Config(mode, blobs, lex), NO_TABLE, toks)
            case Err(at) => direct == Failed(at)
            case Ok(e, after) => direct.Done? && left == after && Reports(direct.val, e.tree)
  {
    hide Level, Reports, Holds, SameReport;
    var p := new Parser(mode, lex, toks);
    var d := p.Parse(l, blobs, true);
    var q := new Parser(mode, lex, toks);
    var s := q.Parse(l, blobs, false);
    if d.Failed? { return Failed(d.at), Failed(s.at), p.rest; }
    assert p.rest == q.rest;
    DirectAndReplayed(d.val.events, s.val.expr, Level(l, Config(mode, blobs, lex), NO_TABLE, toks).val.tree);
    return Done(d.val.events), Done(Replay(s.val.expr)), p.rest;
  }

  /** Reading a whole expression: nothing may follow it. */
  method Process(mode: Mode, lex: string -> Option<seq<Token>>, toks: seq<Token>) returns (r: Out<seq<Event>>)
    ensures match Level(OR, Config(mode, false, lex), NO_TABLE, toks)
            case Err(at) => r == Failed(at)
            case Ok(e, after) => if after == [] then r.Done? && Reports(r.val, e.tree) else r == Failed(|after|)
  {
    hide Level, Reports;
    if toks == [] {
      EmptyIsRejected(Config(mode, false, lex));
      return Failed(0);
    }
    var p := new Parser(mode, lex, toks);
    var e :- p.Parse(OR, false, true);
    if p.rest != [] { return Failed(|p.rest|); }
    r := Done(e.events);
  }

  lemma EmptyIsRejected(c: Config)
    ensures Level(OR, c, NO_TABLE, []) == Err(0)
  {
    LevelOfNothing(OR, c);
  }

  lemma {:induction false} LevelOfNothing(l: nat, c: Config)
    requires l <= OR
    ensures Level(l, c, NO_TABLE, []) == Err(0)
    decreases l
  {
    if l > ATOMIC {
      LevelOfNothing(l - 1, c);
    }
  }
}
