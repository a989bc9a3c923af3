/** Storing reported expressions and replaying them.

    A processor that never returns null sees an expression as a sequence of callbacks.
    `Stored` is what the parser's storage objects keep; `StoreAny` is how they consume
    callbacks and `Replay` the callbacks they make when asked to process. */
module ExprStorage {
  import opened Wrappers
  import opened ExprSyntax

  datatype Event =
    | EScalar | EArr | EDoc
    | EOp(op: OpName) | ECall(fn: TableRef)
    | EVal(v: Value) | EParam(name: string) | ECol(ref: ColumnRef, path: Option<Path>) | EField(field: Path)
    | EListBegin | EListEl | EListEnd
    | EDocBegin | EKey(key: string) | EDocEnd

  // The callbacks that report a tree

  function Events(t: Tree): (es: seq<Event>)
    ensures es != []
    decreases t, 0
  {
    match t
    case Val(v) => [EScalar, EVal(v)]
    case Param(name) => [EScalar, EParam(name)]
    case Col(ref, path) => [EScalar, ECol(ref, path)]
    case Field(p) => [EScalar, EField(p)]
    case Op(op, args) => [EScalar, EOp(op), EListBegin] + ListEvents(args) + [EListEnd]
    case Call(fn, args) => [EScalar, ECall(fn), EListBegin] + ListEvents(args) + [EListEnd]
    case Arr(els) => [EArr, EListBegin] + ListEvents(els) + [EListEnd]
    case Doc(kvs) => [EDoc, EDocBegin] + KvEvents(kvs) + [EDocEnd]
  }

  function ListEvents(ts: seq<Tree>): seq<Event>
    decreases ts, 1
  {
    if ts == [] then [] else [EListEl] + Events(ts[0]) + ListEvents(ts[1..])
  }

  function KvEvents(kvs: seq<KeyVal>): seq<Event>
    decreases kvs, 1
  {
    if kvs == [] then [] else [EKey(kvs[0].key)] + Events(kvs[0].val) + KvEvents(kvs[1..])
  }

  // Stored expressions

  datatype Kind = KOp(op: OpName) | KCall(fn: TableRef)

  /** `first` is the argument taken from external storage; a document is a map kept in key order. */
  datatype Stored =
    | SLeaf(leaf: Event)
    | SApply(kind: Kind, first: Option<Stored>, args: seq<Stored>)
    | SList(els: seq<Stored>)
    | SDoc(kvs: seq<StoredKv>)

  datatype StoredKv = StoredKv(key: string, val: Stored)

  predicate IsLeaf(e: Event) { e.EVal? || e.EParam? || e.ECol? || e.EField? }

  function KindEvent(k: Kind): Event { if k.KOp? then EOp(k.op) else ECall(k.fn) }

  function Replay(s: Stored): seq<Event>
    decreases s, 0
  {
    match s
    case SLeaf(e) => [EScalar, e]
    case SApply(kind, first, args) =>
      [EScalar, KindEvent(kind), EListBegin]
      + (if first.Some? then [EListEl] + Replay(first.value) else [])
      + ReplayList(args) + [EListEnd]
    case SList(els) => [EArr, EListBegin] + ReplayList(els) + [EListEnd]
    case SDoc(kvs) => [EDoc, EDocBegin] + ReplayKvs(kvs) + [EDocEnd]
  }

  function ReplayList(ss: seq<Stored>): seq<Event>
    decreases ss, 1
  {
    if ss == [] then [] else [EListEl] + Replay(ss[0]) + ReplayList(ss[1..])
  }

  function ReplayKvs(kvs: seq<StoredKv>): seq<Event>
    decreases kvs, 1
  {
    if kvs == [] then [] else [EKey(kvs[0].key)] + Replay(kvs[0].val) + ReplayKvs(kvs[1..])
  }

  // The key order of a stored document

  predicate Less(a: string, b: string) {
    b != [] && (a == [] || a[0] < b[0] || (a[0] == b[0] && Less(a[1..], b[1..])))
  }

  lemma {:induction false} LessIsTotalOrder(a: string, b: string, c: string)
    ensures !Less(a, a)
    ensures a == b || Less(a, b) || Less(b, a)
    ensures Less(a, b) && Less(b, c) ==> Less(a, c)
    decreases |a| + |b| + |c|
  {
    if a != [] || b != [] || c != [] {
      var tail := (s: string) => if s == [] then s else s[1..];
      LessIsTotalOrder(tail(a), tail(b), tail(c));
      if a != [] && b != [] && a[0] == b[0] && a[1..] == b[1..] {
        assert a == [a[0]] + a[1..] && b == [b[0]] + b[1..];
      }
    }
  }

  /** Setting a key: replaces the value of an existing key, keeps the order. */
  function Insert(kvs: seq<StoredKv>, key: string, val: Stored): seq<StoredKv> {
    if kvs == [] || Less(key, kvs[0].key) then [StoredKv(key, val)] + kvs
    else if key == kvs[0].key then [StoredKv(key, val)] + kvs[1..]
    else [kvs[0]] + Insert(kvs[1..], key, val)
  }

  predicate Above(key: string, kvs: seq<StoredKv>) {
    forall i :: 0 <= i < |kvs| ==> Less(key, kvs[i].key)
  }

  predicate Sorted(kvs: seq<StoredKv>) {
    kvs != [] ==> Above(kvs[0].key, kvs[1..]) && Sorted(kvs[1..])
  }

  lemma {:induction false} InsertSorted(kvs: seq<StoredKv>, key: string, val: Stored)
    requires Sorted(kvs)
    ensures Sorted(Insert(kvs, key, val))
    ensures forall k :: Above(k, kvs) && Less(k, key) ==> Above(k, Insert(kvs, key, val))
    decreases |kvs|
  {
    if kvs == [] || Less(key, kvs[0].key) {
      forall i | 0 <= i < |kvs|
        ensures Less(key, kvs[i].key)
      {
        LessIsTotalOrder(key, kvs[0].key, kvs[i].key);
        assert i > 0 ==> kvs[i] == kvs[1..][i - 1];
      }
      assert ([StoredKv(key, val)] + kvs)[1..] == kvs;
    } else if key == kvs[0].key {
      assert ([StoredKv(key, val)] + kvs[1..])[1..] == kvs[1..];
    } else {
      InsertSorted(kvs[1..], key, val);
      LessIsTotalOrder(key, kvs[0].key, key);
      var r := [kvs[0]] + Insert(kvs[1..], key, val);
      assert r[1..] == Insert(kvs[1..], key, val);
      forall k | Above(k, kvs) && Less(k, key)
        ensures Above(k, r)
      {
        assert Above(k, kvs[1..]);
      }
    }
  }

  // How the storage objects consume callbacks

  datatype Consumed<+T> = Stuck | Took(val: T, rest: seq<Event>) {
    predicate IsFailure() { Stuck? }

    function PropagateFailure<U>(): Consumed<U>
      requires Stuck?
    {
      Stuck
    }

    function Extract(): (T, seq<Event>)
      requires Took?
    {
      (val, rest)
    }
  }

  predicate NextIs(es: seq<Event>, e: Event) { es != [] && es[0] == e }

  function StoreAny(es: seq<Event>): (r: Consumed<Stored>)
    ensures r.Took? ==> |r.rest| < |es|
    decreases |es|, 1
  {
    if NextIs(es, EScalar) then StoreScalar(None, es[1..])
    else if NextIs(es, EArr) && NextIs(es[1..], EListBegin) then
      var (els, r) :- StoreList(false, [], es[2..]);
      Took(SList(els), r)
    else if NextIs(es, EDoc) && NextIs(es[1..], EDocBegin) then
      var (kvs, r) :- StoreKvs([], es[2..]);
      Took(SDoc(kvs), r)
    else Stuck
  }

  function StoreScalar(first: Option<Stored>, es: seq<Event>): (r: Consumed<Stored>)
    ensures r.Took? ==> |r.rest| < |es|
    decreases |es|, 0
  {
    if es == [] then Stuck
    else if IsLeaf(es[0]) then Took(SLeaf(es[0]), es[1..])
    else if (es[0].EOp? || es[0].ECall?) && NextIs(es[1..], EListBegin) then
      var kind := if es[0].EOp? then KOp(es[0].op) else KCall(es[0].fn);
      var (args, r) :- StoreList(first.Some?, [], es[2..]);
      Took(SApply(kind, first, args), r)
    else Stuck
  }

  /** `skip` is true while the first element, kept in external storage, has not been announced:
      the list then answers with a null processor and nothing is reported for it. */
  function StoreList(skip: bool, acc: seq<Stored>, es: seq<Event>): (r: Consumed<seq<Stored>>)
    ensures r.Took? ==> |r.rest| < |es|
    decreases |es|, 0
  {
    if NextIs(es, EListEnd) then Took(acc, es[1..])
    else if !NextIs(es, EListEl) then Stuck
    else if skip then StoreList(false, acc, es[1..])
    else
      var (s, r) :- StoreAny(es[1..]);
      StoreList(false, acc + [s], r)
  }

  function StoreKvs(acc: seq<StoredKv>, es: seq<Event>): (r: Consumed<seq<StoredKv>>)
    ensures r.Took? ==> |r.rest| < |es|
    decreases |es|, 0
  {
    if NextIs(es, EDocEnd) then Took(acc, es[1..])
    else if es == [] || !es[0].EKey? then Stuck
    else
      var (s, r) :- StoreAny(es[1..]);
      StoreKvs(Insert(acc, es[0].key, s), r)
  }

  // What is stored for a tree

  function StoredOf(t: Tree): Stored
    decreases t, 0
  {
    match t
    case Val(v) => SLeaf(EVal(v))
    case Param(name) => SLeaf(EParam(name))
    case Col(ref, path) => SLeaf(ECol(ref, path))
    case Field(p) => SLeaf(EField(p))
    case Op(op, args) => SApply(KOp(op), None, StoredList(args))
    case Call(fn, args) => SApply(KCall(fn), None, StoredList(args))
    case Arr(els) => SList(StoredList(els))
    case Doc(kvs) => SDoc(StoredKvs([], kvs))
  }

  function StoredList(ts: seq<Tree>): seq<Stored>
    decreases ts, 1
  {
    if ts == [] then [] else [StoredOf(ts[0])] + StoredList(ts[1..])
  }

  function StoredKvs(acc: seq<StoredKv>, kvs: seq<KeyVal>): seq<StoredKv>
    decreases kvs, 1
  {
    if kvs == [] then acc else StoredKvs(Insert(acc, kvs[0].key, StoredOf(kvs[0].val)), kvs[1..])
  }

  /** Storing the callbacks of a tree consumes exactly these callbacks. */
  lemma {:induction false} StoreEvents(t: Tree, rest: seq<Event>)
    ensures StoreAny(Events(t) + rest) == Took(StoredOf(t), rest)
    decreases t, 0
  {
    hide StoreList, StoreKvs, ListEvents, KvEvents, StoredList, StoredKvs;
    var es := Events(t) + rest;
    match t
    case Op(op, args) =>
      assert es == ApplyEvents(KOp(op), args) + rest;
      StoreApply(KOp(op), args, rest);
    case Call(fn, args) =>
      assert es == ApplyEvents(KCall(fn), args) + rest;
      StoreApply(KCall(fn), args, rest);
    case Arr(els) =>
      assert es[1..][0] == EListBegin && es[2..] == ListEvents(els) + ([EListEnd] + rest);
      StoreListEvents([], els, rest);
      assert [] + StoredList(els) == StoredList(els);
    case Doc(kvs) =>
      assert es[1..][0] == EDocBegin && es[2..] == KvEvents(kvs) + ([EDocEnd] + rest);
      StoreKvEvents([], kvs, rest);
    case _ => assert es[1..] == [Events(t)[1]] + rest && es[1..][1..] == rest;
  }

  function ApplyEvents(kind: Kind, args: seq<Tree>): seq<Event> {
    [EScalar, KindEvent(kind), EListBegin] + ListEvents(args) + [EListEnd]
  }

  lemma {:induction false} StoreApply(kind: Kind, args: seq<Tree>, rest: seq<Event>)
    ensures StoreAny(ApplyEvents(kind, args) + rest) == Took(SApply(kind, None, StoredList(args)), rest)
    decreases args, 2
  {
    hide StoreList, ListEvents, StoredList;
    var es := ApplyEvents(kind, args) + rest;
    var body := ListEvents(args) + ([EListEnd] + rest);
    assert es[1..] == [KindEvent(kind), EListBegin] + body;
    assert es[1..][1..][0] == EListBegin && es[1..][2..] == body;
    StoreListEvents([], args, rest);
    assert [] + StoredList(args) == StoredList(args);
  }

  lemma {:induction false} StoreListEvents(acc: seq<Stored>, ts: seq<Tree>, rest: seq<Event>)
    ensures StoreList(false, acc, ListEvents(ts) + ([EListEnd] + rest)) == Took(acc + StoredList(ts), rest)
    decreases ts, 1
  {
    hide StoreAny, StoredOf, Events, StoreList;
    var close := [EListEnd] + rest;
    if ts == [] {
      assert ListEvents(ts) + close == close && close[1..] == rest;
      assert acc + StoredList(ts) == acc;
      StoreListStep(acc, close);
    } else {
      var more := ListEvents(ts[1..]) + close;
      var es := ListEvents(ts) + close;
      assert es == [EListEl] + (Events(ts[0]) + more);
      assert es[1..] == Events(ts[0]) + more;
      StoreEvents(ts[0], more);
      StoreListEvents(acc + [StoredOf(ts[0])], ts[1..], rest);
      StoreListStep(acc, es);
      assert acc + [StoredOf(ts[0])] + StoredList(ts[1..]) == acc + StoredList(ts);
    }
  }

  lemma StoreListStep(acc: seq<Stored>, es: seq<Event>)
    ensures NextIs(es, EListEnd) ==> StoreList(false, acc, es) == Took(acc, es[1..])
    ensures NextIs(es, EListEl) && StoreAny(es[1..]).Took? ==>
      StoreList(false, acc, es) == StoreList(false, acc + [StoreAny(es[1..]).val], StoreAny(es[1..]).rest)
  {
    hide StoreAny;
  }

  lemma {:induction false} StoreKvEvents(acc: seq<StoredKv>, kvs: seq<KeyVal>, rest: seq<Event>)
    ensures StoreKvs(acc, KvEvents(kvs) + ([EDocEnd] + rest)) == Took(StoredKvs(acc, kvs), rest)
    decreases kvs, 1
  {
    hide StoreAny, StoredOf, Events, Insert;
    var close := [EDocEnd] + rest;
    if kvs == [] {
      assert KvEvents(kvs) + close == close && close[1..] == rest;
    } else {
      var more := KvEvents(kvs[1..]) + close;
      var es := KvEvents(kvs) + close;
      assert es == [EKey(kvs[0].key)] + (Events(kvs[0].val) + more);
      assert es[1..] == Events(kvs[0].val) + more;
      StoreEvents(kvs[0].val, more);
      StoreKvEvents(Insert(acc, kvs[0].key, StoredOf(kvs[0].val)), kvs[1..], rest);
    }
  }

  // Meanings: what a processor that keeps documents as maps ends up with

  datatype Meaning =
    | MLeaf(leaf: Event)
    | MApply(kind: Kind, args: seq<Meaning>)
    | MList(els: seq<Meaning>)
    | MDoc(m: map<string, Meaning>)

  function Mean(t: Tree): Meaning
    decreases t, 0
  {
    match t
    case Val(v) => MLeaf(EVal(v))
    case Param(name) => MLeaf(EParam(name))
    case Col(ref, path) => MLeaf(ECol(ref, path))
    case Field(p) => MLeaf(EField(p))
    case Op(op, args) => MApply(KOp(op), MeanList(args))
    case Call(fn, args) => MApply(KCall(fn), MeanList(args))
    case Arr(els) => MList(MeanList(els))
    case Doc(kvs) => MDoc(MeanKvs(kvs))
  }

  function MeanList(ts: seq<Tree>): (ms: seq<Meaning>)
    ensures |ms| == |ts|
    decreases ts, 1
  {
    if ts == [] then [] else [Mean(ts[0])] + MeanList(ts[1..])
  }

  /** The last value of a key wins. */
  function MeanKvs(kvs: seq<KeyVal>): map<string, Meaning>
    decreases kvs, 1
  {
    if kvs == [] then map[] else map[kvs[0].key := Mean(kvs[0].val)] + MeanKvs(kvs[1..])
  }

  // The tree a stored expression replays

  predicate Wf(s: Stored)
    decreases s, 0
  {
    match s
    case SLeaf(e) => IsLeaf(e)
    case SApply(_, first, args) => (first.Some? ==> Wf(first.value)) && WfList(args)
    case SList(els) => WfList(els)
    case SDoc(kvs) => Sorted(kvs) && WfKvs(kvs)
  }

  predicate WfList(ss: seq<Stored>)
    decreases ss, 1
  {
    ss != [] ==> Wf(ss[0]) && WfList(ss[1..])
  }

  predicate WfKvs(kvs: seq<StoredKv>)
    decreases kvs, 1
  {
    kvs != [] ==> Wf(kvs[0].val) && WfKvs(kvs[1..])
  }

  function LeafTree(e: Event): Tree
    requires IsLeaf(e)
  {
    match e
    case EVal(v) => Val(v)
    case EParam(name) => Param(name)
    case ECol(ref, path) => Col(ref, path)
    case EField(p) => Field(p)
  }

  function ApplyTree(kind: Kind, args: seq<Tree>): Tree {
    if kind.KOp? then Op(kind.op, args) else Call(kind.fn, args)
  }

  function TreeOf(s: Stored): Tree
    requires Wf(s)
    decreases s, 0
  {
    match s
    case SLeaf(e) => LeafTree(e)
    case SApply(kind, first, args) =>
      ApplyTree(kind, (if first.Some? then [TreeOf(first.value)] else []) + TreeList(args))
    case SList(els) => Arr(TreeList(els))
    case SDoc(kvs) => Doc(TreeKvs(kvs))
  }

  function TreeList(ss: seq<Stored>): seq<Tree>
    requires WfList(ss)
    decreases ss, 1
  {
    if ss == [] then [] else [TreeOf(ss[0])] + TreeList(ss[1..])
  }

  function TreeKvs(kvs: seq<StoredKv>): seq<KeyVal>
    requires WfKvs(kvs)
    decreases kvs, 1
  {
    if kvs == [] then [] else [KeyVal(kvs[0].key, TreeOf(kvs[0].val))] + TreeKvs(kvs[1..])
  }

  /** Replaying makes the callbacks of the tree, whether or not the first argument is external. */
  lemma {:induction false} ReplayIsEvents(s: Stored)
    requires Wf(s)
    ensures Replay(s) == Events(TreeOf(s))
    decreases s, 0
  {
    hide ReplayList, ReplayKvs, KvEvents, TreeList, TreeKvs;
    match s
    case SLeaf(_) =>
    case SApply(kind, first, args) =>
      ReplayListIsEvents(args);
      if first.Some? {
        ReplayIsEvents(first.value);
        var ts := [TreeOf(first.value)] + TreeList(args);
        assert ts[1..] == TreeList(args);
        assert ListEvents(ts) == [EListEl] + Replay(first.value) + ReplayList(args);
        assert Replay(s) == ApplyEvents(kind, ts);
      } else {
        assert [] + TreeList(args) == TreeList(args);
        assert Replay(s) == ApplyEvents(kind, TreeList(args));
      }
    case SList(els) => ReplayListIsEvents(els);
    case SDoc(kvs) => ReplayKvsIsEvents(kvs);
  }

  lemma {:induction false} ReplayListIsEvents(ss: seq<Stored>)
    requires WfList(ss)
    ensures ReplayList(ss) == ListEvents(TreeList(ss))
    decreases ss, 1
  {
    if ss != [] {
      ReplayIsEvents(ss[0]);
      ReplayListIsEvents(ss[1..]);
      assert TreeList(ss)[1..] == TreeList(ss[1..]);
    }
  }

  lemma {:induction false} ReplayKvsIsEvents(kvs: seq<StoredKv>)
    requires WfKvs(kvs)
    ensures ReplayKvs(kvs) == KvEvents(TreeKvs(kvs))
    decreases kvs, 1
  {
    if kvs != [] {
      ReplayIsEvents(kvs[0].val);
      ReplayKvsIsEvents(kvs[1..]);
      assert TreeKvs(kvs)[1..] == TreeKvs(kvs[1..]);
    }
  }

  // Storing keeps the meaning

  lemma {:induction false} StoredMeaning(t: Tree)
    ensures Wf(StoredOf(t)) && Mean(TreeOf(StoredOf(t))) == Mean(t)
    decreases t, 0
  {
    match t
    case Op(_, args) =>
      StoredListMeaning(args);
      assert [] + TreeList(StoredList(args)) == TreeList(StoredList(args));
    case Call(_, args) =>
      StoredListMeaning(args);
      assert [] + TreeList(StoredList(args)) == TreeList(StoredList(args));
    case Arr(els) => StoredListMeaning(els);
    case Doc(kvs) =>
      StoredKvsMeaning([], kvs);
      assert MeanKvs(TreeKvs([])) + MeanKvs(kvs) == MeanKvs(kvs);
    case _ =>
  }

  lemma {:induction false} StoredListMeaning(ts: seq<Tree>)
    ensures WfList(StoredList(ts)) && MeanList(TreeList(StoredList(ts))) == MeanList(ts)
    decreases ts, 1
  {
    if ts != [] {
      StoredMeaning(ts[0]);
      StoredListMeaning(ts[1..]);
      var ss := StoredList(ts);
      assert ss[1..] == StoredList(ts[1..]);
      assert TreeList(ss)[1..] == TreeList(ss[1..]);
    }
  }

  lemma {:induction false} StoredKvsMeaning(acc: seq<StoredKv>, kvs: seq<KeyVal>)
    requires Sorted(acc) && WfKvs(acc)
    ensures Sorted(StoredKvs(acc, kvs)) && WfKvs(StoredKvs(acc, kvs))
    ensures MeanKvs(TreeKvs(StoredKvs(acc, kvs))) == MeanKvs(TreeKvs(acc)) + MeanKvs(kvs)
    decreases kvs, 1
  {
    hide Insert, Sorted, WfKvs, TreeKvs, Wf, TreeOf, Mean, StoredOf;
    var before := MeanKvs(TreeKvs(acc));
    if kvs == [] {
      assert before + map[] == before;
    } else {
      var key, s := kvs[0].key, StoredOf(kvs[0].val);
      StoredMeaning(kvs[0].val);
      InsertSorted(acc, key, s);
      InsertMeaning(acc, key, s);
      StoredKvsMeaning(Insert(acc, key, s), kvs[1..]);
      var v, more := Mean(kvs[0].val), MeanKvs(kvs[1..]);
      UpdateMerge(before, key, v, more);
    }
  }

  lemma UpdateMerge(a: map<string, Meaning>, key: string, v: Meaning, b: map<string, Meaning>)
    ensures a[key := v] + b == a + (map[key := v] + b)
  {
  }

  lemma {:induction false} InsertMeaning(kvs: seq<StoredKv>, key: string, s: Stored)
    requires Sorted(kvs) && WfKvs(kvs) && Wf(s)
    ensures WfKvs(Insert(kvs, key, s))
    ensures MeanKvs(TreeKvs(Insert(kvs, key, s))) == MeanKvs(TreeKvs(kvs))[key := Mean(TreeOf(s))]
    decreases |kvs|
  {
    hide Less, Wf, TreeOf, Mean, TreeKvs, MeanKvs, WfKvs;
    var r := Insert(kvs, key, s);
    if kvs == [] || Less(key, kvs[0].key) {
      assert r[1..] == kvs;
      MeaningStep(r);
      if kvs != [] {
        AboveIsNew(key, kvs);
      } else {
        NoMeaning();
      }
    } else if key == kvs[0].key {
      assert r[1..] == kvs[1..];
      MeaningStep(r);
      MeaningStep(kvs);
      KeysOfMeaning(key, kvs[1..]);
    } else {
      MeaningStep(kvs);
      InsertMeaning(kvs[1..], key, s);
      assert r[1..] == Insert(kvs[1..], key, s);
      MeaningStep(r);
    }
  }

  lemma NoMeaning()
    ensures WfKvs([]) && MeanKvs(TreeKvs([])) == map[]
  {
  }

  /** The first pair is overridden by later ones. */
  lemma MeaningStep(kvs: seq<StoredKv>)
    requires kvs != []
    ensures WfKvs(kvs) <==> Wf(kvs[0].val) && WfKvs(kvs[1..])
    ensures WfKvs(kvs) ==>
      MeanKvs(TreeKvs(kvs)) == map[kvs[0].key := Mean(TreeOf(kvs[0].val))] + MeanKvs(TreeKvs(kvs[1..]))
  {
    hide Wf, TreeOf, Mean;
    if WfKvs(kvs) {
      assert TreeKvs(kvs)[1..] == TreeKvs(kvs[1..]);
    }
  }

  lemma AboveIsNew(key: string, kvs: seq<StoredKv>)
    requires Sorted(kvs) && WfKvs(kvs) && kvs != [] && Less(key, kvs[0].key)
    ensures key !in MeanKvs(TreeKvs(kvs))
  {
    forall i | 0 <= i < |kvs|
      ensures Less(key, kvs[i].key)
    {
      LessIsTotalOrder(key, kvs[0].key, kvs[i].key);
      assert i > 0 ==> kvs[i] == kvs[1..][i - 1];
    }
    KeysOfMeaning(key, kvs);
  }

  lemma {:induction false} KeysOfMeaning(key: string, kvs: seq<StoredKv>)
    requires WfKvs(kvs) && Above(key, kvs)
    ensures key !in MeanKvs(TreeKvs(kvs))
    decreases |kvs|
  {
    if kvs != [] {
      LessIsTotalOrder(key, key, key);
      assert TreeKvs(kvs)[1..] == TreeKvs(kvs[1..]);
      assert Above(key, kvs[1..]);
      KeysOfMeaning(key, kvs[1..]);
    }
  }
}
