/** Building a document from what the JSON parsers report. */
module JsonBuilder {

  import opened JsonSyntax

  datatype Value = Plain(scalar: Scalar) | VArr(els: seq<Value>) | VDoc(fields: map<string, Value>)

  /** A builder at work: of a document, with the key whose value comes next, or of an array. */
  datatype Frame = DocFrame(fields: map<string, Value>, key: string) | ArrFrame(els: seq<Value>)

  // What is built from a value as written

  function Build(v: Syn): Value
    decreases v, 0
  {
    match v
    case Leaf(s) => Plain(s)
    case Arr(els) => VArr(BuildAll(els))
    case Doc(pairs) => VDoc(Fields(pairs))
  }

  function BuildAll(els: seq<Syn>): (vs: seq<Value>)
    ensures |vs| == |els|
    ensures forall i :: 0 <= i < |els| ==> vs[i] == Build(els[i])
    decreases els, 1
  {
    if els == [] then [] else BuildAll(els[..|els| - 1]) + [Build(els[|els| - 1])]
  }

  /** A scalar does not replace what is already there, an array or a document does. */
  function Added(fields: map<string, Value>, key: string, v: Syn): map<string, Value>
    decreases v, 1
  {
    if v.Leaf? && key in fields then fields else fields[key := Build(v)]
  }

  function Fields(pairs: seq<Pair>): map<string, Value>
    decreases pairs, 2
  {
    if pairs == [] then map[]
    else Added(Fields(pairs[..|pairs| - 1]), pairs[|pairs| - 1].key, pairs[|pairs| - 1].val)
  }

  // Which of several values of a key is kept

  /** Pair `i` has the value of its key: the last array or document, or else the first scalar. */
  predicate Wins(pairs: seq<Pair>, i: nat)
    requires i < |pairs|
  {
    if pairs[i].val.Leaf? then
      && (forall j :: 0 <= j < i ==> pairs[j].key != pairs[i].key)
      && (forall j :: i < j < |pairs| && pairs[j].key == pairs[i].key ==> pairs[j].val.Leaf?)
    else
      forall j :: i < j < |pairs| && pairs[j].key == pairs[i].key ==> pairs[j].val.Leaf?
  }

  predicate Written(pairs: seq<Pair>) {
    forall i :: 0 <= i < |pairs| ==> pairs[i].key in Fields(pairs)
  }

  ghost predicate SomeWinner(pairs: seq<Pair>, k: string) {
    exists i :: 0 <= i < |pairs| && pairs[i].key == k && Wins(pairs, i)
  }

  /** The keys are those written, and each has the value of the pair that wins. */
  lemma {:induction false} KeyRule(pairs: seq<Pair>)
    ensures Written(pairs)
    ensures forall k :: k in Fields(pairs) ==> SomeWinner(pairs, k)
    ensures forall i :: 0 <= i < |pairs| && Wins(pairs, i) ==> Fields(pairs)[pairs[i].key] == Build(pairs[i].val)
    decreases |pairs|
  {
    hide Wins, SomeWinner, Build;
    if pairs != [] {
      var init := pairs[..|pairs| - 1];
      KeyRule(init);
      StaysWritten(pairs);
      forall k | k in Fields(pairs)
        ensures SomeWinner(pairs, k)
      {
        WinnerExists(pairs, k);
      }
      forall i | 0 <= i < |pairs| && Wins(pairs, i)
        ensures Fields(pairs)[pairs[i].key] == Build(pairs[i].val)
      {
        WinnerKept(pairs, i);
      }
    }
  }

  lemma StaysWritten(pairs: seq<Pair>)
    requires pairs != [] && Written(pairs[..|pairs| - 1])
    ensures Written(pairs)
  {
    hide Build;
    var init := pairs[..|pairs| - 1];
    forall i | 0 <= i < |pairs|
      ensures pairs[i].key in Fields(pairs)
    {
      assert i < |init| ==> init[i] == pairs[i];
    }
  }

  lemma LastWins(pairs: seq<Pair>)
    requires pairs != [] && Written(pairs[..|pairs| - 1])
    requires pairs[|pairs| - 1].val.Leaf? ==> pairs[|pairs| - 1].key !in Fields(pairs[..|pairs| - 1])
    ensures Wins(pairs, |pairs| - 1)
  {
    hide Fields;
    var init := pairs[..|pairs| - 1];
    assert forall i :: 0 <= i < |init| ==> init[i] == pairs[i];
  }

  lemma StillWins(pairs: seq<Pair>, i: nat)
    requires i < |pairs| - 1
    requires pairs[|pairs| - 1].key == pairs[i].key ==> pairs[|pairs| - 1].val.Leaf?
    ensures Wins(pairs[..|pairs| - 1], i) <==> Wins(pairs, i)
  {
    var init := pairs[..|pairs| - 1];
    assert forall j :: 0 <= j < |init| ==> init[j] == pairs[j];
  }

  lemma WinnerExists(pairs: seq<Pair>, k: string)
    requires pairs != [] && Written(pairs[..|pairs| - 1])
    requires k in Fields(pairs[..|pairs| - 1]) ==> SomeWinner(pairs[..|pairs| - 1], k)
    requires k in Fields(pairs)
    ensures SomeWinner(pairs, k)
  {
    hide Build, Wins, Written;
    var n := |pairs| - 1;
    var init, last := pairs[..n], pairs[n];
    if last.key == k && (last.val.Leaf? ==> k !in Fields(init)) {
      LastWins(pairs);
    } else {
      var i :| 0 <= i < n && init[i].key == k && Wins(init, i);
      StillWins(pairs, i);
    }
  }

  lemma WinnerKept(pairs: seq<Pair>, i: nat)
    requires i < |pairs| && Wins(pairs, i) && Written(pairs[..|pairs| - 1])
    requires
      var init := pairs[..|pairs| - 1];
      forall j :: 0 <= j < |init| && Wins(init, j) ==> Fields(init)[init[j].key] == Build(init[j].val)
    ensures pairs[i].key in Fields(pairs) && Fields(pairs)[pairs[i].key] == Build(pairs[i].val)
  {
    hide Build, Wins, Written, Fields;
    var n := |pairs| - 1;
    var init := pairs[..n];
    FieldsStep(pairs);
    if i < n {
      WinnerEarlier(pairs, i);
      assert init[i] == pairs[i];
    } else {
      WinnerLast(pairs);
    }
  }

  lemma FieldsStep(pairs: seq<Pair>)
    requires pairs != []
    ensures
      var init, last := pairs[..|pairs| - 1], pairs[|pairs| - 1];
      Fields(pairs) ==
        if last.val.Leaf? && last.key in Fields(init) then Fields(init)
        else Fields(init)[last.key := Build(last.val)]
  {
    hide Build;
  }

  /** A winner that is not last already won, and the last pair does not take its key. */
  lemma WinnerEarlier(pairs: seq<Pair>, i: nat)
    requires i < |pairs| - 1 && Wins(pairs, i) && Written(pairs[..|pairs| - 1])
    ensures Wins(pairs[..|pairs| - 1], i) && pairs[i].key in Fields(pairs[..|pairs| - 1])
    ensures pairs[|pairs| - 1].key == pairs[i].key ==> pairs[|pairs| - 1].val.Leaf?
  {
    hide Fields;
    var init := pairs[..|pairs| - 1];
    assert init[i] == pairs[i];
    StillWins(pairs, i);
  }

  /** A scalar that is last and wins is the first value of its key. */
  lemma WinnerLast(pairs: seq<Pair>)
    requires pairs != [] && Wins(pairs, |pairs| - 1)
    ensures pairs[|pairs| - 1].val.Leaf? ==> pairs[|pairs| - 1].key !in Fields(pairs[..|pairs| - 1])
  {
    hide Build;
    var n := |pairs| - 1;
    if pairs[n].val.Leaf? {
      NotWritten(pairs[..n], pairs[n].key);
    }
  }

  lemma {:induction false} NotWritten(pairs: seq<Pair>, k: string)
    requires forall i :: 0 <= i < |pairs| ==> pairs[i].key != k
    ensures k !in Fields(pairs)
    decreases |pairs|
  {
    hide Build, Fields;
    if pairs == [] {
      NoFields();
    } else {
      FieldsStep(pairs);
      NotWritten(pairs[..|pairs| - 1], k);
    }
  }

  lemma NoFields()
    ensures Fields([]) == map[]
  {
  }

  // Documents without repeated keys

  ghost predicate DistinctKeys(v: Syn)
    decreases v, 0
  {
    match v
    case Leaf(_) => true
    case Arr(els) => forall i :: 0 <= i < |els| ==> DistinctKeys(els[i])
    case Doc(pairs) =>
      && (forall i, j :: 0 <= i < j < |pairs| ==> pairs[i].key != pairs[j].key)
      && forall i :: 0 <= i < |pairs| ==> DistinctKeys(pairs[i].val)
  }

  /** A built value is the tree that was written. */
  ghost predicate SameTree(b: Value, v: Syn)
    decreases v
  {
    match v
    case Leaf(s) => b == Plain(s)
    case Arr(els) => b.VArr? && |b.els| == |els| && forall i :: 0 <= i < |els| ==> SameTree(b.els[i], els[i])
    case Doc(pairs) =>
      && b.VDoc?
      && (forall k :: k in b.fields ==> exists i :: 0 <= i < |pairs| && pairs[i].key == k)
      && forall i :: 0 <= i < |pairs| ==> pairs[i].key in b.fields && SameTree(b.fields[pairs[i].key], pairs[i].val)
  }

  lemma {:induction false} BuildsTheTree(v: Syn)
    requires DistinctKeys(v)
    ensures SameTree(Build(v), v)
    decreases v
  {
    match v {
      case Leaf(_) =>
      case Arr(els) =>
        forall i | 0 <= i < |els|
          ensures SameTree(Build(v).els[i], els[i])
        {
          BuildsTheTree(els[i]);
        }
      case Doc(pairs) =>
        KeyRule(pairs);
        forall i | 0 <= i < |pairs|
          ensures pairs[i].key in Fields(pairs) && SameTree(Fields(pairs)[pairs[i].key], pairs[i].val)
        {
          assert Wins(pairs, i);
          BuildsTheTree(pairs[i].val);
        }
    }
  }

  /** Nothing else is the tree that was written. */
  lemma {:induction false} TreeIsUnique(a: Value, b: Value, v: Syn)
    requires SameTree(a, v) && SameTree(b, v)
    ensures a == b
    decreases v
  {
    match v {
      case Leaf(_) =>
      case Arr(els) =>
        forall i | 0 <= i < |els|
          ensures a.els[i] == b.els[i]
        {
          TreeIsUnique(a.els[i], b.els[i], els[i]);
        }
      case Doc(pairs) =>
        forall k | k in a.fields || k in b.fields
          ensures k in a.fields && k in b.fields && a.fields[k] == b.fields[k]
        {
          var i :| 0 <= i < |pairs| && pairs[i].key == k;
          TreeIsUnique(a.fields[k], b.fields[k], pairs[i].val);
        }
        assert a.fields == b.fields;
    }
  }

  /** Where a value goes in a builder. */
  function Placed(f: Frame, v: Syn): Frame {
    match f
    case DocFrame(fields, key) => DocFrame(Added(fields, key, v), key)
    case ArrFrame(els) => ArrFrame(els + [Build(v)])
  }

  function PlacedAll(f: Frame, vs: seq<Syn>): Frame {
    if vs == [] then f else Placed(PlacedAll(f, vs[..|vs| - 1]), vs[|vs| - 1])
  }

  /** A pair first sets the key. */
  function PutPair(f: Frame, p: Pair): Frame {
    match f
    case DocFrame(fields, _) => DocFrame(Added(fields, p.key, p.val), p.key)
    case ArrFrame(_) => f
  }

  function PutPairs(f: Frame, ps: seq<Pair>): Frame {
    if ps == [] then f else PutPair(PutPairs(f, ps[..|ps| - 1]), ps[|ps| - 1])
  }

  lemma {:induction false} PutPairsFields(key: string, ps: seq<Pair>)
    ensures PutPairs(DocFrame(map[], key), ps).DocFrame?
    ensures PutPairs(DocFrame(map[], key), ps).fields == Fields(ps)
    decreases |ps|
  {
    if ps != [] {
      PutPairsFields(key, ps[..|ps| - 1]);
    }
  }

  lemma {:induction false} PlacedAllElements(els: seq<Syn>)
    ensures PlacedAll(ArrFrame([]), els) == ArrFrame(BuildAll(els))
    decreases |els|
  {
    if els != [] {
      PlacedAllElements(els[..|els| - 1]);
    }
  }

  /** The value most recently put into a builder, replaced by what was built for it. */
  function Refilled(f: Frame, v: Value): Frame {
    match f
    case DocFrame(fields, key) => DocFrame(fields[key := v], key)
    case ArrFrame(els) => if els == [] then f else ArrFrame(els[..|els| - 1] + [v])
  }

  lemma RefillPlaces(f: Frame, v: Syn)
    ensures v.Doc? ==> Refilled(Placed(f, Doc([])), Build(v)) == Placed(f, v)
    ensures v.Arr? ==> Refilled(Placed(f, Arr([])), Build(v)) == Placed(f, v)
  {
    if f.ArrFrame? {
      assert (f.els + [Build(Doc([]))])[..|f.els|] == f.els;
      assert (f.els + [Build(Arr([]))])[..|f.els|] == f.els;
    }
  }

  lemma ScalarPlaced(f: Frame, s: Scalar)
    ensures
      Placed(f, Leaf(s)) ==
      if f.ArrFrame? then ArrFrame(f.els + [Plain(s)])
      else if f.key in f.fields then f
      else DocFrame(f.fields[f.key := Plain(s)], f.key)
  {
    assert Build(Leaf(s)) == Plain(s);
  }

  lemma EmptyPlaced(f: Frame, doc: bool)
    ensures
      var v := if doc then VDoc(map[]) else VArr([]);
      Placed(f, if doc then Doc([]) else Arr([])) ==
      if f.ArrFrame? then ArrFrame(f.els + [v]) else DocFrame(f.fields[f.key := v], f.key)
  {
    assert Build(Doc([])) == VDoc(map[]);
    assert Build(Arr([])) == VArr([]);
  }

  function Top(fs: seq<Frame>): Frame
    requires fs != []
  {
    fs[|fs| - 1]
  }

  function OnTop(fs: seq<Frame>, f: Frame): (gs: seq<Frame>)
    requires fs != []
    ensures |gs| == |fs| && Top(gs) == f && gs[..|fs| - 1] == fs[..|fs| - 1]
  {
    fs[..|fs| - 1] + [f]
  }

  /** The builders of a document and of the arrays and documents inside it, the innermost last. */
  class Builder {
    var frames: seq<Frame>

    constructor ()
      ensures frames == [DocFrame(map[], "")]
    {
      frames := [DocFrame(map[], "")];
    }

    method Clear()
      requires frames != [] && Top(frames).DocFrame?
      modifies this
      ensures frames == OnTop(old(frames), DocFrame(map[], old(Top(frames)).key))
    {
      frames := OnTop(frames, DocFrame(map[], Top(frames).key));
    }

    method KeyVal(key: string)
      requires frames != [] && Top(frames).DocFrame?
      modifies this
      ensures frames == OnTop(old(frames), DocFrame(old(Top(frames)).fields, key))
    {
      frames := OnTop(frames, DocFrame(Top(frames).fields, key));
    }

    /** A scalar: emplaced under the key, which keeps an existing value, or appended. */
    method PutScalar(s: Scalar)
      requires frames != []
      modifies this
      ensures frames == OnTop(old(frames), Placed(old(Top(frames)), Leaf(s)))
    {
      hide Placed;
      var f := Top(frames);
      ScalarPlaced(f, s);
      if f.ArrFrame? {
        frames := OnTop(frames, ArrFrame(f.els + [Plain(s)]));
      } else if f.key !in f.fields {
        frames := OnTop(frames, DocFrame(f.fields[f.key := Plain(s)], f.key));
      }
    }

    /** Puts an empty document or array in its place and starts a builder for it. */
    method Open(doc: bool)
      requires frames != []
      modifies this
      ensures
        frames == OnTop(old(frames), Placed(old(Top(frames)), if doc then Doc([]) else Arr([])))
                  + [if doc then DocFrame(map[], "") else ArrFrame([])]
    {
      hide Placed;
      var f := Top(frames);
      EmptyPlaced(f, doc);
      var v := if doc then VDoc(map[]) else VArr([]);
      var g := if f.ArrFrame? then ArrFrame(f.els + [v]) else DocFrame(f.fields[f.key := v], f.key);
      frames := OnTop(frames, g) + [if doc then DocFrame(map[], "") else ArrFrame([])];
    }

    /** Ends the innermost builder; what it built is in its place in the enclosing one. */
    method Close()
      requires |frames| >= 2
      modifies this
      ensures
        var outer := old(frames)[..|old(frames)| - 1];
        var inner := old(Top(frames));
        frames == OnTop(outer, Refilled(Top(outer), if inner.DocFrame? then VDoc(inner.fields) else VArr(inner.els)))
    {
      var inner := Top(frames);
      frames := frames[..|frames| - 1];
      var f, v := Top(frames), if inner.DocFrame? then VDoc(inner.fields) else VArr(inner.els);
      frames := OnTop(frames, Refilled(f, v));
    }
  }
}
