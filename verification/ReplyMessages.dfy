/** What a server sends in reply to a command. */
module ReplyMessages {

  type Row = seq<string>

  datatype Msg = Meta | RowMsg(row: Row) | FetchDone | FetchMore | StmtOk | Notice

  /** One place for a result set: a set with `more + 1` columns, or nothing, as after a stored
      routine that returns no set. */
  datatype Item = RSet(more: nat, rows: seq<Row>) | NoSet

  function Metas(k: nat): seq<Msg> { if k == 0 then [] else [Meta] + Metas(k - 1) }

  function RowMsgs(rows: seq<Row>): seq<Msg> { if rows == [] then [] else [RowMsg(rows[0])] + RowMsgs(rows[1..]) }

  /** Messages left when `k` column descriptions of item `n` have been read. */
  function MetaFrom(items: seq<Item>, n: nat, k: nat): seq<Msg>
    requires n <= |items|
    requires n < |items| && items[n].RSet? ==> k <= items[n].more + 1
    decreases |items| - n, 2
  {
    if n == |items| then [StmtOk]
    else if items[n].NoSet? then After(items, n)
    else Metas(items[n].more + 1 - k) + RowsFrom(items, n, 0)
  }

  /** Messages left when `got` rows of item `n` have been read. */
  function RowsFrom(items: seq<Item>, n: nat, got: nat): seq<Msg>
    requires n < |items| && items[n].RSet? && got <= |items[n].rows|
    decreases |items| - n, 1
  {
    RowMsgs(items[n].rows[got..]) + After(items, n)
  }

  function After(items: seq<Item>, n: nat): seq<Msg>
    requires n < |items|
    decreases |items| - n, 0
  {
    [if n + 1 < |items| then FetchMore else FetchDone] + MetaFrom(items, n + 1, 0)
  }

  /** A complete reply. */
  function Reply(items: seq<Item>): seq<Msg> { MetaFrom(items, 0, 0) }

  /** The replies that the protocol gives as examples: a result set with rows, one without, none, two of
      them, and one that nothing follows although more was announced. */
  lemma ReplyExamples(a: Row, b: Row)
    ensures Reply([RSet(0, [a, b])]) == [Meta, RowMsg(a), RowMsg(b), FetchDone, StmtOk]
    ensures Reply([RSet(1, [])]) == [Meta, Meta, FetchDone, StmtOk]
    ensures Reply([]) == [StmtOk]
    ensures Reply([RSet(0, [a]), RSet(1, [b])]) ==
      [Meta, RowMsg(a), FetchMore, Meta, Meta, RowMsg(b), FetchDone, StmtOk]
    ensures Reply([RSet(0, [a]), NoSet]) == [Meta, RowMsg(a), FetchMore, FetchDone, StmtOk]
  {
    ExampleParts(a, b);
    var one, empty := [RSet(0, [a, b])], [RSet(1, [])];
    var two, last := [RSet(0, [a]), RSet(1, [b])], [RSet(0, [a]), NoSet];
    assert MetaFrom(one, 1, 0) == [StmtOk] && MetaFrom(empty, 1, 0) == [StmtOk];
    assert RowsFrom(one, 0, 0) == [RowMsg(a), RowMsg(b)] + [FetchDone, StmtOk];
    assert RowsFrom(empty, 0, 0) == [] + [FetchDone, StmtOk];
    assert MetaFrom(two, 2, 0) == [StmtOk] && RowsFrom(two, 1, 0) == [RowMsg(b)] + [FetchDone, StmtOk];
    assert MetaFrom(two, 1, 0) == [Meta, Meta] + [RowMsg(b), FetchDone, StmtOk];
    assert After(two, 0) == [FetchMore] + [Meta, Meta, RowMsg(b), FetchDone, StmtOk];
    assert RowsFrom(two, 0, 0) == [RowMsg(a)] + After(two, 0);
    assert MetaFrom(two, 0, 0) == [Meta] + RowsFrom(two, 0, 0);
    assert MetaFrom(last, 2, 0) == [StmtOk] && MetaFrom(last, 1, 0) == [FetchDone, StmtOk];
    assert After(last, 0) == [FetchMore] + [FetchDone, StmtOk];
    assert RowsFrom(last, 0, 0) == [RowMsg(a)] + After(last, 0);
    assert MetaFrom(last, 0, 0) == [Meta] + RowsFrom(last, 0, 0);
  }

  lemma ExampleParts(a: Row, b: Row)
    ensures Metas(1) == [Meta] && Metas(2) == [Meta, Meta] && RowMsgs([]) == []
    ensures RowMsgs([a]) == [RowMsg(a)] && RowMsgs([b]) == [RowMsg(b)] && RowMsgs([a, b]) == [RowMsg(a), RowMsg(b)]
    ensures [a, b][0..] == [a, b] && [a][0..] == [a] && [b][0..] == [b]
  {
    assert Metas(0) == [] && [a][1..] == [] && [b][1..] == [] && [a, b][1..] == [b];
  }

  /** Several complete replies, one after the other. */
  function Replies(rs: seq<seq<Item>>): seq<Msg> { if rs == [] then [] else Reply(rs[0]) + Replies(rs[1..]) }

  lemma {:induction false} RepliesAppend(rs: seq<seq<Item>>, items: seq<Item>)
    ensures Replies(rs + [items]) == Replies(rs) + Reply(items)
    decreases |rs|
  {
    hide Reply;
    if rs == [] {
      assert [items][1..] == [] && Replies([items]) == Reply(items) + Replies([]);
      assert rs + [items] == [items];
    } else {
      assert (rs + [items])[1..] == rs[1..] + [items];
      RepliesAppend(rs[1..], items);
    }
  }

  /** The rest of a reply is the reply of the remaining items. */
  lemma {:induction false} RestIsReply(items: seq<Item>, n: nat, j: nat)
    requires n + j <= |items|
    ensures MetaFrom(items[n..], j, 0) == MetaFrom(items, n + j, 0)
    decreases |items| - j
  {
    var rest := items[n..];
    if j < |rest| {
      RestIsReply(items, n, j + 1);
      assert rest[j] == items[n + j];
      assert After(rest, j) == After(items, n + j);
      if rest[j].RSet? {
        assert RowsFrom(rest, j, 0) == RowsFrom(items, n + j, 0);
      }
    }
  }

  /** Messages without the notices, which the server may send at any time. */
  function Strip(msgs: seq<Msg>): seq<Msg> {
    if msgs == [] then []
    else if msgs[0].Notice? then Strip(msgs[1..])
    else [msgs[0]] + Strip(msgs[1..])
  }

  /** Result sets among the first `n` items. */
  function SetsBefore(items: seq<Item>, n: nat): seq<nat>
    requires n <= |items|
  {
    if n == 0 then [] else SetsBefore(items, n - 1) + (if items[n - 1].RSet? then [n - 1] else [])
  }

  /** Every result set once, in the order of the server. */
  lemma {:induction false} SetsInOrder(items: seq<Item>, n: nat)
    requires n <= |items|
    ensures forall i: nat :: i in SetsBefore(items, n) <==> i < n && items[i].RSet?
    ensures forall k, l :: 0 <= k < l < |SetsBefore(items, n)| ==> SetsBefore(items, n)[k] < SetsBefore(items, n)[l]
  {
    if n > 0 {
      SetsInOrder(items, n - 1);
      var s := SetsBefore(items, n - 1);
      assert forall k :: 0 <= k < |s| ==> s[k] in s;
    }
  }

  /** Where the receiver gives up: an empty place that is not the last one. */
  predicate Gap(items: seq<Item>, i: nat) { i + 1 < |items| && items[i].NoSet? }

  /** The first gap from a place on, or the number of items. */
  function NextGap(items: seq<Item>, from: nat): (g: nat)
    requires from <= |items|
    ensures from <= g <= |items| && (g < |items| ==> Gap(items, g)) && forall i: nat :: from <= i < g ==> !Gap(items, i)
    decreases |items| - from
  {
    if from == |items| || Gap(items, from) then from else NextGap(items, from + 1)
  }

  predicate Tidy(items: seq<Item>) { forall i: nat :: i < |items| ==> !Gap(items, i) }

  lemma MetasHead(k: nat)
    requires k > 0
    ensures Metas(0) == []
    ensures Metas(k) == [Meta] + Metas(k - 1)
  {
  }

  lemma MetaHead(items: seq<Item>, n: nat, k: nat)
    requires n <= |items|
    requires n < |items| && items[n].RSet? ==> k <= items[n].more + 1
    ensures n == |items| ==> MetaFrom(items, n, k) == [StmtOk]
    ensures n < |items| && items[n].NoSet? ==> MetaFrom(items, n, k) == After(items, n)
    ensures n < |items| && items[n].RSet? && k < items[n].more + 1 ==>
      MetaFrom(items, n, k) == [Meta] + MetaFrom(items, n, k + 1)
    ensures n < |items| && items[n].RSet? && k == items[n].more + 1 ==>
      MetaFrom(items, n, k) == RowsFrom(items, n, 0)
  {
    hide RowsFrom, After, Metas;
    if n < |items| && items[n].RSet? {
      var left, rest := items[n].more + 1 - k, RowsFrom(items, n, 0);
      MetasHead(left + 1);
      if left > 0 {
        MetasHead(left);
        assert [Meta] + Metas(left - 1) + rest == [Meta] + (Metas(left - 1) + rest);
      } else {
        assert [] + rest == rest;
      }
    }
  }

  lemma RowsHead(items: seq<Item>, n: nat, got: nat)
    requires n < |items| && items[n].RSet? && got <= |items[n].rows|
    ensures got == |items[n].rows| ==> RowsFrom(items, n, got) == After(items, n)
    ensures got < |items[n].rows| ==>
      RowsFrom(items, n, got) == [RowMsg(items[n].rows[got])] + RowsFrom(items, n, got + 1)
  {
    hide After;
    if got < |items[n].rows| {
      assert items[n].rows[got..][1..] == items[n].rows[got + 1..];
    } else {
      assert items[n].rows[got..] == [];
      assert RowMsgs([]) + After(items, n) == After(items, n);
    }
  }

  lemma AfterHead(items: seq<Item>, n: nat)
    requires n < |items|
    ensures n + 1 < |items| ==> After(items, n) == [FetchMore] + MetaFrom(items, n + 1, 0)
    ensures n + 1 == |items| ==> After(items, n) == [FetchDone] + [StmtOk]
  {
  }

  /** After leading notices are dropped, the head message is the head of the reply. */
  lemma HeadIs(msgs: seq<Msg>, m: Msg, rest: seq<Msg>)
    requires Strip(msgs) == [m] + rest && !m.Notice?
    ensures msgs != []
    ensures msgs[0].Notice? ==> Strip(msgs[1..]) == [m] + rest
    ensures !msgs[0].Notice? ==> msgs[0] == m && Strip(msgs[1..]) == rest
  {
    if !msgs[0].Notice? {
      assert Strip(msgs)[0] == msgs[0];
      assert Strip(msgs)[1..] == Strip(msgs[1..]);
    }
  }

  lemma {:induction false} StripAppend(a: seq<Msg>, b: seq<Msg>)
    ensures Strip(a + b) == Strip(a) + Strip(b)
  {
    if a == [] {
      assert a + b == b;
    } else {
      assert (a + b)[1..] == a[1..] + b;
      StripAppend(a[1..], b);
    }
  }

  /** What the next message can be while column descriptions are read. */
  lemma MetaNext(items: seq<Item>, n: nat, k: nat, stream: seq<Msg>, behind: seq<Msg>)
    requires n <= |items|
    requires if n < |items| && items[n].RSet? then k <= items[n].more + 1 else k == 0
    requires Strip(stream) == MetaFrom(items, n, k) + behind
    ensures stream != []
    ensures
      var m, rest := stream[0], Strip(stream[1..]);
      if m.Notice? then rest == MetaFrom(items, n, k) + behind
      else if m.Meta? then n < |items| && items[n].RSet? && k <= items[n].more
        && rest == MetaFrom(items, n, k + 1) + behind
      else if n < |items| && items[n].RSet? then
        k == items[n].more + 1 && !m.StmtOk? && Strip(stream) == RowsFrom(items, n, 0) + behind
      else if m.StmtOk? then n == |items| && Strip(stream) == [StmtOk] + behind
      else if m.FetchDone? then n + 1 == |items| && rest == [StmtOk] + behind
      else m.FetchMore? && n + 1 < |items| && rest == MetaFrom(items, n + 1, 0) + behind
  {
    hide MetaFrom, RowsFrom, After, Strip;
    MetaHead(items, n, k);
    if n == |items| {
      HeadThen(stream, [StmtOk], behind);
    } else {
      AfterHead(items, n);
      if items[n].NoSet? {
        HeadThen(stream, MetaFrom(items, n, k), behind);
      } else {
        RowsHead(items, n, 0);
        if k == items[n].more + 1 {
          HeadThen(stream, RowsFrom(items, n, 0), behind);
        } else {
          HeadThen(stream, [Meta] + MetaFrom(items, n, k + 1), behind);
        }
      }
    }
  }

  lemma HeadThen(stream: seq<Msg>, msgs: seq<Msg>, behind: seq<Msg>)
    requires Strip(stream) == msgs + behind && msgs != [] && !msgs[0].Notice?
    ensures stream != []
    ensures stream[0].Notice? ==> Strip(stream[1..]) == msgs + behind
    ensures !stream[0].Notice? ==> stream[0] == msgs[0] && Strip(stream[1..]) == msgs[1..] + behind
  {
    hide Strip;
    assert msgs + behind == [msgs[0]] + (msgs[1..] + behind);
    HeadIs(stream, msgs[0], msgs[1..] + behind);
  }

  /** What the next message can be while rows are read. */
  lemma RowsNext(items: seq<Item>, n: nat, got: nat, stream: seq<Msg>, behind: seq<Msg>)
    requires n < |items| && items[n].RSet? && got <= |items[n].rows|
    requires Strip(stream) == RowsFrom(items, n, got) + behind
    ensures stream != []
    ensures
      var m, rest := stream[0], Strip(stream[1..]);
      if m.Notice? then rest == RowsFrom(items, n, got) + behind
      else if got < |items[n].rows| then m == RowMsg(items[n].rows[got]) && rest == RowsFrom(items, n, got + 1) + behind
      else m == (if n + 1 < |items| then FetchMore else FetchDone) && rest == MetaFrom(items, n + 1, 0) + behind
  {
    hide MetaFrom, RowsFrom, After, Strip;
    RowsHead(items, n, got);
    AfterHead(items, n);
    if got < |items[n].rows| {
      HeadThen(stream, [RowMsg(items[n].rows[got])] + RowsFrom(items, n, got + 1), behind);
    } else {
      MetaHead(items, n + 1, 0);
      HeadThen(stream, After(items, n), behind);
    }
  }
}
