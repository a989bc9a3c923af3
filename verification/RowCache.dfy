/** A result that caches rows: a singly linked list with an iterator at its last node, filled in
    batches from a cursor through a filter. */
module RowCache {

  import opened ReplyMessages
  import opened ReplySession

  /** A node of the list. Its identity is what an iterator refers to. */
  datatype Node = Node(id: nat, row: Row)

  datatype Fetched = Fetched(row: Row) | Nothing

  type Filter = Row -> bool

  /** The iterator before the first node. */
  const BeforeBegin: nat := 0

  /** Rows read at a time. */
  const Batch: nat := 1024

  function Accepted(f: Filter, rows: seq<Row>): seq<Row> {
    if rows == [] then []
    else Accepted(f, rows[..|rows| - 1]) + (if f(rows[|rows| - 1]) then [rows[|rows| - 1]] else [])
  }

  function RowsOf(cache: seq<Node>): (rows: seq<Row>)
    ensures |rows| == |cache|
    ensures forall k :: 0 <= k < |cache| ==> rows[k] == cache[k].row
  {
    if cache == [] then [] else RowsOf(cache[..|cache| - 1]) + [cache[|cache| - 1].row]
  }

  lemma {:induction false} AcceptedAppend(f: Filter, a: seq<Row>, b: seq<Row>)
    ensures Accepted(f, a + b) == Accepted(f, a) + Accepted(f, b)
    decreases |b|
  {
    if b == [] {
      assert a + b == a;
    } else {
      var n := |b| - 1;
      assert (a + b)[..|a| + n] == a + b[..n];
      AcceptedAppend(f, a, b[..n]);
    }
  }

  ghost predicate AcceptsEverything(f: Filter) { forall r :: f(r) }

  lemma {:induction false} AcceptsAll(f: Filter, rows: seq<Row>)
    requires AcceptsEverything(f)
    ensures Accepted(f, rows) == rows
    decreases |rows|
  {
    if rows != [] {
      AcceptsAll(f, rows[..|rows| - 1]);
      assert rows == rows[..|rows| - 1] + [rows[|rows| - 1]];
    }
  }

  function AcceptedSets(f: Filter, sets: seq<seq<Row>>): seq<seq<Row>> {
    if sets == [] then [] else [Accepted(f, sets[0])] + AcceptedSets(f, sets[1..])
  }

  lemma NoSets(f: Filter, sets: seq<seq<Row>>)
    ensures AcceptedSets(f, []) == [] && [] + AcceptedSets(f, sets) == AcceptedSets(f, sets)
  {
  }

  lemma SetsStep(f: Filter, all: seq<seq<Row>>, rows: seq<Row>, next: seq<seq<Row>>)
    ensures all + AcceptedSets(f, [rows] + next) == all + [Accepted(f, rows)] + AcceptedSets(f, next)
  {
    hide Accepted;
    assert ([rows] + next)[1..] == next;
  }

  function Least(a: nat, b: nat): nat { if a <= b then a else b }

  /** The cache is empty and the next batch has no row that the filter accepts. */
  predicate NothingNext(f: Filter, cache: seq<Node>, unread: seq<Row>) {
    cache == [] && Accepted(f, unread[..Least(Batch, |unread|)]) == []
  }

  class Result {
    const session: Session
    const filter: Filter
    var cursor: Cursor?
    var inited: bool
    var pending: bool
    var cache: seq<Node>
    var size: nat
    var tail: nat
    var nextId: nat
    /** Rows of the current result set, and those already returned. */
    ghost var rows: seq<Row>
    ghost var returned: seq<Row>

    constructor (s: Session, f: Filter)
      requires s.Valid() && s.cursor == null
      ensures Valid() && session == s && filter == f && !inited && returned == [] && rows == [] && cursor == null
    {
      hide RowsOf, Accepted, Sound, Session.Valid;
      EmptyCache(f);
      session, filter := s, f;
      cursor, inited, pending := null, false, false;
      cache, size, tail, nextId := [], 0, BeforeBegin, 1;
      rows, returned := [], [];
    }

    ghost predicate Valid()
      reads this, session, cursor, session.cursor
    {
      && session.Valid()
      && CursorFits()
      && CacheOk()
      && returned + RowsOf(cache) + Accepted(filter, Unread()) == Accepted(filter, rows)
    }

    /** While rows are pending the session is reading this very result set. */
    ghost predicate CursorFits()
      reads this, session, cursor
    {
      && (pending ==>
            && inited && cursor != null && session.cursor == cursor && cursor.session == session && !cursor.closed
            && session.at.phase == Reading && session.rcv.completed
            && session.at.n < |session.at.items| && session.at.items[session.at.n].RSet?
            && rows == session.at.items[session.at.n].rows && session.at.got <= |rows|)
      && (!pending ==> session.cursor == null)
    }

    ghost predicate CacheOk()
      reads this
    {
      && size == |cache|
      && (forall k :: 0 <= k < |cache| ==> BeforeBegin < cache[k].id < nextId)
      && (forall k, l :: 0 <= k < l < |cache| ==> cache[k].id != cache[l].id)
      && (cache != [] ==> tail == cache[|cache| - 1].id)
      && BeforeBegin < nextId
    }

    ghost function Unread(): seq<Row>
      reads this, session
    {
      if pending && session.at.got <= |rows| then rows[session.at.got..] else []
    }

    /** The reply is the same, and if it has no gap, nothing was thrown and the result sets ahead are
        the same. */
    ghost predicate KeepsAhead(threw: bool, was: Place)
      reads session
    {
      session.at.items == was.items && (Tidy(was.items) ==> !threw && Ahead(session.at) == Ahead(was))
    }

    /** The first result set that was ahead is the current one now, if there was one. */
    ghost predicate Opened(threw: bool, was: Place)
      reads this, session
    {
      && session.at.items == was.items
      && (Tidy(was.items) ==>
            && !threw
            && if Ahead(was) == [] then rows == [] else rows == Ahead(was)[0] && Ahead(session.at) == Ahead(was)[1..])
    }

    /** Inserts a node after the one the iterator refers to. */
    method EmplaceAfter(row: Row)
      requires CacheOk() && (cache == [] ==> tail == BeforeBegin)
      modifies this`cache, this`tail, this`nextId
      ensures cache == old(cache) + [Node(old(nextId), row)]
      ensures tail == old(nextId) && nextId == old(nextId) + 1
    {
      var k := 0;
      if tail != BeforeBegin {
        while cache[k].id != tail
          invariant 0 <= k < |cache|
          invariant forall j :: 0 <= j < k ==> cache[j].id != tail
          decreases |cache| - k
        {
          k := k + 1;
        }
        k := k + 1;
      }
      assert k == |cache|;
      cache := cache[..k] + [Node(nextId, row)] + cache[k..];
      tail, nextId := nextId, nextId + 1;
    }

    /** A complete row has arrived. */
    method RowEnd(row: Row)
      requires CacheOk() && (cache == [] ==> tail == BeforeBegin)
      modifies this`cache, this`tail, this`nextId, this`size
      ensures CacheOk() && (cache == [] ==> tail == BeforeBegin)
      ensures RowsOf(cache) == RowsOf(old(cache)) + Accepted(filter, [row])
    {
      assert Accepted(filter, [row]) == if filter(row) then [row] else [] by {
        assert [row][..0] == [];
      }
      if filter(row) {
        EmplaceAfter(row);
        size := size + 1;
      }
    }

    /** Rows arrive one by one. */
    method Feed(batch: seq<Row>)
      requires CacheOk() && (cache == [] ==> tail == BeforeBegin)
      modifies this`cache, this`tail, this`nextId, this`size
      ensures CacheOk()
      ensures RowsOf(cache) == RowsOf(old(cache)) + Accepted(filter, batch)
    {
      hide RowsOf, Accepted;
      assert Accepted(filter, batch[..0]) == [] by { AcceptedAppend(filter, batch[..0], []); AcceptedNone(filter); }
      for k := 0 to |batch|
        invariant CacheOk() && (cache == [] ==> tail == BeforeBegin)
        invariant RowsOf(cache) == RowsOf(old(cache)) + Accepted(filter, batch[..k])
      {
        RowEnd(batch[k]);
        AcceptedAppend(filter, batch[..k], [batch[k]]);
        assert batch[..k + 1] == batch[..k] + [batch[k]];
      }
      assert batch[..|batch|] == batch;
    }

    /** Reads `prefetch` rows from the cursor, or all if `prefetch` is 0 or not that many are left. */
    method ReadBatch(prefetch: nat) returns (batch: seq<Row>)
      requires session.Valid() && CursorFits() && pending
      modifies session, cursor
      ensures session.Valid() && session.cursor == cursor && session.at.items == old(session.at).items
      ensures !cursor.closed && cursor.session == session
      ensures
        var left := rows[old(session.at).got..];
        && batch == (if prefetch == 0 then left else left[..Least(prefetch, |left|)])
        && (cursor.ended <==> prefetch == 0 || |left| < prefetch)
      ensures if cursor.ended then session.at.phase != Reading && session.at.n == old(session.at).n + 1
              else session.at.phase == Reading && session.rcv.completed && session.at.n == old(session.at).n
                   && session.at.got == old(session.at).got + prefetch <= |rows|
    {
      var before := |cursor.out|;
      ghost var was := session.at;
      var threw := cursor.GetRows(prefetch > 0, prefetch);
      assert session.at == was && session.at.phase == Reading;
      ghost var left := rows[was.got..];
      threw := cursor.Wait();
      batch := cursor.out[before..];
      if session.at.phase == Reading {
        assert rows[was.got..session.at.got] == left[..prefetch];
        assert batch == rows[was.got..session.at.got];
      } else {
        assert batch == left;
        assert prefetch > 0 ==> left[..|left|] == left;
      }
    }

    /** Reads a batch into the cache. */
    method LoadRows(prefetch: nat)
      requires Valid() && pending && (cache == [] || prefetch == 0)
      modifies this`tail, this`cache, this`nextId, this`size, session, cursor
      ensures session.Valid() && session.cursor == cursor && cursor.session == session && !cursor.closed && CacheOk()
      ensures
        var left := old(Unread());
        && (cursor.ended <==> prefetch == 0 || |left| < prefetch)
        && RowsOf(cache) == RowsOf(old(cache)) + Accepted(filter, if cursor.ended then left else left[..prefetch])
      ensures !cursor.ended ==> CursorFits() && Unread() == old(Unread())[prefetch..]
      ensures session.at.items == old(session.at).items && Ahead(session.at) == Ahead(old(session.at))
    {
      hide RowsOf, Accepted, Sound, Session.Valid, Session.CursorOk, Session.Settled, Session.Jams, Cursor.Took,
        Cursor.Emptied, Session.Now, Tidy;
      if cache == [] {
        tail := BeforeBegin;
      }
      ghost var left := Unread();
      var batch := ReadBatch(prefetch);
      assert left[..|left|] == left;
      Feed(batch);
    }

    /** The rows are exhausted: the cursor is closed and what follows in the reply is looked at,
        which may fail. */
    method Finish() returns (threw: bool)
      requires session.Valid() && cursor != null && session.cursor == cursor && cursor.session == session
        && !cursor.closed
      modifies session, cursor
      ensures session.Valid() && session.cursor == null
      ensures KeepsAhead(threw, old(session.at))
    {
      hide RowsOf, Accepted, Sound, Session.Valid, Session.CursorOk, Session.Settled, Session.Jams, Cursor.Took,
        Cursor.Emptied, Tidy;
      threw := cursor.Close();
      var yes;
      yes, threw := session.HasResults();
    }

    /** Fills the cache from the cursor. */
    method Load(prefetch: nat) returns (threw: bool)
      requires Valid() && pending && (cache == [] || prefetch == 0)
      modifies this, session, cursor
      ensures Valid() && inited && rows == old(rows) && returned == old(returned) && cursor == old(cursor)
      ensures KeepsAhead(threw, old(session.at))
      ensures pending <==> 0 < prefetch <= |old(Unread())|
      ensures
        var left := old(Unread());
        RowsOf(cache) == RowsOf(old(cache)) + Accepted(filter, if pending then left[..prefetch] else left)
    {
      hide RowsOf, Accepted, Sound, Session.Valid, Session.CursorOk, Session.Settled, Session.Jams, Cursor.Took,
        Cursor.Emptied, Session.Now, Tidy;
      ghost var left := Unread();
      LoadRows(prefetch);
      pending := !cursor.ended;
      threw := false;
      if !pending {
        threw := Finish();
      }
      ghost var read := if pending then left[..prefetch] else left;
      assert left == read + Unread();
      AcceptedAppend(filter, read, Unread());
      Conserved(returned, RowsOf(old(cache)), RowsOf(cache), Accepted(filter, read), Accepted(filter, Unread()));
    }

    method Drop()
      requires Valid()
      modifies this, session, cursor
      ensures session.Valid() && session.cursor == null && cursor == null && inited && !pending
      ensures cache == [] && CacheOk() && rows == [] && returned == []
      ensures session.at.items == old(session.at).items && Ahead(session.at) == Ahead(old(session.at))
    {
      hide RowsOf, Accepted, Sound, Session.Valid, Session.CursorOk, Session.Settled, Session.Jams, Cursor.Took,
        Cursor.Emptied, Session.Now, Tidy;
      if pending {
        var threw := cursor.Close();
      }
      cursor, cache, size, pending, inited := null, [], 0, false, true;
      rows, returned := [], [];
    }

    /** Opens the next result set of the session, if there is one. */
    method Open() returns (c: Cursor?, threw: bool)
      requires session.Valid() && session.cursor == null
      modifies session
      ensures session.Valid() && session.at.items == old(session.at).items
      ensures c == null ==> session.cursor == null
      ensures c != null ==>
        && fresh(c) && !threw && session.cursor == c && c.session == session && !c.closed
        && session.at.phase == Reading && session.rcv.completed && HasSet(session.at) && session.at.got == 0
      ensures Tidy(session.at.items) ==>
        && !threw
        && Ahead(old(session.at)) == if c == null then [] else [session.at.items[session.at.n].rows] + Ahead(session.at)
    {
      hide RowsOf, Accepted, Sound, Session.Valid, Session.CursorOk, Session.Settled, Session.Jams, Cursor.Took,
        Cursor.Emptied;
      var yes;
      yes, threw := session.HasResults();
      if threw || !yes {
        return null, threw;
      }
      ghost var ready := session.at;
      c := session.OpenCursor();
      threw := c.Wait();
      AheadOpened(ready, session.at);
    }

    /** Starts with a newly opened result set. */
    method Adopt(c: Cursor)
      requires session.Valid() && session.cursor == c && c.session == session && !c.closed
      requires session.at.phase == Reading && session.rcv.completed && HasSet(session.at) && session.at.got == 0
      requires inited && !pending && cache == [] && CacheOk() && rows == [] && returned == []
      modifies this
      ensures Valid() && inited && pending && returned == [] && cache == [] && cursor == c
      ensures rows == session.at.items[session.at.n].rows
    {
      hide RowsOf, Accepted, Sound, Session.Valid, Session.CursorOk, Session.Settled, Session.Jams, Cursor.Took,
        Cursor.Emptied, Session.Now, Tidy, Ahead;
      cursor, pending, rows := c, true, session.at.items[session.at.n].rows;
      NothingRead(filter, rows);
    }

    /** Moves on to the next result set of the reply, dropping what is left of the current one. */
    method NextResult() returns (yes: bool, threw: bool)
      requires Valid()
      modifies this, session, cursor
      ensures Valid() && inited && returned == [] && cache == []
      ensures yes ==> !threw && pending && session.at.phase == Reading && session.at.got == 0
      ensures !yes ==> !pending && rows == []
      ensures cursor != null ==> fresh(cursor)
      ensures session.at.items == old(session.at).items
      ensures Tidy(session.at.items) ==>
        !threw && Ahead(old(session.at)) == if yes then [rows] + Ahead(session.at) else []
    {
      hide RowsOf, Accepted, Sound, Session.Valid, Session.CursorOk, Session.Settled, Session.Jams, Cursor.Took,
        Cursor.Emptied, Session.Now, Tidy, Ahead;
      Drop();
      EmptyCache(filter);
      var c;
      c, threw := Open();
      yes := c != null;
      if yes {
        Adopt(c);
      }
    }

    // What callers use

    /** Tells if there are rows in the cache now. With `prefetch` 0 all rows are in the cache
        afterwards, but the answer is false if the result was initialised and no rows were pending. */
    method LoadCache(prefetch: nat) returns (yes: bool, threw: bool)
      requires Valid()
      modifies this, session, cursor
      ensures Valid() && inited
      ensures old(inited) ==> rows == old(rows) && returned == old(returned)
      ensures old(inited) ==> KeepsAhead(threw, old(session.at)) && cursor == old(cursor) && (pending ==> old(pending))
      ensures !old(inited) ==> returned == []
      ensures !threw && prefetch > 0 ==> (yes <==> cache != [])
      ensures !threw && prefetch == 0 ==> !pending
      ensures !threw && prefetch > 0 && AcceptsEverything(filter) && cache == [] ==> !pending
      ensures !threw && prefetch == 0 ==> (yes <==> cache != [] && (old(inited) ==> old(pending)))
      ensures !threw && prefetch > 0 && old(inited) ==> AfterLoad(prefetch, old(cache), old(Unread()))
      ensures !threw && prefetch > 0 && !old(inited) ==> AfterLoad(prefetch, [], rows)
      ensures !old(inited) ==> Opened(threw, old(session.at))
    {
      hide RowsOf, Accepted, Sound, Session.Valid, Session.CursorOk, Session.Settled, Session.Jams, Cursor.Took,
        Cursor.Emptied, Session.Now, Tidy, Ahead, Valid, AfterLoad, CacheOk, CursorFits, AcceptsEverything, Unread;
      threw := false;
      if !inited {
        threw := Init();
        if threw {
          return false, true;
        }
      }
      yes, threw := FillUp(prefetch);
    }

    /** Opens the first result set. */
    method Init() returns (threw: bool)
      requires Valid() && !inited
      modifies this, session, cursor
      ensures Valid() && inited && returned == [] && cache == [] && (cursor != null ==> fresh(cursor))
      ensures Unread() == rows && (rows != [] ==> pending)
      ensures Opened(threw, old(session.at))
    {
      hide RowsOf, Accepted, Sound, Session.Valid, Session.CursorOk, Session.Settled, Session.Jams, Cursor.Took,
        Cursor.Emptied, Session.Now, Tidy, Ahead;
      var yes;
      yes, threw := NextResult();
    }

    method FillUp(prefetch: nat) returns (yes: bool, threw: bool)
      requires Valid() && inited
      modifies this, session, cursor
      ensures Valid() && inited && rows == old(rows) && returned == old(returned) && cursor == old(cursor)
      ensures KeepsAhead(threw, old(session.at)) && (pending ==> old(pending))
        && (!old(pending) ==> cache == old(cache))
      ensures !threw && prefetch > 0 ==> (yes <==> cache != [])
      ensures !threw && prefetch == 0 ==> !pending
      ensures !threw && prefetch > 0 && AcceptsEverything(filter) && cache == [] ==> !pending
      ensures !threw && prefetch == 0 ==> (yes <==> old(pending) && cache != [])
      ensures prefetch > 0 ==> AfterLoad(prefetch, old(cache), old(Unread()))
    {
      hide RowsOf, Accepted, Sound, Session.Valid, Session.CursorOk, Session.Settled, Session.Jams, Cursor.Took,
        Cursor.Emptied, Session.Now, Tidy;
      if cache != [] && prefetch != 0 {
        return true, false;
      }
      EmptyCache(filter);
      if !pending {
        return false, false;
      }
      ghost var left := Unread();
      threw := Load(prefetch);
      assert left[..|left|] == left;
      if AcceptsEverything(filter) && pending {
        AcceptsAll(filter, left[..prefetch]);
      }
      yes := cache != [];
    }

    /** The next row. Nothing comes exactly if the cache is empty and the next batch has no row that
        the filter accepts. */
    method GetRow() returns (r: Fetched, threw: bool)
      requires Valid()
      modifies this, session, cursor
      ensures Valid()
      ensures !threw ==> returned == (if old(inited) then old(returned) else []) + (if r.Fetched? then [r.row] else [])
      ensures old(inited) ==>
        inited && rows == old(rows) && KeepsAhead(threw, old(session.at)) && cursor == old(cursor)
          && (pending ==> old(pending))
      ensures !threw && old(inited) ==> (r.Nothing? <==> NothingNext(filter, old(cache), old(Unread())))
      ensures !threw && !old(inited) ==> (r.Nothing? <==> NothingNext(filter, [], rows))
      ensures !old(inited) ==> Opened(threw, old(session.at))
      ensures !threw && r.Nothing? ==> cache == []
      ensures !threw && r.Nothing? && AcceptsEverything(filter) ==> !pending && returned == rows
    {
      hide RowsOf, Accepted, Sound, Session.Valid, Session.CursorOk, Session.Settled, Session.Jams, Cursor.Took,
        Cursor.Emptied, Session.Now, Tidy;
      var yes;
      yes, threw := LoadCache(Batch);
      if threw || !yes {
        EmptyCache(filter);
        if AcceptsEverything(filter) {
          AcceptsAll(filter, rows);
        }
        return Nothing, threw;
      }
      var row := PopFront();
      r := Fetched(row);
    }

    method PopFront() returns (row: Row)
      requires Valid() && inited && cache != []
      modifies this`cache, this`size, this`returned
      ensures Valid() && returned == old(returned) + [row] && cache == old(cache)[1..] && row == old(cache)[0].row
    {
      hide RowsOf, Accepted, Sound, Session.Valid, Session.CursorOk, Session.Settled, Session.Jams, Cursor.Took,
        Cursor.Emptied, Session.Now, Tidy;
      row := cache[0].row;
      Shift(returned, cache, Accepted(filter, Unread()));
      cache, size := cache[1..], size - 1;
      returned := returned + [row];
    }

    /** Reads all remaining rows into the cache. */
    method Store() returns (threw: bool)
      requires Valid()
      modifies this, session, cursor
      ensures Valid() && inited
      ensures old(inited) ==>
        rows == old(rows) && returned == old(returned) && KeepsAhead(threw, old(session.at)) && cursor == old(cursor)
      ensures !threw ==> !pending && returned + RowsOf(cache) == Accepted(filter, rows)
    {
      hide RowsOf, Accepted, Sound, Session.Valid, Session.CursorOk, Session.Settled, Session.Jams, Cursor.Took,
        Cursor.Emptied, Session.Now, Tidy;
      var yes;
      yes, threw := LoadCache(0);
      EmptyCache(filter);
      assert !pending ==> returned + RowsOf(cache) + [] == returned + RowsOf(cache);
    }

    /** How many rows are left: those that later calls of GetRow return. */
    method Count() returns (count: nat, threw: bool)
      requires Valid()
      modifies this, session, cursor
      ensures Valid() && inited
      ensures old(inited) ==>
        rows == old(rows) && returned == old(returned) && KeepsAhead(threw, old(session.at)) && cursor == old(cursor)
      ensures !threw ==> !pending && count == |cache| && |returned| + count == |Accepted(filter, rows)|
    {
      threw := Store();
      count := size;
    }

    // Whole runs

    /** A caller that asks for the count and then takes rows until there is none gets exactly that many:
        all accepted rows that had not been returned before, in order, whatever the filter. */
    method TakeRest() returns (out: seq<Row>, count: nat, threw: bool)
      requires Valid() && inited
      modifies this, session, cursor
      ensures Valid() && inited && rows == old(rows) && cursor == old(cursor) && KeepsAhead(threw, old(session.at))
      ensures !threw ==> old(returned) + out == Accepted(filter, rows) && |out| == count && !HasData()
    {
      hide RowsOf, Accepted, Sound, Session.Valid, Session.CursorOk, Session.Settled, Session.Jams, Cursor.Took,
        Cursor.Emptied, Session.Now, Tidy, Ahead;
      out := [];
      count, threw := Count();
      if threw {
        return;
      }
      EmptyCache(filter);
      while true
        invariant Valid() && inited && !pending && rows == old(rows) && cursor == old(cursor)
        invariant returned == old(returned) + out && KeepsAhead(false, old(session.at))
        invariant |old(returned)| + count == |Accepted(filter, rows)|
        decreases |Accepted(filter, rows)| - |returned|
      {
        assert returned + RowsOf(cache) + [] == Accepted(filter, rows);
        ghost var was := session.at;
        var r;
        r, threw := GetRow();
        if threw {
          return;
        }
        if r.Nothing? {
          assert returned + [] + [] == returned;
          return;
        }
        out := out + [r.row];
        assert old(returned) + out == old(returned) + out[..|out| - 1] + [r.row];
      }
    }

    /** A caller that goes through all results of a reply gets the accepted rows of every result set
        that was ahead, one set after the other in the order of the server. */
    method TakeAll() returns (all: seq<seq<Row>>, threw: bool)
      requires Valid() && Tidy(session.at.items)
      modifies this, session, cursor
      ensures Valid() && session.at.items == old(session.at).items
      ensures !threw && all == AcceptedSets(filter, Ahead(old(session.at)))
    {
      hide RowsOf, Accepted, Sound, Session.Valid, Session.CursorOk, Session.Settled, Session.Jams, Cursor.Took,
        Cursor.Emptied, Session.Now, Tidy, Ahead, AcceptedSets;
      all := [];
      ghost var ahead := Ahead(session.at);
      NoSets(filter, ahead);
      var yes;
      yes, threw := NextResult();
      while yes
        invariant Valid() && inited && !threw && session.at.items == old(session.at).items && returned == []
        invariant cursor != null ==> fresh(cursor)
        invariant AcceptedSets(filter, ahead) ==
          all + AcceptedSets(filter, if yes then [rows] + Ahead(session.at) else [])
        decreases yes, |Ahead(session.at)|
      {
        ghost var next := Ahead(session.at);
        SetsStep(filter, all, rows, next);
        var out, count;
        out, count, threw := TakeRest();
        assert [] + out == out;
        all := all + [out];
        yes, threw := NextResult();
      }
      NoSets(filter, []);
    }

    predicate HasData()
      reads this
    {
      cache != [] || pending
    }

    /** What is in the cache after at most `prefetch` rows were read into it, if it was empty. */
    ghost predicate AfterLoad(prefetch: nat, cache0: seq<Node>, unread0: seq<Row>)
      reads this
    {
      if cache0 != [] then cache == cache0
      else RowsOf(cache) == Accepted(filter, unread0[..Least(prefetch, |unread0|)])
    }
  }

  /** A whole conversation: whatever notices the server puts between its messages, the rows that come
      out are the accepted rows of its result sets. */
  method ReadReply(msgs: seq<Msg>, ghost items: seq<Item>, f: Filter) returns (all: seq<seq<Row>>)
    requires Strip(msgs) == Reply(items) && Tidy(items)
    ensures all == AcceptedSets(f, SetRows(items, 0))
  {
    hide Sound, Accepted, AcceptedSets, Tidy, Strip, Reply, Jammed, SetRows;
    var session := new Session();
    var threw := session.Begin(msgs, items);
    var result := new Result(session, f);
    all, threw := result.TakeAll();
  }

  /** A conversation that goes out of step. The reply to the first command has a gap, so dropping it
      throws; dropping it once more does not. The answer to the second command is then what follows the
      gap in the reply to the first, whatever the server answers to the second. */
  method ReadAfterGap(first: seq<Msg>, ghost items: seq<Item>, second: seq<Msg>, ghost items2: seq<Item>, f: Filter)
    returns (threw: bool, again: bool, all: seq<seq<Row>>)
    requires Strip(first) == Reply(items) && Strip(second) == Reply(items2)
    requires !Tidy(items) && Tidy(AfterGap(items))
    ensures threw && !again && all == AcceptedSets(f, SetRows(AfterGap(items), 0))
  {
    hide Sound, Accepted, AcceptedSets, Tidy, Strip, Reply, Jammed, SetRows, Session.Valid;
    var session := new Session();
    JammedIsGap(items);
    threw := session.Begin(first, items);
    assert session.at == Asked([], items);
    threw := session.Discard();
    ghost var rest := AfterGap(items);
    assert Owed(session.at) == [rest] + [];
    again := session.Discard();
    ghost var owed := [rest];
    assert session.at.pending == owed;
    var failed := session.Begin(second, items2);
    assert (owed + [items2])[0] == rest;
    var result := new Result(session, f);
    all, failed := result.TakeAll();
  }

  /** The items that follow the first gap. */
  function AfterGap(items: seq<Item>): seq<Item> {
    var g := NextGap(items, 0);
    if g < |items| then items[g + 1..] else []
  }

  lemma Conserved(returned: seq<Row>, a: seq<Row>, b: seq<Row>, read: seq<Row>, left: seq<Row>)
    requires b == a + read
    ensures returned + b + left == returned + a + (read + left)
  {
  }

  lemma NothingRead(f: Filter, rows: seq<Row>)
    ensures rows[0..] == rows && [] + RowsOf([]) + Accepted(f, rows) == Accepted(f, rows)
  {
  }

  lemma Shift(returned: seq<Row>, cache: seq<Node>, unread: seq<Row>)
    requires cache != []
    ensures returned + [cache[0].row] + RowsOf(cache[1..]) + unread == returned + RowsOf(cache) + unread
  {
    hide RowsOf;
    var a, b := [cache[0].row], RowsOf(cache[1..]);
    assert RowsOf(cache) == a + b;
    assert returned + a + b == returned + (a + b);
  }

  lemma EmptyCache(f: Filter)
    ensures RowsOf([]) == [] && Accepted(f, []) == []
  {
  }

  lemma AcceptedNone(f: Filter)
    ensures Accepted(f, []) == []
  {
  }
}
