/** A session reading the replies to its commands: a queue of operations, a receiver that goes
    through the stages of a reply, and at most one open cursor. */
module ReplySession {

  import opened ReplyMessages

  /** Queued operations. */
  datatype Op = Send | RcvMeta | RcvStmt

  /** Stages of the receiver; `Done` also stands for no receiver. */
  datatype Stage = Start | MData | Rows | Close | Done

  /** Where a session is in its conversation with the server. */
  datatype Phase = Idle | Sending | Describing | Ready | Reading | Ending | Finished | Stuck | Broken

  /** The reply, the item being read, how many of its rows have been read, the result sets that have
      been opened, and the replies that come after it: none, unless a reply was given up unread. This
      is not part of the program. */
  datatype Place = Place(phase: Phase, items: seq<Item>, n: nat, got: nat, taken: seq<nat>, pending: seq<seq<Item>>)

  predicate Same(p: Place, q: Place) { p.items == q.items && p.pending == q.pending }

  /** What is still to be read when the current reply has been completed, or given up after a gap. */
  function Owed(p: Place): seq<seq<Item>>
    requires p.n <= |p.items|
  {
    if p.phase == Broken then [p.items[p.n..]] + p.pending else p.pending
  }

  /** The receiving operation: its stage, whether the current stage is completed, and how many
      columns it has described. */
  datatype Receiver = Receiver(stage: Stage, completed: bool, cols: nat)

  /** The state of a session, apart from its cursor. */
  datatype Snapshot = Snapshot(
    at: Place, stream: seq<Msg>, rcv: Receiver, command: seq<Msg>, queue: seq<Op>, hasResults: bool, replying: bool)

  /** The invariant of every run. Result sets are taken in order, each once. */
  ghost predicate Sound(s: Snapshot) {
    && s.at.n <= |s.at.items|
    && (s.replying <==> s.at.phase != Idle)
    && (s.hasResults <==> s.at.phase == Ready)
    && s.at.taken ==
       SetsBefore(s.at.items, if s.at.phase == Reading && s.at.n < |s.at.items| then s.at.n + 1 else s.at.n)
    && Fits(s)
  }

  /** What the queue, the receiver and the unread messages are in each phase. */
  ghost predicate Fits(s: Snapshot)
    requires s.at.n <= |s.at.items|
  {
    var r, behind := s.rcv, Replies(s.at.pending);
    match s.at.phase
    case Idle =>
      && r.completed && s.queue == [] && Fresh(r) && Strip(s.stream) == behind
      && (s.at.n == |s.at.items| || (0 < s.at.n && Gap(s.at.items, s.at.n - 1)))
    case Sending =>
      && r.completed && s.queue == [Send, RcvMeta] && Fresh(r) && s.at.n == 0
      && Strip(s.stream) + Strip(s.command) == Reply(s.at.items) + behind
    case Describing =>
      && s.queue == [RcvMeta] && (if r.completed then Fresh(r) else r.stage == Start || r.stage == MData)
      && Described(s, if r.completed then 0 else r.cols)
    case Ready => r.completed && s.queue == [] && r.stage == Rows && InRows(s, 0)
    case Reading => s.queue == [] && r.stage == Rows && InRows(s, s.at.got)
    case Ending =>
      s.queue == [RcvStmt] && r.stage == Close && Strip(s.stream) == [StmtOk] + behind && s.at.n == |s.at.items|
    case Finished => r.completed && s.queue == [] && r.stage == Done && Strip(s.stream) == behind
      && s.at.n == |s.at.items|
    case Stuck => s.queue == [RcvStmt] && GivenUp(s)
    case Broken => s.queue == [] && GivenUp(s)
  }

  /** A receiver that can start to read column descriptions. */
  predicate Fresh(r: Receiver) { r.stage == Done || r.stage == MData }

  /** The receiver stopped after a gap, and all that follows the gap is unread. */
  ghost predicate GivenUp(s: Snapshot)
    requires s.at.n <= |s.at.items|
  {
    && s.rcv.completed && s.rcv.stage == MData && 0 < s.at.n && Gap(s.at.items, s.at.n - 1)
    && Strip(s.stream) == MetaFrom(s.at.items, s.at.n, 0) + Replies(s.at.pending)
  }

  ghost predicate Described(s: Snapshot, k: nat)
    requires s.at.n <= |s.at.items|
  {
    && (if s.at.n < |s.at.items| && s.at.items[s.at.n].RSet? then k <= s.at.items[s.at.n].more + 1 else k == 0)
    && Strip(s.stream) == MetaFrom(s.at.items, s.at.n, k) + Replies(s.at.pending)
  }

  ghost predicate InRows(s: Snapshot, k: nat)
    requires s.at.n <= |s.at.items|
  {
    && s.at.n < |s.at.items| && s.at.items[s.at.n].RSet? && k <= |s.at.items[s.at.n].rows|
    && Strip(s.stream) == RowsFrom(s.at.items, s.at.n, k) + Replies(s.at.pending)
  }

  /** While columns are described: a notice, or one more description. */
  lemma MetaGoesOn(s: Snapshot)
    requires Sound(s) && s.at.phase == Describing && !s.rcv.completed
    ensures s.stream != []
    ensures s.stream[0].Notice? ==> Sound(s.(stream := s.stream[1..]))
    ensures s.stream[0].Meta? ==> Sound(s.(stream := s.stream[1..], rcv := Receiver(MData, false, s.rcv.cols + 1)))
  {
    hide MetaFrom, RowsFrom, After, Strip, Reply, SetsBefore, Replies;
    MetaNext(s.at.items, s.at.n, s.rcv.cols, s.stream, Replies(s.at.pending));
  }

  /** The state after the message that ends the descriptions, once the operation is dequeued. */
  ghost function Ended(s: Snapshot): Snapshot
    requires s.stream != []
  {
    var m, t, cols := s.stream[0], s.(hasResults := s.rcv.cols > 0), s.rcv.cols;
    if cols > 0 then t.(at := s.at.(phase := Ready), rcv := Receiver(Rows, true, cols), queue := [])
    else if m.StmtOk? then t.(at := s.at.(phase := Ending), rcv := Receiver(Close, true, 0), queue := [RcvStmt])
    else
      t.(at := s.at.(phase := if m.FetchMore? then Stuck else Ending, n := s.at.n + 1),
         rcv := Receiver(if m.FetchMore? then MData else Close, true, 0),
         queue := [RcvStmt], stream := s.stream[1..])
  }

  lemma MetaEnds(s: Snapshot)
    requires Sound(s) && s.at.phase == Describing && !s.rcv.completed
    requires s.stream != [] && !s.stream[0].Notice? && !s.stream[0].Meta?
    ensures s.queue == [RcvMeta] && Sound(Ended(s)) && s.replying && s.at.n <= |s.at.items|
    ensures s.rcv.cols > 0 <==> s.at.n < |s.at.items| && s.at.items[s.at.n].RSet?
    ensures s.rcv.cols > 0 ==> !s.stream[0].StmtOk?
    ensures s.rcv.cols == 0 ==> !s.stream[0].RowMsg? && (s.stream[0].StmtOk? <==> s.at.n == |s.at.items|)
    ensures s.rcv.cols == 0 ==> Ended(s).at.phase == if Gap(s.at.items, s.at.n) then Stuck else Ending
  {
    hide MetaFrom, RowsFrom, After, Strip, Reply, SetsBefore, Replies;
    MetaNext(s.at.items, s.at.n, s.rcv.cols, s.stream, Replies(s.at.pending));
    if s.at.n < |s.at.items| {
      TakenStep(s.at.items, s.at.n);
    }
  }

  /** The state after the last message of the rows. */
  ghost function AtEnd(s: Snapshot): Snapshot
    requires s.stream != []
  {
    var t, cols := s.(stream := s.stream[1..]), s.rcv.cols;
    if s.stream[0].FetchMore? then
      t.(at := s.at.(phase := Describing, n := s.at.n + 1), rcv := Receiver(MData, true, cols), queue := [RcvMeta])
    else
      t.(at := s.at.(phase := Ending, n := s.at.n + 1), rcv := Receiver(Close, true, cols), queue := [RcvStmt])
  }

  /** While rows are read: a notice, the next row, or the end of the rows. */
  lemma RowsGoOn(s: Snapshot, done: bool)
    requires Sound(s) && s.at.phase == Reading
    ensures s.stream != [] && s.at.n < |s.at.items| && s.at.items[s.at.n].RSet? && s.at.got <= |s.at.items[s.at.n].rows|
    ensures s.queue == [] && s.rcv.stage == Rows
    ensures s.stream[0].Notice? ==> Sound(s.(stream := s.stream[1..], rcv := s.rcv.(completed := done)))
    ensures !s.stream[0].Notice? && s.at.got < |s.at.items[s.at.n].rows| ==>
      && s.stream[0] == RowMsg(s.at.items[s.at.n].rows[s.at.got])
      && Sound(s.(stream := s.stream[1..], at := s.at.(got := s.at.got + 1), rcv := s.rcv.(completed := done)))
    ensures !s.stream[0].Notice? && s.at.got == |s.at.items[s.at.n].rows| ==>
      && s.stream[0] == (if s.at.n + 1 < |s.at.items| then FetchMore else FetchDone)
      && Sound(AtEnd(s))
  {
    hide MetaFrom, RowsFrom, After, Strip, Reply, SetsBefore, Replies;
    RowsNext(s.at.items, s.at.n, s.at.got, s.stream, Replies(s.at.pending));
    MetaHead(s.at.items, s.at.n + 1, 0);
  }

  lemma RowIsNext(s: Snapshot)
    requires Sound(s) && s.at.phase == Reading && s.stream != []
    ensures s.at.n < |s.at.items| && s.at.items[s.at.n].RSet? && s.at.got <= |s.at.items[s.at.n].rows|
    ensures
      var rows, g := s.at.items[s.at.n].rows, s.at.got;
      rows[g..g] == [] && (s.stream[0].RowMsg? ==> g < |rows| && rows[g..g + 1] == [s.stream[0].row])
  {
    hide Sound;
    RowsGoOn(s, false);
  }

  /** The other steps of the queue. */
  lemma SendStep(s: Snapshot)
    requires Sound(s) && s.at.phase == Sending
    ensures s.queue == [Send, RcvMeta] && s.at.n == 0
    ensures Sound(s.(stream := s.stream + s.command, queue := [RcvMeta], at := s.at.(phase := Describing)))
  {
    hide Strip, MetaFrom, SetsBefore, Replies;
    StripAppend(s.stream, s.command);
  }

  lemma MetaStarts(s: Snapshot)
    requires Sound(s) && s.at.phase == Describing
    ensures s.queue == [RcvMeta]
    ensures s.rcv.completed ==>
      && s.rcv.stage != Rows && s.rcv.stage != Close
      && Sound(s.(rcv := Receiver(if s.rcv.stage == MData then MData else Start, false, 0)))
  {
    hide Strip, MetaFrom, SetsBefore, Replies;
  }

  /** The state after the final answer. */
  ghost function Answered(s: Snapshot): Snapshot
    requires s.stream != []
  {
    s.(stream := s.stream[1..], rcv := s.rcv.(stage := Done, completed := true), queue := [],
       at := s.at.(phase := Finished))
  }

  lemma StmtStep(s: Snapshot)
    requires Sound(s) && s.at.phase == Ending
    ensures s.queue == [RcvStmt] && s.rcv.stage == Close && s.stream != []
    ensures Sound(s.(rcv := s.rcv.(completed := false)))
    ensures s.stream[0].Notice? ==> Sound(s.(stream := s.stream[1..]))
    ensures !s.stream[0].Notice? ==> s.stream[0].StmtOk? && Sound(Answered(s))
  {
    hide Strip, MetaFrom, SetsBefore, Replies;
    HeadIs(s.stream, StmtOk, Replies(s.at.pending));
  }

  lemma StuckStep(s: Snapshot)
    requires Sound(s) && s.at.phase == Stuck
    ensures s.queue == [RcvStmt] && s.rcv.stage == MData && s.rcv.completed
    ensures Sound(s.(queue := [], at := s.at.(phase := Broken)))
  {
    hide Strip, MetaFrom, SetsBefore, Replies;
  }

  lemma QueueOf(s: Snapshot)
    requires Sound(s)
    ensures s.queue != [] <==> s.at.phase in {Sending, Describing, Ending, Stuck}
    ensures s.queue != [] ==> (s.queue[0] == RcvMeta <==> s.at.phase == Describing)
    ensures s.queue != [] ==> (s.queue[0] == RcvStmt <==> s.at.phase == Ending || s.at.phase == Stuck)
    ensures s.at.phase == Stuck ==> s.rcv.completed
    ensures s.hasResults <==> s.at.phase == Ready
    ensures s.replying <==> s.at.phase != Idle
    ensures s.at.n <= |s.at.items|
    ensures s.at.phase == Finished || s.at.phase == Ending ==> s.at.n == |s.at.items|
    ensures s.at.phase == Idle ==> s.at.n == |s.at.items| || (0 < s.at.n && Gap(s.at.items, s.at.n - 1))
    ensures s.at.phase == Stuck || s.at.phase == Broken ==> 0 < s.at.n && Gap(s.at.items, s.at.n - 1)
    ensures s.at.phase == Ready ==>
      s.at.n < |s.at.items| && s.at.items[s.at.n].RSet? && s.rcv == Receiver(Rows, true, s.rcv.cols)
  {
    hide Strip, MetaFrom, SetsBefore, Replies;
  }

  lemma OpenStep(s: Snapshot)
    requires Sound(s) && s.at.phase == Ready
    ensures Sound(s.(hasResults := false, at := s.at.(phase := Reading, got := 0, taken := s.at.taken + [s.at.n])))
    ensures s.rcv.completed
  {
    hide Strip, MetaFrom, SetsBefore, RowsFrom, Replies;
    TakenStep(s.at.items, s.at.n);
  }

  lemma IdleFacts(s: Snapshot)
    requires Sound(s) && s.at.phase == Idle
    ensures s.queue == [] && Strip(s.stream) == Replies(s.at.pending) && s.at.taken == SetsBefore(s.at.items, s.at.n)
  {
    hide Strip, MetaFrom, SetsBefore, RowsFrom, Replies;
  }

  lemma EndStep(s: Snapshot)
    requires Sound(s) && s.at.phase == Finished
    ensures Sound(s.(replying := false, at := s.at.(phase := Idle))) && s.at.n == |s.at.items|
  {
    hide Strip, MetaFrom, SetsBefore, RowsFrom, Replies;
  }

  /** Giving up a reply after a gap leaves the rest of it to be read as a reply of its own. */
  lemma AbandonStep(s: Snapshot)
    requires Sound(s) && s.at.phase == Broken
    ensures s.at.n <= |s.at.items| && Sound(s.(replying := false, at := s.at.(phase := Idle, pending := Owed(s.at))))
  {
    hide Strip, MetaFrom, SetsBefore, RowsFrom, Reply;
    RestIsReply(s.at.items, s.at.n, 0);
    assert Reply(s.at.items[s.at.n..]) == MetaFrom(s.at.items, s.at.n, 0) by { ReplyIsMeta(s.at.items[s.at.n..]); }
    assert Owed(s.at)[1..] == s.at.pending;
  }

  lemma ReplyIsMeta(items: seq<Item>)
    ensures Reply(items) == MetaFrom(items, 0, 0)
  {
  }

  /** A new command is answered by the first reply that is still owed. */
  lemma BeginStep(s: Snapshot, msgs: seq<Msg>, items: seq<Item>)
    requires Sound(s) && s.at.phase == Idle && Strip(msgs) == Reply(items)
    ensures Sound(s.(replying := true, command := msgs, queue := [Send, RcvMeta], at := Asked(s.at.pending, items)))
  {
    hide Strip, MetaFrom, RowsFrom, Reply;
    RepliesAppend(s.at.pending, items);
  }

  /** The place of a command with the reply `items`, when `owed` replies are to come before it. */
  function Asked(owed: seq<seq<Item>>, items: seq<Item>): Place {
    var all := owed + [items];
    Place(Sending, all[0], 0, 0, [], all[1..])
  }

  const MaxRows: nat := 0x1_0000_0000_0000_0000

  class Session {
    var stream: seq<Msg>
    var rcv: Receiver
    var queue: seq<Op>
    var command: seq<Msg>
    var hasResults: bool
    var replying: bool
    var cursor: Cursor?
    ghost var at: Place

    constructor ()
      ensures Valid() && at.phase == Idle && cursor == null && !replying && at.pending == []
    {
      stream, rcv := [], Receiver(Done, true, 0);
      queue, command, hasResults, replying := [], [], false, false;
      cursor := null;
      at := Place(Idle, [], 0, 0, [], []);
    }

    ghost function Now(): Snapshot
      reads this
    {
      Snapshot(at, stream, rcv, command, queue, hasResults, replying)
    }

    ghost predicate Valid()
      reads this, cursor
    {
      Sound(Now()) && CursorOk(at.phase == Reading, rcv.completed) && (at.phase == Idle ==> cursor == null)
    }

    /** One cursor at most, which has rows to read exactly while they are being read. */
    ghost predicate CursorOk(reading: bool, idle: bool)
      reads this`cursor, cursor
    {
      && (cursor != null ==> cursor.session == this && !cursor.closed && cursor.moreRows == reading)
      && (reading ==> cursor != null)
      && (cursor != null && !reading ==> !cursor.rowsOp)
      && (cursor != null && !cursor.rowsOp ==> !cursor.wanted || !reading)
      && (cursor != null && reading && !idle ==> cursor.rowsOp)
    }

    // The receiver

    /** Starts reading column descriptions; fails unless the receiver expects them. */
    method ResumeMeta() returns (threw: bool)
      modifies this`rcv
      ensures threw <==> old(rcv).stage == Rows || old(rcv).stage == Close
      ensures rcv == if threw then old(rcv) else Receiver(if old(rcv).stage == MData then MData else Start, false, 0)
    {
      if rcv.stage == Done {
        rcv := rcv.(stage := Start);
      }
      if rcv.stage != Start && rcv.stage != MData {
        return true;
      }
      rcv := rcv.(cols := 0, completed := false);
      return false;
    }

    /** Starts reading the rows or the final answer. */
    method ResumeIn(stage: Stage) returns (threw: bool)
      modifies this`rcv
      ensures threw <==> old(rcv).stage != stage || !old(rcv).completed
      ensures rcv == if threw then old(rcv) else old(rcv).(completed := false)
    {
      if rcv.stage != stage || !rcv.completed {
        return true;
      }
      rcv := rcv.(completed := false);
      return false;
    }

    /** The column count is known: without columns there is no result set, and only the final
        answer is left to read. */
    method ColCount(count: nat)
      modifies this`hasResults, this`queue
      ensures hasResults == (count != 0)
      ensures queue == old(queue) + (if count == 0 then [RcvStmt] else [])
    {
      hasResults := count != 0;
      if !hasResults {
        queue := queue + [RcvStmt];
      }
    }

    /** Handles one message while column descriptions are read; on completion the operation is
        still to be dequeued. `threw` tells of an unexpected message, which never comes. */
    method ReadMeta() returns (threw: bool)
      requires Valid() && at.phase == Describing && !rcv.completed
      modifies this
      ensures !threw && Same(at, old(at)) && at.got == old(at).got && cursor == old(cursor)
      ensures CursorOk(false, rcv.completed)
      ensures !rcv.completed ==> Valid() && at.phase == Describing && |stream| < |old(stream)| && at.n == old(at).n
      ensures rcv.completed ==> queue != [] && Sound(Now().(queue := queue[1..])) && HasDescribed(old(at).n)
    {
      hide Sound;
      MetaGoesOn(Now());
      var m := stream[0];
      if m.Notice? {
        stream := stream[1..];
        return false;
      }
      if m.Meta? {
        stream, rcv := stream[1..], Receiver(MData, false, rcv.cols + 1);
        return false;
      }
      threw := EndMeta(m);
    }

    /** The message that ends the column descriptions; it stays unread if it belongs to the rows
        or to the final answer. */
    method EndMeta(m: Msg) returns (threw: bool)
      requires Sound(Now()) && at.phase == Describing && !rcv.completed
      requires stream != [] && stream[0] == m && !m.Notice? && !m.Meta?
      modifies this
      ensures !threw && Same(at, old(at)) && at.got == old(at).got && cursor == old(cursor) && rcv.completed
      ensures queue != [] && Sound(Now().(queue := queue[1..])) && HasDescribed(old(at).n)
    {
      hide Sound;
      MetaEnds(Now());
      if (m.RowMsg? && rcv.cols == 0) || (m.StmtOk? && rcv.cols > 0) {
        return true;
      }
      ColCount(rcv.cols);
      if rcv.cols > 0 {
        rcv, at := rcv.(stage := Rows, completed := true), at.(phase := Ready);
      } else if m.StmtOk? {
        rcv, at := rcv.(stage := Close, completed := true), at.(phase := Ending);
      } else {
        rcv := rcv.(stage := if m.FetchMore? then MData else Close, completed := true);
        stream, at := stream[1..], at.(phase := if m.FetchMore? then Stuck else Ending, n := at.n + 1);
      }
      return false;
    }

    /** Handles one message while rows are read; the cursor passes rows on if they are wanted, and
        may ask to stop. */
    method ReadRow() returns (threw: bool)
      requires Valid() && at.phase == Reading && !rcv.completed
      modifies this, cursor
      ensures !threw && Valid() && Same(at, old(at)) && cursor == old(cursor) && |stream| < |old(stream)|
      ensures cursor.wanted == old(cursor.wanted) && cursor.limited == old(cursor.limited)
      ensures
        if at.phase == Reading then cursor.Took(old(cursor.limit), old(cursor.out), old(cursor.ended), old(at))
        else cursor.Drained(old(cursor.out), old(cursor.ended), old(at))
    {
      hide Sound;
      RowsGoOn(Now(), false);
      var m := stream[0];
      if m.FetchDone? || m.FetchMore? {
        threw := EndRows();
      } else if m.RowMsg? || m.Notice? {
        PassOn(m);
        threw := false;
      } else {
        threw := true;
      }
    }

    /** A row, or a notice, while rows are read. */
    method PassOn(m: Msg)
      requires Valid() && at.phase == Reading && !rcv.completed && stream != [] && stream[0] == m
        && (m.RowMsg? || m.Notice?)
      modifies this, cursor
      ensures Valid() && Same(at, old(at)) && cursor == old(cursor) && |stream| < |old(stream)|
      ensures cursor.wanted == old(cursor.wanted) && cursor.limited == old(cursor.limited) && at.phase == Reading
      ensures cursor.Took(old(cursor.limit), old(cursor.out), old(cursor.ended), old(at))
    {
      hide Sound;
      RowsGoOn(Now(), false);
      RowsGoOn(Now(), true);
      RowIsNext(Now());
      stream := stream[1..];
      if m.RowMsg? {
        cursor.RowEnd(m.row);
        at := at.(got := at.got + 1);
      }
      var goOn := cursor.MessageEnd();
      rcv := rcv.(completed := !goOn);
    }

    method EndRows() returns (threw: bool)
      requires Valid() && at.phase == Reading && !rcv.completed && stream != []
        && (stream[0].FetchDone? || stream[0].FetchMore?)
      modifies this, cursor
      ensures !threw && Valid() && Same(at, old(at)) && cursor == old(cursor) && |stream| < |old(stream)|
      ensures cursor.wanted == old(cursor.wanted) && cursor.limited == old(cursor.limited) && at.phase != Reading
      ensures cursor.Drained(old(cursor.out), old(cursor.ended), old(at))
    {
      hide Sound;
      RowsGoOn(Now(), false);
      ghost var was := Now();
      var more := stream[0].FetchMore?;
      stream := stream[1..];
      cursor.End(more);
      rcv := rcv.(stage := if more then MData else Close, completed := true);
      at := at.(phase := if more then Describing else Ending, n := at.n + 1);
      assert Now() == AtEnd(was);
      return false;
    }

    /** Reads the final answer. */
    method ReadStmt() returns (threw: bool)
      requires Valid() && at.phase == Ending && !rcv.completed
      modifies this
      ensures !threw && cursor == old(cursor) && CursorOk(false, rcv.completed)
      ensures !rcv.completed ==> Valid() && at == old(at) && |stream| < |old(stream)|
      ensures rcv.completed ==>
        queue != [] && Sound(Now().(queue := queue[1..])) && at == old(at).(phase := Finished)
    {
      hide Sound;
      StmtStep(Now());
      assert queue[1..] == [];
      var m := stream[0];
      if !m.Notice? && !m.StmtOk? {
        return true;
      }
      stream := stream[1..];
      if m.StmtOk? {
        rcv, at := rcv.(stage := Done, completed := true), at.(phase := Finished);
      }
      return false;
    }

    // The reply

    /** The reply cannot be read on: it has an empty place that is not the last one. */
    ghost predicate Jams()
      reads this
    {
      at.phase == Stuck || ((at.phase == Sending || at.phase == Describing) && Gap(at.items, at.n))
    }

    /** Completes the operation at the head of the queue and removes it. */
    method RunFront() returns (threw: bool)
      requires Valid() && queue != []
      modifies this
      ensures Valid() && Same(at, old(at)) && at.got == old(at).got && cursor == old(cursor)
      ensures old(at).phase in {Sending, Describing, Ending, Stuck}
      ensures threw <==> old(at).phase == Stuck
      ensures old(at).phase == Sending ==> at == old(at).(phase := Describing) && at.n == 0
      ensures old(at).phase == Describing ==> HasDescribed(old(at).n)
      ensures old(at).phase == Ending ==> at == old(at).(phase := Finished)
      ensures old(at).phase == Stuck ==> at == old(at).(phase := Broken)
    {
      hide Sound;
      QueueOf(Now());
      if at.phase == Sending {
        SendStep(Now());
      } else if at.phase == Describing {
        MetaStarts(Now());
      } else if at.phase == Ending {
        StmtStep(Now());
      } else {
        StuckStep(Now());
      }
      match queue[0] {
        case Send =>
          stream, queue := stream + command, queue[1..];
          at := at.(phase := Describing);
          threw := false;
        case RcvMeta =>
          threw := RunMeta();
        case RcvStmt =>
          threw := RunStmt();
      }
    }

    method RunMeta() returns (threw: bool)
      requires Valid() && at.phase == Describing
      modifies this
      ensures !threw && Valid() && Same(at, old(at)) && at.got == old(at).got && cursor == old(cursor)
      ensures HasDescribed(old(at).n)
    {
      hide Sound;
      MetaStarts(Now());
      if rcv.completed {
        threw := ResumeMeta();
      }
      threw := false;
      while !rcv.completed && !threw
        invariant !threw && Same(at, old(at)) && at.got == old(at).got && cursor == old(cursor)
        invariant CursorOk(false, rcv.completed)
        invariant !rcv.completed ==> Valid() && at.phase == Describing && at.n == old(at).n
        invariant rcv.completed ==> queue != [] && Sound(Now().(queue := queue[1..])) && HasDescribed(old(at).n)
        decreases !rcv.completed, |stream|
      {
        threw := ReadMeta();
      }
      queue := queue[1..];
    }

    method RunStmt() returns (threw: bool)
      requires Valid() && (at.phase == Ending || at.phase == Stuck)
      modifies this
      ensures Valid() && cursor == old(cursor)
      ensures threw <==> old(at).phase == Stuck
      ensures at == old(at).(phase := if threw then Broken else Finished)
    {
      hide Sound;
      if at.phase == Stuck {
        StuckStep(Now());
      } else {
        StmtStep(Now());
      }
      if rcv.completed {
        threw := ResumeIn(Close);
        if threw {
          queue, at := [], at.(phase := Broken);
          return;
        }
      }
      threw := false;
      while !rcv.completed && !threw
        invariant !threw && cursor == old(cursor) && CursorOk(false, rcv.completed)
        invariant !rcv.completed ==> Valid() && at == old(at) && at.phase == Ending
        invariant rcv.completed ==>
          queue != [] && Sound(Now().(queue := queue[1..])) && at == old(at).(phase := Finished)
        decreases !rcv.completed, |stream|
      {
        threw := ReadStmt();
      }
      queue := queue[1..];
    }

    /** Handles at most one message of the operation at the head of the queue. */
    method ContFront() returns (threw: bool)
      requires Valid()
      modifies this
      ensures Valid() && Same(at, old(at)) && cursor == old(cursor)
      ensures threw <==> old(at).phase == Stuck
      ensures old(at).n <= at.n
    {
      hide Sound;
      QueueOf(Now());
      if queue == [] {
        return false;
      }
      if queue[0] == RcvMeta {
        threw := ContMeta();
      } else if queue[0] == RcvStmt {
        threw := ContStmt();
      } else {
        threw := RunFront();
      }
    }

    method ContStmt() returns (threw: bool)
      requires Valid() && (at.phase == Ending || at.phase == Stuck)
      modifies this
      ensures Valid() && cursor == old(cursor)
      ensures threw <==> old(at).phase == Stuck
      ensures at == old(at) || at == old(at).(phase := if threw then Broken else Finished)
    {
      hide Sound;
      if at.phase == Stuck {
        StuckStep(Now());
      } else {
        StmtStep(Now());
      }
      if rcv.completed {
        threw := ResumeIn(Close);
        if threw {
          queue, at := [], at.(phase := Broken);
          return;
        }
      }
      threw := ReadStmt();
      if rcv.completed {
        queue := queue[1..];
      }
    }

    method ContMeta() returns (threw: bool)
      requires Valid() && at.phase == Describing
      modifies this
      ensures !threw && Valid() && Same(at, old(at)) && cursor == old(cursor)
      ensures at.n >= old(at).n
    {
      hide Sound;
      MetaStarts(Now());
      if rcv.completed {
        threw := ResumeMeta();
      }
      threw := ReadMeta();
      if rcv.completed {
        queue := queue[1..];
      }
    }

    /** Completes all queued operations. */
    method Wait() returns (threw: bool)
      requires Valid()
      modifies this
      ensures Valid() && Same(at, old(at)) && at.got == old(at).got && cursor == old(cursor) && queue == []
      ensures threw <==> old(Jams())
      ensures Settled(old(at)) && (old(queue) == [] ==> Now() == old(Now()))
    {
      hide Sound;
      threw := false;
      QueueOf(Now());
      while queue != [] && !threw
        invariant Valid() && Same(at, old(at)) && at.got == old(at).got && cursor == old(cursor)
        invariant !threw ==> Jams() == old(Jams())
        invariant threw ==>
          old(Jams()) && at.phase == Broken && at.n == if old(at).phase == Stuck then old(at).n else old(at).n + 1
        invariant !threw ==> Underway(old(at))
        invariant old(queue) == [] ==> Now() == old(Now())
        decreases !threw, Rank(at.phase)
      {
        QueueOf(Now());
        threw := RunFront();
      }
      QueueOf(Now());
    }

    /** Whether the reply has (another) result set; waits for its description. */
    method HasResults() returns (yes: bool, threw: bool)
      requires Valid()
      modifies this
      ensures Valid() && Same(at, old(at)) && at.got == old(at).got && cursor == old(cursor) && queue == []
      ensures threw <==> old(Jams())
      ensures Settled(old(at)) && (old(queue) == [] ==> Now() == old(Now()))
      ensures yes <==> at.phase == Ready
      ensures Tidy(at.items) ==> !threw && Ahead(at) == Ahead(old(at))
      ensures Tidy(at.items) && !yes && cursor == null ==> Ahead(at) == []
    {
      hide Sound, Ahead;
      QueueOf(Now());
      AheadAtEnd(at);
      if !replying {
        return false, false;
      }
      threw := Wait();
      QueueOf(Now());
      yes := hasResults;
      if !threw {
        AheadSettled(old(at), at);
        AheadAtEnd(at);
      }
    }

    /** Opens the next result set; null tells that this failed. */
    method OpenCursor() returns (c: Cursor?)
      requires Valid()
      modifies this
      ensures Valid() && Same(at, old(at))
      ensures c != null <==> old(cursor) == null && old(Offers())
      ensures c != null ==>
        && fresh(c) && cursor == c && c.session == this && rcv.completed
        && !c.closed && !c.rowsOp && c.out == [] && !c.ended
      ensures c != null ==> at.phase == Reading && at.n == old(at).n && at.got == 0 && HasSet(at)
      ensures old(cursor) != null ==> Now() == old(Now()) && cursor == old(cursor)
    {
      hide Sound;
      if cursor != null {
        return null;
      }
      var yes, threw := HasResults();
      if threw || !yes {
        return null;
      }
      c := new Cursor(this);
      QueueOf(Now());
      OpenStep(Now());
      hasResults, cursor := false, c;
      at := at.(phase := Reading, got := 0, taken := at.taken + [at.n]);
    }

    /** A result set is there to be opened, now or after waiting. */
    ghost predicate Offers()
      reads this
    {
      at.phase == Ready || ((at.phase == Sending || at.phase == Describing) && HasSet(at))
    }

    /** Opens the next result set, if there is one, and drops its rows. */
    method SkipResult() returns (threw: bool)
      requires Valid()
      modifies this, cursor
      ensures Valid() && Same(at, old(at)) && cursor == old(cursor)
      ensures threw <==> old(cursor) != null || old(Jams())
      ensures old(cursor) == null && old(at).phase == Ready ==>
        at.n == old(at).n + 1 && |queue| == 1 && at.phase == (if at.n < |at.items| then Describing else Ending)
    {
      hide Sound;
      if cursor != null {
        return true;
      }
      var yes;
      yes, threw := HasResults();
      if !threw && yes {
        var c := OpenCursor();
        threw := c.Close();
      }
    }

    /** One round of discarding: skips a result set and looks for the next one. */
    method SkipOne() returns (threw: bool)
      requires Valid() && at.phase == Ready && cursor == null
      modifies this
      ensures Valid() && Same(at, old(at)) && cursor == null && queue == [] && old(at).n < at.n <= |at.items|
      ensures threw ==> Jammed(old(at)) && StoppedAt(old(at))
      ensures !threw ==> (at.phase == Ready || at.phase == Finished) && SameGap(old(at), at)
      ensures hasResults <==> at.phase == Ready
    {
      hide Sound, NextGap;
      QueueOf(Now());
      threw := SkipResult();
      QueueOf(Now());
      ghost var mid := at;
      GapNext(old(at), mid);
      var yes;
      yes, threw := HasResults();
      QueueOf(Now());
      if threw {
        assert Gap(mid.items, mid.n);
        GapHere(mid);
      } else {
        GapSettled(mid, at);
      }
    }

    /** Reading has stopped after the first gap that was ahead. */
    ghost predicate StoppedAt(was: Place)
      reads this
      requires was.n <= |was.items|
    {
      at.phase == Broken && at.n == if was.phase == Stuck then was.n else NextGap(was.items, was.n) + 1
    }

    /** Reads the rest of the reply and drops it. After a gap nothing is read any more: the rest of the
        reply stays in the stream. */
    method Discard() returns (threw: bool)
      requires Valid()
      modifies this, cursor
      ensures Valid() && at.items == old(at).items && old(at).n <= |old(at).items|
      ensures threw <==> old(replying) && (old(cursor) != null || (old(at).phase != Broken && Jammed(old(at))))
      ensures threw ==> at.pending == old(at).pending && replying && cursor == old(cursor)
      ensures threw && old(cursor) == null ==> StoppedAt(old(at))
      ensures !threw ==> at.phase == Idle && !replying && queue == [] && cursor == null
      ensures !threw ==> at.pending == Owed(old(at)) && Strip(stream) == Replies(at.pending)
      ensures !threw && old(at).phase == Broken ==> stream == old(stream)
      ensures !threw && old(replying) && old(at).phase != Broken ==>
        at.n == |at.items| && at.taken == SetsBefore(at.items, |at.items|)
    {
      hide Sound, NextGap;
      QueueOf(Now());
      if !replying {
        IdleFacts(Now());
        return false;
      }
      if cursor != null {
        return true;
      }
      var yes;
      yes, threw := HasResults();
      QueueOf(Now());
      if threw {
        if old(at).phase != Stuck {
          GapHere(old(at));
        }
        return;
      }
      if at.phase != Broken {
        GapSettled(old(at), at);
      }
      threw := SkipAll();
      if !threw {
        End();
      }
    }

    /** Skips all result sets that are left, if the reply was not given up. */
    method SkipAll() returns (threw: bool)
      requires Valid() && cursor == null && queue == [] && at.phase in {Ready, Finished, Broken}
      modifies this
      ensures Valid() && Same(at, old(at)) && cursor == null && replying && old(at).n <= |old(at).items|
      ensures threw <==> old(at).phase != Broken && Jammed(old(at))
      ensures threw ==> StoppedAt(old(at))
      ensures !threw ==> if old(at).phase == Broken then Now() == old(Now()) else at.phase == Finished
    {
      hide Sound, NextGap;
      QueueOf(Now());
      threw := false;
      while hasResults && !threw
        invariant Valid() && Same(at, old(at)) && cursor == null && queue == [] && replying && at.n <= |at.items|
        invariant hasResults <==> at.phase == Ready
        invariant threw ==> old(at).phase != Broken && Jammed(old(at)) && StoppedAt(old(at))
        invariant !threw ==> if old(at).phase == Broken then Now() == old(Now())
                             else (at.phase == Ready || at.phase == Finished) && SameGap(old(at), at)
        decreases !threw, |at.items| - at.n
      {
        threw := SkipOne();
        QueueOf(Now());
      }
      QueueOf(Now());
    }

    /** Lets go of a reply that is completed or given up. */
    method End()
      requires Valid() && cursor == null && (at.phase == Finished || at.phase == Broken)
      modifies this`replying, this`at
      ensures Valid() && !replying && queue == [] && old(at).n <= |old(at).items|
      ensures at == old(at).(phase := Idle, pending := Owed(old(at))) && Strip(stream) == Replies(at.pending)
      ensures old(at).phase == Finished ==> at.n == |at.items| && at.taken == SetsBefore(at.items, |at.items|)
    {
      hide Sound;
      QueueOf(Now());
      if at.phase == Finished {
        EndStep(Now());
      } else {
        AbandonStep(Now());
      }
      replying, at := false, at.(phase := Idle, pending := Owed(at));
      IdleFacts(Now());
    }

    method CloseCursor() returns (threw: bool)
      requires Valid() && cursor != null
      modifies this, cursor
      ensures !threw && Valid() && cursor == null && Same(at, old(at)) && replying == old(replying)
      ensures if old(at).phase == Reading then at.phase != Broken && Jammed(at) == Jammed(old(at)) else at == old(at)
    {
      hide Sound, NextGap;
      if at.phase == Reading {
        PlaceFacts(Now());
      }
      QueueOf(Now());
      threw := cursor.Close();
      QueueOf(Now());
      if old(at).phase == Reading {
        GapNext(old(at), at);
      }
    }

    /** Starts a new command, for which the server will send `msgs`; completes the previous one. What is
        read in answer is the first reply that is still owed: the one to this command, unless an earlier
        reply was given up after a gap. */
    method Begin(msgs: seq<Msg>, ghost items: seq<Item>) returns (threw: bool)
      requires Valid() && Strip(msgs) == Reply(items)
      modifies this, cursor
      ensures Valid() && old(at).n <= |old(at).items|
      ensures threw <==> old(replying) && old(at).phase != Broken && Jammed(old(at))
      ensures threw ==> at.phase == Broken
      ensures !threw ==> cursor == null && replying && at == Asked(Owed(old(at)), items)
    {
      hide Sound;
      threw := false;
      QueueOf(Now());
      if replying {
        if cursor != null {
          threw := CloseCursor();
          QueueOf(Now());
        }
        threw := Discard();
        if threw {
          return;
        }
      }
      SendCommand(msgs, items);
    }

    /** Queues the command and the reading of what describes its first result set. */
    method SendCommand(msgs: seq<Msg>, ghost items: seq<Item>)
      requires Valid() && at.phase == Idle && Strip(msgs) == Reply(items)
      modifies this
      ensures Valid() && cursor == null && replying && at == Asked(old(at).pending, items)
    {
      hide Sound;
      IdleFacts(Now());
      BeginStep(Now(), msgs, items);
      queue := queue + [Send, RcvMeta];
      assert queue == [Send, RcvMeta];
      replying, command, at := true, msgs, Asked(at.pending, items);
    }

    /** What waiting has reached, from the place `was`. */
    ghost predicate Underway(was: Place)
      reads this
    {
      || at == was
      || (was.phase == Sending && at == was.(phase := Describing) && at.n == 0)
      || ((was.phase == Sending || was.phase == Describing) && HasDescribed(was.n))
      || ((was.phase == Sending || was.phase == Describing) && !HasSet(was) && !Gap(was.items, was.n)
        && at.phase == Finished)
      || (was.phase == Ending && at == was.(phase := Finished))
    }

    /** Where the session is when the queue has been worked off from the place `was`. */
    ghost predicate Settled(was: Place)
      reads this
    {
      match was.phase
      case Idle => at == was
      case Ready => at == was
      case Reading => at == was
      case Finished => at == was
      case Broken => at == was
      case Stuck => at.phase == Broken && at.n == was.n
      case Ending => at == was.(phase := Finished)
      case Sending => SettledSet(was)
      case Describing => SettledSet(was)
    }

    ghost predicate SettledSet(was: Place)
      reads this
    {
      if HasSet(was) then at.phase == Ready && at.n == was.n
      else if Gap(was.items, was.n) then at.phase == Broken && at.n == was.n + 1
      else at.phase == Finished
    }

    /** Where the session is once the column descriptions of item `m` have been read. */
    ghost predicate HasDescribed(m: nat)
      reads this
    {
      if m < |at.items| && at.items[m].RSet? then at.phase == Ready && at.n == m
      else at.phase == (if Gap(at.items, m) then Stuck else Ending) && at.n == if m < |at.items| then m + 1 else m
    }
  }

  /** The rest of the reply has an empty place that is not the last one. */
  ghost predicate Jammed(p: Place) {
    p.phase == Stuck || exists i: nat :: p.n <= i && Gap(p.items, i)
  }

  /** The same first gap is ahead. */
  ghost predicate SameGap(p: Place, q: Place)
    requires p.n <= |p.items| && q.n <= |q.items|
  {
    Jammed(p) == Jammed(q) && p.phase != Stuck && q.phase != Stuck && NextGap(p.items, p.n) == NextGap(q.items, q.n)
  }

  lemma GapNext(p: Place, q: Place)
    requires p.items == q.items && p.n <= |p.items| && p.phase != Stuck && q.phase != Stuck
    requires q.n == p.n || (q.n == p.n + 1 <= |q.items| && !Gap(p.items, p.n))
    ensures SameGap(p, q)
  {
    if i: nat :| p.n <= i && Gap(p.items, i) {
      assert q.n <= i;
    }
    if i: nat :| q.n <= i && Gap(q.items, i) {
      assert p.n <= i;
    }
  }

  lemma GapSettled(p: Place, q: Place)
    requires p.items == q.items && p.n <= |p.items| && q.n <= |q.items| && p.phase != Stuck && q.phase != Stuck
    requires if HasSet(p) then q.n == p.n else !Gap(p.items, p.n) && q.n == |q.items|
    ensures SameGap(p, q)
  {
    if HasSet(p) {
      GapNext(p, q);
    } else if p.n + 1 == |p.items| {
      GapNext(p, q);
    }
  }

  lemma GapHere(p: Place)
    requires p.n <= |p.items| && Gap(p.items, p.n)
    ensures NextGap(p.items, p.n) == p.n && Jammed(p)
  {
  }

  lemma JammedIsGap(items: seq<Item>)
    ensures Jammed(Asked([], items)) <==> !Tidy(items)
    ensures Jammed(Asked([], items)) <==> NextGap(items, 0) < |items|
  {
    var p := Asked([], items);
    assert p.items == items;
    if i: nat :| p.n <= i && Gap(p.items, i) {
      assert !Tidy(items);
    }
  }

  /** The rows of the result sets that have not been opened yet. */
  function Ahead(p: Place): seq<seq<Row>> { SetRows(p.items, if p.phase == Reading then p.n + 1 else p.n) }

  function SetRows(items: seq<Item>, from: nat): seq<seq<Row>>
    decreases |items| - from
  {
    if from >= |items| then []
    else (if items[from].RSet? then [items[from].rows] else []) + SetRows(items, from + 1)
  }

  lemma AheadSettled(p: Place, q: Place)
    requires p.items == q.items && p.n <= |p.items| && q.n <= |q.items|
    requires p.phase != Stuck
    requires p == q || (p.phase != Reading && q.phase != Reading)
    requires p == q || (if HasSet(p) then q.n == p.n else !Gap(p.items, p.n) && q.n == |q.items|)
    ensures Ahead(p) == Ahead(q)
  {
    if p != q && !HasSet(p) && p.n < |p.items| {
      assert SetRows(p.items, p.n) == [] + SetRows(p.items, p.n + 1);
    }
  }

  lemma AheadAtEnd(p: Place)
    ensures p.n >= |p.items| ==> Ahead(p) == []
  {
  }

  /** Opening a result set takes it from those ahead. */
  lemma AheadOpened(p: Place, q: Place)
    requires p.items == q.items && p.phase != Reading && q.phase == Reading && p.n == q.n && HasSet(p)
    ensures Ahead(p) == [p.items[p.n].rows] + Ahead(q)
  {
  }

  predicate HasSet(p: Place) { p.n < |p.items| && p.items[p.n].RSet? }

  function Rank(p: Phase): nat {
    match p
    case Sending => 3
    case Describing => 2
    case Ending => 1
    case Stuck => 1
    case Idle => 0
    case Ready => 0
    case Reading => 0
    case Finished => 0
    case Broken => 0
  }

  lemma PlaceFacts(s: Snapshot)
    requires Sound(s) && s.at.phase == Reading
    ensures s.at.n < |s.at.items| && s.at.items[s.at.n].RSet? && s.at.got <= |s.at.items[s.at.n].rows|
    ensures s.rcv.stage == Rows && s.queue == []
    ensures Sound(s.(rcv := s.rcv.(completed := false)))
  {
    hide Strip, MetaFrom, SetsBefore, RowsFrom, Replies;
  }

  /** A reply without such a place never jams, so nothing ever throws for it. */
  lemma TidyNeverJams(s: Snapshot)
    requires Sound(s) && Tidy(s.at.items)
    ensures !Jammed(s.at) && s.at.phase != Stuck && s.at.phase != Broken
  {
    hide Strip, MetaFrom, SetsBefore, RowsFrom, Replies;
  }

  lemma Slices(rows: seq<Row>, a: nat, b: nat, c: nat)
    requires a <= b <= c <= |rows|
    ensures forall out: seq<Row> :: out + rows[a..b] + rows[b..c] == out + rows[a..c]
    ensures b == |rows| ==> rows[a..b] == rows[a..]
  {
    forall out: seq<Row>
      ensures out + rows[a..b] + rows[b..c] == out + rows[a..c]
    {
    }
  }

  lemma TakenStep(items: seq<Item>, n: nat)
    requires n < |items|
    ensures SetsBefore(items, n + 1) == SetsBefore(items, n) + (if items[n].RSet? then [n] else [])
  {
  }

  /** How many rows a limit lets through: the count is decremented after each row, so 0 wraps around. */
  function Cap(limit: nat): nat { if limit == 0 then MaxRows else limit }

  /** The limit after `n` rows. */
  function Remaining(limit: nat, n: nat): nat
    requires n <= Cap(limit)
  {
    if n == 0 then limit else Cap(limit) - n
  }

  class Cursor {
    const session: Session
    var closed: bool
    var rowsOp: bool
    var moreRows: bool
    /** Rows go to a row processor; `out` are those it got, `ended` that it was told of the end. */
    var wanted: bool
    var limited: bool
    var limit: nat
    var out: seq<Row>
    var ended: bool

    constructor (s: Session)
      ensures session == s && !closed && !rowsOp && moreRows && !wanted && !limited && limit == 0 && out == [] && !ended
    {
      session := s;
      closed, rowsOp, moreRows, wanted, limited, limit, out, ended := false, false, true, false, false, 0, [], false;
    }

    method RowEnd(row: Row)
      modifies this`out, this`limit
      ensures out == if wanted then old(out) + [row] else old(out)
      ensures limit == if wanted && limited then (if old(limit) == 0 then MaxRows - 1 else old(limit) - 1)
        else old(limit)
    {
      if wanted {
        out := out + [row];
        if limited {
          limit := if limit == 0 then MaxRows - 1 else limit - 1;
        }
      }
    }

    method MessageEnd() returns (more: bool)
      ensures more <==> !(wanted && limited) || limit > 0
    {
      more := if wanted && limited then 0 < limit else true;
    }

    /** All rows have been read: exactly one read is queued to follow. */
    method End(more: bool)
      modifies this`ended, this`moreRows, this`rowsOp, session`queue
      ensures ended == (wanted || old(ended)) && !moreRows && !rowsOp
      ensures session.queue == old(session.queue) + [if more then RcvMeta else RcvStmt]
    {
      if wanted {
        ended := true;
      }
      moreRows := false;
      session.queue := session.queue + [if more then RcvMeta else RcvStmt];
      rowsOp := false;
    }

    /** Rows from the place `was` on were taken, and more may come. */
    ghost predicate Took(limit0: nat, out0: seq<Row>, ended0: bool, was: Place)
      reads this, session
    {
      var now := session.at;
      && was.n == now.n < |now.items| && now.items[now.n].RSet?
      && was.got <= now.got <= |now.items[now.n].rows|
      && rowsOp && ended == ended0
      && out == (if wanted then out0 + now.items[now.n].rows[was.got..now.got] else out0)
      && (wanted && limited ==> now.got - was.got <= Cap(limit0) && limit == Remaining(limit0, now.got - was.got))
      && (session.rcv.completed ==> wanted && limited && limit == 0)
      && (!session.rcv.completed && wanted && limited ==> limit > 0 || now.got == was.got)
    }

    /** The end of the rows was read from the place `was`. */
    ghost predicate Drained(out0: seq<Row>, ended0: bool, was: Place)
      reads this, session
    {
      var now := session.at;
      && now.n == was.n + 1 <= |now.items| && now.items[was.n].RSet? && was.got == |now.items[was.n].rows|
      && out == out0 && ended == (wanted || ended0)
      && session.rcv.completed && |session.queue| == 1
      && now.phase == (if now.n < |now.items| then Describing else Ending)
    }

    /** All rows from the place `was` on were read, and their end. */
    ghost predicate Emptied(limit0: nat, out0: seq<Row>, ended0: bool, was: Place)
      reads this, session
    {
      var now := session.at;
      && now.n == was.n + 1 <= |now.items| && now.items[was.n].RSet? && was.got <= |now.items[was.n].rows|
      && out == (if wanted then out0 + now.items[was.n].rows[was.got..] else out0)
      && (wanted && limited ==> |now.items[was.n].rows| - was.got < Cap(limit0))
      && ended == (wanted || ended0)
      && session.rcv.completed && |session.queue| == 1
      && now.phase == (if now.n < |now.items| then Describing else Ending)
    }

    /** Completes the current reading of rows: up to the limit, or to their end. */
    method WaitRows() returns (threw: bool)
      requires session.Valid() && session.cursor == this && session.at.phase == Reading && !session.rcv.completed
      modifies this, session
      ensures !threw && session.Valid() && session.cursor == this && Same(session.at, old(session.at))
      ensures wanted == old(wanted) && limited == old(limited) && session.rcv.completed
      ensures if session.at.phase == Reading then Took(old(limit), old(out), old(ended), old(session.at))
              else Emptied(old(limit), old(out), old(ended), old(session.at))
    {
      hide Sound;
      threw := false;
      PlaceFacts(session.Now());
      while !session.rcv.completed && !threw
        invariant !threw && session.Valid() && session.cursor == this && Same(session.at, old(session.at))
        invariant wanted == old(wanted) && limited == old(limited)
        invariant if session.at.phase == Reading then Took(old(limit), old(out), old(ended), old(session.at))
                  else Emptied(old(limit), old(out), old(ended), old(session.at))
        decreases !session.rcv.completed, |session.stream|
      {
        ghost var mid := session.at;
        threw := session.ReadRow();
        if session.at.phase == Reading {
          Slices(mid.items[mid.n].rows, old(session.at).got, mid.got, session.at.got);
        } else {
          Slices(mid.items[mid.n].rows, old(session.at).got, mid.got, mid.got);
        }
      }
    }

    /** Completes the current operation, if there is one. */
    method Wait() returns (threw: bool)
      requires session.Valid() && (closed || session.cursor == this)
      modifies this, session
      ensures session.Valid() && Same(session.at, old(session.at)) && session.cursor == old(session.cursor)
      ensures closed == old(closed) && wanted == old(wanted) && limited == old(limited)
      ensures !threw && (!closed && old(session.at).phase == Reading ==> session.rcv.completed)
      ensures
        if closed || old(session.at).phase != Reading || old(session.rcv.completed) then
          session.Now() == old(session.Now()) && out == old(out) && limit == old(limit) && ended == old(ended)
            && rowsOp == old(rowsOp)
        else if session.at.phase == Reading then Took(old(limit), old(out), old(ended), old(session.at))
        else Emptied(old(limit), old(out), old(ended), old(session.at))
    {
      hide Sound;
      if closed || !rowsOp || session.rcv.completed {
        return false;
      }
      threw := WaitRows();
    }

    /** Completes the read that is under way and starts another one for a row processor. */
    method InternalGetRows() returns (threw: bool)
      requires session.Valid() && (closed || session.cursor == this)
      modifies this, session
      ensures session.Valid() && Same(session.at, old(session.at)) && session.cursor == old(session.cursor)
      ensures (threw <==> old(closed)) && closed == old(closed)
      ensures threw || old(session.rcv.completed) ==> out == old(out) && session.at == old(session.at)
      ensures !threw && session.at.phase == Reading ==> !session.rcv.completed && rowsOp && wanted && !ended
      ensures !threw && session.at.phase != Reading ==> !rowsOp && ended
    {
      hide Sound;
      if closed {
        return true;
      }
      if rowsOp && !session.rcv.completed {
        threw := WaitRows();
      }
      if !moreRows {
        rowsOp, wanted, ended := false, false, true;
        return false;
      }
      PlaceFacts(session.Now());
      threw := session.ResumeIn(Rows);
      rowsOp, wanted, ended := true, true, false;
    }

    /** Starts reading rows for a row processor, at most `lim` of them if `bounded`. */
    method GetRows(bounded: bool, lim: nat) returns (threw: bool)
      requires session.Valid() && (closed || session.cursor == this)
      modifies this, session
      ensures session.Valid() && Same(session.at, old(session.at)) && session.cursor == old(session.cursor)
      ensures (threw <==> old(closed)) && closed == old(closed)
      ensures threw || old(session.rcv.completed) ==> out == old(out) && session.at == old(session.at)
      ensures !threw && session.at.phase == Reading ==>
        && !session.rcv.completed && rowsOp && wanted && !ended
        && limited == bounded && limit == (if bounded then lim else limit)
      ensures !threw && session.at.phase != Reading ==> !rowsOp && ended
    {
      hide Sound;
      threw := InternalGetRows();
      if threw {
        return;
      }
      limited := bounded;
      if bounded {
        limit := lim;
      }
    }

    /** Reads the remaining rows without passing them on, which leaves one read queued, and lets go
        of the session. */
    method Close() returns (threw: bool)
      requires session.Valid() && (closed || session.cursor == this)
      modifies this, session
      ensures !threw && session.Valid() && closed && out == old(out) && Same(session.at, old(session.at))
      ensures old(closed) ==> session.Now() == old(session.Now()) && session.cursor == old(session.cursor)
      ensures !old(closed) ==> session.cursor == null
      ensures old(closed) || old(session.at).phase != Reading ==> session.Now() == old(session.Now())
      ensures !old(closed) && old(session.at).phase == Reading ==>
        && session.at.n == old(session.at).n + 1 && |session.queue| == 1 && session.rcv.completed
        && session.at.phase == (if session.at.n < |session.at.items| then Describing else Ending)
    {
      hide Sound;
      threw := false;
      if session.cursor == this {
        while (rowsOp || moreRows) && !threw
          invariant !threw && session.Valid() && session.cursor == this && Same(session.at, old(session.at))
          invariant out == old(out)
          invariant old(session.at).phase != Reading ==> session.Now() == old(session.Now())
          invariant old(session.at).phase == Reading ==>
            if session.at.phase == Reading then session.at.n == old(session.at).n
            else
              && session.at.n == old(session.at).n + 1 && |session.queue| == 1 && session.rcv.completed
              && session.at.phase == (if session.at.n < |session.at.items| then Describing else Ending)
          decreases if !moreRows then 0 else if session.rcv.completed then 2 else 1
        {
          PlaceFacts(session.Now());
          if rowsOp {
            wanted := false;
            if !session.rcv.completed {
              threw := WaitRows();
            }
            rowsOp := false;
          }
          if moreRows {
            PlaceFacts(session.Now());
            threw := session.ResumeIn(Rows);
            rowsOp := true;
          }
        }
        session.cursor := null;
      }
      closed := true;
    }
  }

  /** A client that sends one command after the other and drops each reply: it runs into an exception
      if and only if some reply has a gap, and then at the first such reply. */
  method DropAll(replies: seq<seq<Msg>>, ghost items: seq<seq<Item>>) returns (threw: bool, done: nat)
    requires |replies| == |items| && forall k :: 0 <= k < |items| ==> Strip(replies[k]) == Reply(items[k])
    ensures threw <==> exists k :: 0 <= k < |items| && !Tidy(items[k])
    ensures done <= |items| && (forall k :: 0 <= k < done ==> Tidy(items[k]))
      && (threw ==> done < |items| && !Tidy(items[done]))
  {
    hide Sound, Strip, Reply, Tidy, Jammed, NextGap, Session.Valid, Session.StoppedAt;
    var session := new Session();
    done, threw := 0, false;
    while done < |replies|
      invariant session.Valid() && fresh(session) && !session.replying && session.cursor == null
      invariant session.at.phase == Idle && session.at.pending == [] && !threw
      invariant done <= |replies| && forall k :: 0 <= k < done ==> Tidy(items[k])
    {
      JammedIsGap(items[done]);
      threw := session.Begin(replies[done], items[done]);
      assert session.at == Asked([], items[done]) && session.replying;
      threw := session.Discard();
      if threw {
        return;
      }
      done := done + 1;
    }
  }
}
