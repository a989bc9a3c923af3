/** Turning committed settings into a list of data sources. */
module DataSource {
  import opened Wrappers
  import opened Settings
  import opened SettingsShape

  /** Throwing an error and failing one of the assertions are told apart. */
  datatype Outcome<+T> = Fine(val: T) | Thrown | AssertFailed {
    predicate IsFailure() { !Fine? }

    function PropagateFailure<U>(): Outcome<U>
      requires !Fine?
    {
      if Thrown? then Thrown else AssertFailed
    }

    function Extract(): T
      requires Fine?
    {
      val
    }
  }

  datatype Address = TcpAddress(host: string, port: nat) | UnixAddress(path: string)

  /** `cn` is the server name the connection expects in the certificate. */
  datatype Source = Source(address: Address, prio: nat, cn: string)

  const DEFAULT_PORT := 33060
  const PLAIN := 1
  const MYSQL41 := 2

  // Connection options

  datatype Options = Options(
    user: string, password: Option<string>, database: Option<string>, mode: nat, ca: string, auth: nat)

  function StrOf(v: Val): string { if v.Str? then v.s else "" }

  function NumOf(v: Val): nat { if v.Num? then v.n else 0 }

  function Get(opts: seq<OptVal>, o: Opt): Val { match Last(opts, o) case Ok(v) => v case Error => Str("") }

  function PrepareOptions(d: Data, socket: bool): Outcome<Options> {
    var opts := d.options;
    var modeSet := Has(opts, SSL_MODE) || Has(opts, SSL_CA);
    var mode :=
      if Has(opts, SSL_MODE) then NumOf(Get(opts, SSL_MODE))
      else if Has(opts, SSL_CA) then VERIFY_CA
      else REQUIRED;
    if !Has(opts, USER) then Thrown
    else if socket && modeSet && mode >= REQUIRED then Thrown
    else if mode == 0 || mode > VERIFY_IDENTITY then AssertFailed
    else
      var ca := if mode != DISABLED && Has(opts, SSL_CA) then StrOf(Get(opts, SSL_CA)) else "";
      var auth :=
        if Has(opts, AUTH) then NumOf(Get(opts, AUTH))
        else if socket || mode != DISABLED then PLAIN
        else MYSQL41;
      if auth == 0 || auth >= AUTH_LAST then AssertFailed
      else Fine(Options(StrOf(Get(opts, USER)), TextIn(opts, PWD), TextIn(opts, DB), mode, ca, auth))
  }

  function TextIn(opts: seq<OptVal>, o: Opt): Option<string> {
    if Has(opts, o) then Some(StrOf(Get(opts, o))) else None
  }

  /** tls_connect refuses a certificate authority with a mode that does not verify. */
  predicate CaMismatch(o: Options) { o.ca != "" && o.mode < VERIFY_CA }

  lemma {:induction false} GetFirst(opts: seq<OptVal>, o: Opt)
    requires Has(opts, o)
    ensures exists i :: 0 <= i < |opts| && opts[i].opt == o && Get(opts, o) == opts[i].val
    decreases |opts|
  {
    var n := |opts| - 1;
    if opts[n].opt != o {
      var i :| 0 <= i < |opts| && opts[i].opt == o;
      assert opts[..n][i].opt == o;
      GetFirst(opts[..n], o);
    }
  }

  /** Whatever a run has committed, the options derived from it never mismatch. */
  lemma NoCaMismatch(txs: seq<seq<Op>>, socket: bool)
    ensures var r := PrepareOptions(Run(txs), socket); r.Fine? ==> !CaMismatch(r.val)
  {
    hide Run, Last;
    var d := Run(txs);
    RunSecure(txs);
    if Has(d.options, SSL_MODE) {
      GetFirst(d.options, SSL_MODE);
    }
  }

  /** The only option of its kind is the one that is found. */
  lemma GetOnly(opts: seq<OptVal>, o: Opt, v: Val)
    requires AtMostOnce(opts, o) && OptVal(o, v) in opts
    ensures Has(opts, o) && Get(opts, o) == v
  {
    hide Last;
    var i :| 0 <= i < |opts| && opts[i] == OptVal(o, v);
    assert opts[i].opt == o;
    GetFirst(opts, o);
  }

  /** After any run, deriving the options fails an assertion exactly when the mode or the method was
      set to the number 0, unless it throws for another reason. */
  lemma ZeroFails(txs: seq<seq<Op>>, socket: bool)
    ensures
      var opts, r := Run(txs).options, PrepareOptions(Run(txs), socket);
      !r.Thrown? ==> (r.AssertFailed? <==> OptVal(SSL_MODE, Num(0)) in opts || OptVal(AUTH, Num(0)) in opts)
  {
    hide Run, Last, Get, Has;
    var opts := Run(txs).options;
    RunSecure(txs);
    RunNumbered(txs);
    forall o | Has(opts, o) && o in {SSL_MODE, AUTH}
      ensures Get(opts, o).Num? && OptVal(o, Get(opts, o)) in opts && Numbered(OptVal(o, Get(opts, o)))
    {
      GetFirst(opts, o);
    }
    forall o | o in {SSL_MODE, AUTH} && OptVal(o, Num(0)) in opts
      ensures Has(opts, o) && Get(opts, o) == Num(0)
    {
      GetOnly(opts, o, Num(0));
    }
  }

  // The list of sources

  class MultiSource {
    var list: seq<Source>
    var prioritized: bool

    ghost predicate Valid()
      reads this
    {
      list != [] ==> prioritized == (list[0].prio > 0)
    }

    constructor ()
      ensures Valid() && list == []
    {
      list, prioritized := [], false;
    }

    method Clear()
      modifies this
      ensures Valid() && list == []
    {
      list, prioritized := [], false;
    }

    /** Prioritised and unprioritised sources do not mix. */
    method Add(s: Source) returns (ok: bool)
      requires Valid()
      modifies this
      ensures Valid() && ok == Compatible(old(list), s)
      ensures list == if ok then old(list) + [s] else old(list)
    {
      if list == [] {
        prioritized := s.prio > 0;
      } else if prioritized != (s.prio > 0) {
        return false;
      }
      list := list + [s];
      ok := true;
    }
  }

  predicate Compatible(list: seq<Source>, s: Source) { list == [] || (list[0].prio > 0) == (s.prio > 0) }

  // What the entries of the list stand for

  function HostName(e: Entry): string
    requires e.Tcp?
  {
    if e.host.Some? then e.host.value else "localhost"
  }

  function AddressOf(e: Entry): Address {
    if e.Sock? then UnixAddress(e.path)
    else TcpAddress(HostName(e), if e.port.Some? then e.port.value else DEFAULT_PORT)
  }

  /** The expected name after the last of these entries: the name of the last TCP host. */
  function ExpectedName(mode: nat, es: seq<Entry>): string {
    if es == [] || mode != VERIFY_IDENTITY then ""
    else if es[|es| - 1].Tcp? then HostName(es[|es| - 1])
    else ExpectedName(mode, es[..|es| - 1])
  }

  /** Explicit priorities are used as given, implicit ones count down from 100. */
  function Priority(d: Data, es: seq<Entry>): int
    requires es != []
  {
    if d.userPriorities then (if es[|es| - 1].prio.Some? then es[|es| - 1].prio.value else 0) else 101 - |es|
  }

  predicate Addable(d: Data, es: seq<Entry>) {
    if d.userPriorities then
      || (forall i :: 0 <= i < |es| ==> es[i].prio.Some? && es[i].prio.value > 0)
      || (forall i :: 0 <= i < |es| ==> es[i].prio.Some? && es[i].prio.value == 0)
    else |es| <= 100
  }

  function SourcesOf(d: Data, mode: nat, es: seq<Entry>): (r: seq<Source>)
    requires d.userPriorities || |es| <= 101
    ensures |r| == |es|
  {
    if es == [] then []
    else
      SourcesOf(d, mode, es[..|es| - 1])
      + [Source(AddressOf(es[|es| - 1]), Priority(d, es), ExpectedName(mode, es))]
  }

  /** What is expected of good settings. */
  function Expected(d: Data): Outcome<seq<Source>>
    requires Scan(d.options).Ok?
  {
    var es := Scan(d.options).value.es;
    var o :- PrepareOptions(d, d.sock && d.hostCnt == 1);
    if es == [] || (Bare(es[0]) && d.hostCnt > 0) then AssertFailed
    else if !Addable(d, es) then Thrown
    else Fine(SourcesOf(d, o.mode, es))
  }

  /** Over whole runs: unless the options throw, an assertion fails exactly when a mode or a method is
      0, no connection was given, or a SOCKET followed a bare PORT. */
  lemma AssertsExactly(txs: seq<seq<Op>>)
    requires forall i :: 0 <= i < |txs| ==> KeepsSockets(Run(txs[..i]), txs[i])
    ensures
      var d := Run(txs);
      Good(d)
      && (!PrepareOptions(d, d.sock && d.hostCnt == 1).Thrown? ==>
        (Expected(d) == AssertFailed <==>
          || OptVal(SSL_MODE, Num(0)) in d.options || OptVal(AUTH, Num(0)) in d.options
          || (!d.tcpip && !d.sock) || !Shape(d)))
  {
    hide Run, PrepareOptions, Scan, Shape;
    var d := Run(txs);
    RunGood(txs);
    ZeroFails(txs, d.sock && d.hostCnt == 1);
    ShapeIff(d);
    NoEntries(d);
  }

  lemma NoEntries(d: Data)
    requires Good(d)
    ensures Scan(d.options).value.es == [] <==> !d.tcpip && !d.sock
    ensures Scan(d.options).value.es == [] ==> d.hostCnt == 0
  {
    hide Scan;
    var es := Scan(d.options).value.es;
    if es != [] {
      assert es[0].Tcp? || es[0].Sock?;
    }
  }

  // Walking the list

  /** Every prefix of a scanned list can be scanned. */
  lemma {:induction false} ScanPrefix(opts: seq<OptVal>, i: nat)
    requires Scan(opts).Ok? && i <= |opts|
    ensures Scan(opts[..i]).Ok?
    decreases |opts|
  {
    if i == |opts| {
      assert opts[..i] == opts;
    } else {
      ScanPrefix(opts[..|opts| - 1], i);
      assert opts[..|opts| - 1][..i] == opts[..i];
    }
  }

  lemma ScanNext(opts: seq<OptVal>, i: nat)
    requires Scan(opts).Ok? && i < |opts|
    ensures Scan(opts[..i]).Ok? && Scan(opts[..i + 1]) == ScanStep(Scan(opts[..i]).value, opts[i])
      && Scan(opts[..i + 1]).Ok?
  {
    ScanPrefix(opts, i);
    ScanPrefix(opts, i + 1);
    assert opts[..i + 1][..i] == opts[..i];
  }

  function EntriesTo(opts: seq<OptVal>, i: nat): seq<Entry>
    requires Scan(opts).Ok? && i <= |opts|
  {
    ScanPrefix(opts, i);
    Scan(opts[..i]).value.es
  }

  function PrevTo(opts: seq<OptVal>, i: nat): LastOpt
    requires Scan(opts).Ok? && i <= |opts|
  {
    ScanPrefix(opts, i);
    Scan(opts[..i]).value.prev
  }

  /** The option at `i` does not belong to the entry before it. */
  predicate Boundary(opts: seq<OptVal>, i: nat)
    requires Scan(opts).Ok? && i <= |opts|
  {
    i < |opts| ==> opts[i].opt != PRIORITY && !(opts[i].opt == PORT && PrevTo(opts, i) == SetTo(HOST))
  }

  /** From a boundary on, the entries before it do not change any more. */
  lemma {:induction false} Settled(opts: seq<OptVal>, i: nat, k: nat)
    requires Scan(opts).Ok? && i < k <= |opts| && Boundary(opts, i)
    ensures EntriesTo(opts, i) <= EntriesTo(opts, k)
    ensures |EntriesTo(opts, k)| > |EntriesTo(opts, i)| || PrevTo(opts, k) !in {SetTo(HOST), SetTo(PORT), SetTo(SOCKET)}
    decreases k
  {
    hide Scan;
    ScanNext(opts, k - 1);
    if k > i + 1 {
      Settled(opts, i, k - 1);
    }
  }

  lemma SettledAtEnd(opts: seq<OptVal>, i: nat)
    requires Scan(opts).Ok? && i <= |opts| && Boundary(opts, i)
    ensures EntriesTo(opts, i) <= Scan(opts).value.es
  {
    hide Scan;
    assert opts[..|opts|] == opts;
    if i < |opts| {
      Settled(opts, i, |opts|);
    }
  }

  /** After a priority, or in a list without priorities, no priority can follow. */
  lemma NoStrayPriority(d: Data, i: nat)
    requires Good(d) && i < |d.options| && d.options[i].opt == PRIORITY
    ensures d.userPriorities && PrevTo(d.options, i) in {SetTo(HOST), SetTo(PORT), SetTo(SOCKET)}
  {
    hide Scan, Hosts;
    var opts := d.options;
    ScanNext(opts, i);
    var es := EntriesTo(opts, i + 1);
    ScanTail(opts[..i + 1]);
    ScanTailPriority(opts, i + 1);
    SettledAtEnd(opts, i + 1);
    var all := Scan(opts).value.es;
    assert all[|es| - 1] == es[|es| - 1];
  }

  /** Two priorities never follow each other, so the end of a priority is a boundary. */
  lemma ScanTailPriority(opts: seq<OptVal>, i: nat)
    requires Scan(opts).Ok? && 0 < i <= |opts| && opts[i - 1].opt == PRIORITY
    ensures PrevTo(opts, i) == SetTo(PRIORITY) && EntriesTo(opts, i) != [] && Boundary(opts, i)
    ensures var es := EntriesTo(opts, i); es[|es| - 1].prio.Some?
  {
    hide Scan;
    ScanNext(opts, i - 1);
    if i < |opts| {
      ScanNext(opts, i);
    }
  }

  // Reading one entry

  predicate IsConnection(o: Opt) { o == HOST || o == SOCKET || o == PORT }

  /** The situation in which an entry of good settings is read. */
  ghost predicate AtEntry(d: Data, i: nat, prio: int) {
    && Good(d) && i < |d.options| && IsConnection(d.options[i].opt) && Boundary(d.options, i)
    && (d.options[i].opt == PORT ==> d.hostCnt == 0)
    && (if d.userPriorities then prio < 0 else 0 <= prio <= 100)
  }

  /** One more entry has been read, and it is complete. */
  ghost predicate EntryRead(d: Data, i: nat, prio: int, a: Address, p: int, j: nat)
    requires Scan(d.options).Ok? && i < |d.options|
  {
    && i < j <= |d.options| && Boundary(d.options, j)
    && |EntriesTo(d.options, j)| == |EntriesTo(d.options, i)| + 1
    && EntriesTo(d.options, i) <= EntriesTo(d.options, j)
    && var e := EntriesTo(d.options, j)[|EntriesTo(d.options, i)|];
       && a == AddressOf(e)
       && (if d.userPriorities then e.prio == Some(p) else p == prio)
  }

  /** add_host, add_socket and check_prio: the address, the priority and the next position. */
  method ReadEntry(d: Data, i: nat, prio: int) returns (r: Outcome<(Address, int, nat)>)
    requires i < |d.options| && IsConnection(d.options[i].opt)
    ensures AtEntry(d, i, prio) ==> r.Fine? && EntryRead(d, i, prio, r.val.0, r.val.1, r.val.2)
    ensures d.options[i].opt == PORT && d.hostCnt != 0 ==> r == AssertFailed
    ensures r.Fine? ==> i < r.val.2 <= |d.options| && r.val.1 >= 0
  {
    hide Good, EntryRead, Boundary, AddressOf;
    var opts := d.options;
    var j, address := i, UnixAddress("");
    if opts[i].opt == SOCKET {
      address := UnixAddress(StrOf(opts[i].val));
      j := i + 1;
    } else {
      var host, port := "localhost", DEFAULT_PORT;
      if opts[i].opt == PORT {
        if d.hostCnt != 0 { return AssertFailed; }
      } else {
        host := StrOf(opts[i].val);
        j := i + 1;
      }
      if j < |opts| && opts[j].opt == PORT {
        port := NumOf(opts[j].val) % 0x1_0000;
        j := j + 1;
      }
      address := TcpAddress(host, port);
    }
    ghost var mid := j;
    var p := prio;
    if p < 0 {
      if j == |opts| || opts[j].opt != PRIORITY {
        if AtEntry(d, i, prio) { AddressRead(d, i, prio, address, mid); PriorityPresent(d, i, prio, address, mid); }
        return Thrown;
      }
      p := NumOf(opts[j].val);
      j := j + 1;
    }
    if AtEntry(d, i, prio) {
      AddressRead(d, i, prio, address, mid);
      PriorityRead(d, i, prio, address, mid, p, j);
    }
    if !(0 <= p <= 100) { return AssertFailed; }
    if j < |opts| && opts[j].opt == PRIORITY { return AssertFailed; }
    r := Fine((address, p, j));
  }

  /** The address of the entry has been read, its priority may follow. */
  ghost predicate HalfRead(d: Data, i: nat, a: Address, mid: nat)
    requires Scan(d.options).Ok? && i < |d.options|
  {
    && i < mid <= |d.options|
    && |EntriesTo(d.options, mid)| == |EntriesTo(d.options, i)| + 1
    && EntriesTo(d.options, i) <= EntriesTo(d.options, mid)
    && (var e := EntriesTo(d.options, mid)[|EntriesTo(d.options, i)|];
        a == AddressOf(e) && e.prio.None? && (Bare(e) ==> d.options[i].opt == PORT))
    && PrevTo(d.options, mid) in {SetTo(HOST), SetTo(PORT), SetTo(SOCKET)}
    && (mid < |d.options| ==> !(d.options[mid].opt == PORT && PrevTo(d.options, mid) == SetTo(HOST)))
  }

  lemma AddressRead(d: Data, i: nat, prio: int, a: Address, mid: nat)
    requires AtEntry(d, i, prio) && i <= mid <= |d.options|
    requires
      var o := d.options[i].opt;
      var withPort := i + 1 < |d.options| && d.options[i + 1].opt == PORT;
      if o == SOCKET then mid == i + 1 && a == UnixAddress(StrOf(d.options[i].val))
      else if o == PORT then mid == i + 1 && a == TcpAddress("localhost", NumOf(d.options[i].val) % 0x1_0000)
      else mid == (if withPort then i + 2 else i + 1) &&
           a == TcpAddress(StrOf(d.options[i].val),
                           if withPort then NumOf(d.options[i + 1].val) % 0x1_0000 else DEFAULT_PORT)
    ensures HalfRead(d, i, a, mid)
  {
    hide Scan, Hosts;
    var opts := d.options;
    ScanNext(opts, i);
    var es := EntriesTo(opts, i);
    if opts[i].opt == HOST && i + 1 < |opts| && opts[i + 1].opt == PORT {
      ScanNext(opts, i + 1);
      PortInRange(d, mid);
    } else if opts[i].opt == PORT {
      PortInRange(d, mid);
    }
  }

  lemma PortInRange(d: Data, k: nat)
    requires Good(d) && 0 < k <= |d.options| && d.options[k - 1].opt == PORT
    ensures d.options[k - 1].val.Num? && d.options[k - 1].val.n <= 65535
  {
    hide Scan, Hosts;
    var opts := d.options;
    ScanNext(opts, k - 1);
    ScanTail(opts[..k]);
    var es := EntriesTo(opts, k);
    PortStays(opts, k, |opts|);
    assert opts[..|opts|] == opts;
    assert InRange(Scan(opts).value.es[|es| - 1]);
  }

  /** The port of an entry is not changed by what follows. */
  lemma {:induction false} PortStays(opts: seq<OptVal>, k: nat, n: nat)
    requires Scan(opts).Ok? && 0 < k <= n <= |opts| && opts[k - 1].opt == PORT
    ensures EntriesTo(opts, k) != [] && |EntriesTo(opts, n)| >= |EntriesTo(opts, k)|
    ensures
      var c := |EntriesTo(opts, k)| - 1;
      EntriesTo(opts, k)[c].Tcp? && EntriesTo(opts, n)[c].Tcp?
        && EntriesTo(opts, n)[c].port == EntriesTo(opts, k)[c].port
    ensures PrevTo(opts, n) == SetTo(HOST) ==> |EntriesTo(opts, n)| > |EntriesTo(opts, k)|
    decreases n
  {
    hide Scan;
    ScanNext(opts, k - 1);
    if n > k {
      PortStays(opts, k, n - 1);
      ScanNext(opts, n - 1);
    }
  }

  lemma PriorityPresent(d: Data, i: nat, prio: int, a: Address, mid: nat)
    requires AtEntry(d, i, prio) && d.userPriorities && HalfRead(d, i, a, mid)
    ensures mid < |d.options| && d.options[mid].opt == PRIORITY
  {
    hide Scan, Hosts;
    if !(mid < |d.options| && d.options[mid].opt == PRIORITY) {
      SettledAtEnd(d.options, mid);
    }
  }

  lemma PriorityRead(d: Data, i: nat, prio: int, a: Address, mid: nat, p: int, j: nat)
    requires AtEntry(d, i, prio) && HalfRead(d, i, a, mid)
    requires if prio < 0 then mid < |d.options| && d.options[mid].opt == PRIORITY && p == NumOf(d.options[mid].val)
      && j == mid + 1
             else p == prio && j == mid
    ensures EntryRead(d, i, prio, a, p, j) && 0 <= p <= 100 && !(j < |d.options| && d.options[j].opt == PRIORITY)
  {
    hide Scan, Hosts;
    var opts := d.options;
    if prio < 0 {
      ScanNext(opts, mid);
      ScanTailPriority(opts, j);
      SettledAtEnd(opts, j);
      var es, all := EntriesTo(opts, j), Scan(opts).value.es;
      assert all[|es| - 1] == es[|es| - 1] && InRange(all[|es| - 1]);
    } else if j < |opts| && opts[j].opt == PRIORITY {
      NoStrayPriority(d, j);
    }
  }

  // All of the list

  /** The sources collected so far, and what they tell about the entries. */
  ghost predicate Collected(d: Data, mode: nat, es: seq<Entry>, list: seq<Source>) {
    && (d.userPriorities || |es| <= 100)
    && list == SourcesOf(d, mode, es)
    && (forall k :: 0 <= k < |list| ==> (list[k].prio > 0) == (list[0].prio > 0))
  }

  /** Sources are the entries in order, and a TCP source expects the name of its own host. */
  lemma {:induction false} SourceAt(d: Data, mode: nat, es: seq<Entry>, k: nat)
    requires d.userPriorities || |es| <= 101
    requires k < |es| && (d.userPriorities ==> es[k].prio.Some?)
    ensures
      var s := SourcesOf(d, mode, es)[k];
      && s.prio == (if d.userPriorities then es[k].prio.value else 100 - k)
      && match es[k]
         case Sock(path, _) => s.address == UnixAddress(path)
         case Tcp(host, port, _) =>
           var name := if host.Some? then host.value else "localhost";
           && s.address == TcpAddress(name, if port.Some? then port.value else 33060)
           && s.cn == if mode == VERIFY_IDENTITY then name else ""
    decreases |es|
  {
    if k < |es| - 1 {
      SourceAt(d, mode, es[..|es| - 1], k);
    }
  }

  lemma CollectedAdd(d: Data, mode: nat, es: seq<Entry>, list: seq<Source>, es1: seq<Entry>, s: Source)
    requires Collected(d, mode, es, list) && es <= es1 && |es1| == |es| + 1
    requires d.userPriorities ==> es1[|es|].prio.Some?
    requires s == Source(AddressOf(es1[|es|]), Priority(d, es1), ExpectedName(mode, es1))
    ensures Compatible(list, s) ==> Collected(d, mode, es1, list + [s])
    ensures !Compatible(list, s) && (d.userPriorities ==> forall k :: 0 <= k < |es1| ==> es1[k].prio.Some?) ==>
      !Addable(d, es1)
  {
    assert es1[..|es|] == es;
    if es != [] && (d.userPriorities ==> es1[0].prio.Some?) {
      assert es[0] == es1[0];
      SourceAt(d, mode, es, 0);
    }
  }

  lemma AddablePrefix(d: Data, es: seq<Entry>, all: seq<Entry>)
    requires es <= all && Addable(d, all)
    ensures Addable(d, es)
  {
    assert forall k :: 0 <= k < |es| ==> es[k] == all[k];
  }

  lemma CollectedAll(d: Data, mode: nat, es: seq<Entry>, list: seq<Source>)
    requires Collected(d, mode, es, list) && (d.userPriorities ==> forall k :: 0 <= k < |es| ==> es[k].prio.Some?)
    ensures Addable(d, es)
  {
    if d.userPriorities {
      forall k | 0 <= k < |es|
        ensures list[k].prio == es[k].prio.value
      {
        SourceAt(d, mode, es, k);
      }
      if es != [] && list[0].prio > 0 {
        assert forall k :: 0 <= k < |es| ==> list[k].prio > 0;
      } else {
        assert forall k :: 0 <= k < |es| ==> list[k].prio == 0;
      }
    }
  }

  /** In the walk over good settings: the entries before `i` have been collected. */
  ghost predicate Walking(d: Data, mode: nat, i: nat, prio: int, cn: string, list: seq<Source>) {
    && Good(d) && i <= |d.options| && Boundary(d.options, i)
    && var es := EntriesTo(d.options, i);
       && es <= Scan(d.options).value.es
       && Collected(d, mode, es, list)
       && cn == ExpectedName(mode, es)
       && (if d.userPriorities then prio < 0 else prio == 100 - |es|)
       && (Spoiled(d) ==> es == [])
  }

  lemma WalkStart(d: Data, mode: nat)
    requires Good(d)
    ensures Walking(d, mode, 0, if d.userPriorities then -1 else 100, "", [])
  {
    assert d.options[..0] == [];
    if d.options != [] {
      ScanNext(d.options, 0);
    }
  }

  lemma WalkSkip(d: Data, mode: nat, i: nat, prio: int, cn: string, list: seq<Source>)
    requires Walking(d, mode, i, prio, cn, list) && i < |d.options| && !IsConnection(d.options[i].opt)
    ensures Walking(d, mode, i + 1, prio, cn, list)
  {
    hide Scan, Hosts, Collected;
    ScanNext(d.options, i);
    if i + 1 < |d.options| {
      ScanNext(d.options, i + 1);
    }
  }

  /** The first entry of spoiled settings is a bare PORT. */
  lemma WalkSpoiled(d: Data, mode: nat, i: nat, prio: int, cn: string, list: seq<Source>)
    requires Walking(d, mode, i, prio, cn, list) && i < |d.options| && IsConnection(d.options[i].opt)
    ensures d.options[i].opt == PORT && d.hostCnt != 0 <==> Spoiled(d)
  {
    hide Scan, Hosts, Collected;
    var opts := d.options;
    ScanNext(opts, i);
    FirstStays(opts, i + 1, |opts|);
    assert opts[..|opts|] == opts;
    if opts[i].opt == PORT {
      LaterNotBare(d, i);
    }
  }

  lemma {:induction false} FirstStays(opts: seq<OptVal>, k: nat, n: nat)
    requires Scan(opts).Ok? && k <= n <= |opts| && EntriesTo(opts, k) != []
    ensures EntriesTo(opts, n) != [] && Bare(EntriesTo(opts, n)[0]) == Bare(EntriesTo(opts, k)[0])
    decreases n
  {
    hide Scan;
    if n > k {
      FirstStays(opts, k, n - 1);
      ScanNext(opts, n - 1);
      ScanTail(opts[..n - 1]);
    }
  }

  /** A bare PORT is the first entry. */
  lemma LaterNotBare(d: Data, i: nat)
    requires Good(d) && i < |d.options| && d.options[i].opt == PORT && Boundary(d.options, i)
    ensures EntriesTo(d.options, i) == []
  {
    hide Scan, Hosts;
    var opts := d.options;
    ScanNext(opts, i);
    var es := EntriesTo(opts, i + 1);
    BareStays(opts, i + 1, |opts|);
    assert opts[..|opts|] == opts;
    assert Bare(Scan(opts).value.es[|es| - 1]);
  }

  lemma {:induction false} BareStays(opts: seq<OptVal>, k: nat, n: nat)
    requires Scan(opts).Ok? && k <= n <= |opts| && EntriesTo(opts, k) != []
    ensures |EntriesTo(opts, n)| >= |EntriesTo(opts, k)|
    ensures var c := |EntriesTo(opts, k)| - 1; Bare(EntriesTo(opts, n)[c]) == Bare(EntriesTo(opts, k)[c])
    decreases n
  {
    hide Scan;
    if n > k {
      BareStays(opts, k, n - 1);
      ScanNext(opts, n - 1);
      ScanTail(opts[..n - 1]);
    }
  }

  lemma WalkEntry(d: Data, mode: nat, i: nat, prio: int, cn: string, list: seq<Source>, a: Address, p: int, j: nat)
    requires Walking(d, mode, i, prio, cn, list) && i < |d.options| && IsConnection(d.options[i].opt) && !Spoiled(d)
    requires EntryRead(d, i, prio, a, p, j) && p >= 0
    ensures
      var name := if a.TcpAddress? && mode == VERIFY_IDENTITY then a.host else cn;
      var s := Source(a, p, name);
      if Compatible(list, s) then Walking(d, mode, j, prio - 1, name, list + [s])
      else !Addable(d, Scan(d.options).value.es)
  {
    hide Scan, Hosts, SourcesOf;
    var es, es1, all := EntriesTo(d.options, i), EntriesTo(d.options, j), Scan(d.options).value.es;
    SettledAtEnd(d.options, j);
    var name := if a.TcpAddress? && mode == VERIFY_IDENTITY then a.host else cn;
    assert es1[..|es|] == es;
    assert name == ExpectedName(mode, es1);
    CollectedAdd(d, mode, es, list, es1, Source(a, p, name));
    if d.userPriorities {
      forall k | 0 <= k < |es1|
        ensures es1[k].prio.Some?
      {
        assert es1[k] == all[k];
        FirstNotBare(d, k);
      }
    }
    if Addable(d, all) {
      AddablePrefix(d, es1, all);
    }
  }

  lemma FirstNotBare(d: Data, k: nat)
    requires Good(d) && !Spoiled(d) && d.userPriorities && k < |Scan(d.options).value.es|
    ensures !Bare(Scan(d.options).value.es[k])
  {
    hide Scan, Hosts;
  }

  method GetDataSource(d: Data, src: MultiSource) returns (r: Outcome<()>)
    modifies src
    ensures Good(d) ==>
      match Expected(d)
      case Fine(list) => r.Fine? && src.list == list
      case Thrown => r.Thrown?
      case AssertFailed => r.AssertFailed?
  {
    hide Good, Walking, Scan, Spoiled, EntryRead, AtEntry;
    var o := PrepareOptions(d, d.sock && d.hostCnt == 1);
    if o.Thrown? { return Thrown; }
    if o.AssertFailed? { return AssertFailed; }
    var mode := o.val.mode;
    src.Clear();
    var prio := if d.userPriorities then -1 else 100;
    var i, cn := 0, "";
    if Good(d) { WalkStart(d, mode); }
    while i < |d.options|
      invariant i <= |d.options| && src.Valid()
      invariant Good(d) ==> Walking(d, mode, i, prio, cn, src.list)
    {
      if !IsConnection(d.options[i].opt) {
        if Good(d) { WalkSkip(d, mode, i, prio, cn, src.list); }
        i := i + 1;
      } else {
        if Good(d) { WalkSpoiled(d, mode, i, prio, cn, src.list); EntryReady(d, mode, i, prio, cn, src.list); }
        var e := ReadEntry(d, i, prio);
        if e.Thrown? { return Thrown; }
        if e.AssertFailed? {
          if Good(d) { SpoiledIsExpected(d); }
          return AssertFailed;
        }
        var (address, p, j) := e.val;
        if Good(d) { WalkEntry(d, mode, i, prio, cn, src.list, address, p, j); }
        if address.TcpAddress? && mode == VERIFY_IDENTITY { cn := address.host; }
        var ok := src.Add(Source(address, p, cn));
        if !ok {
          if Good(d) { NotAddableIsExpected(d); }
          return Thrown;
        }
        prio, i := prio - 1, j;
      }
    }
    if Good(d) { WalkEnd(d, o.val, prio, cn, src.list); }
    if src.list == [] { return AssertFailed; }
    r := Fine(());
  }

  lemma EntryReady(d: Data, mode: nat, i: nat, prio: int, cn: string, list: seq<Source>)
    requires Walking(d, mode, i, prio, cn, list) && i < |d.options| && IsConnection(d.options[i].opt)
    requires (d.options[i].opt == PORT && d.hostCnt != 0) <==> Spoiled(d)
    ensures !Spoiled(d) ==> AtEntry(d, i, prio)
  {
    hide Scan, Good, SourcesOf;
  }

  lemma SpoiledIsExpected(d: Data)
    requires Good(d) && Spoiled(d) && PrepareOptions(d, d.sock && d.hostCnt == 1).Fine?
    ensures Expected(d) == AssertFailed
  {
    hide PrepareOptions;
  }

  lemma NotAddableIsExpected(d: Data)
    requires Good(d) && !Spoiled(d) && PrepareOptions(d, d.sock && d.hostCnt == 1).Fine?
    requires !Addable(d, Scan(d.options).value.es)
    ensures Expected(d) == Thrown
  {
    hide PrepareOptions;
  }

  lemma WalkEnd(d: Data, o: Options, prio: int, cn: string, list: seq<Source>)
    requires Walking(d, o.mode, |d.options|, prio, cn, list)
    requires PrepareOptions(d, d.sock && d.hostCnt == 1) == Fine(o)
    ensures if list == [] then Expected(d) == AssertFailed else Expected(d) == Fine(list)
  {
    hide PrepareOptions, Scan, SourcesOf;
    assert d.options[..|d.options|] == d.options;
    var es := Scan(d.options).value.es;
    if es != [] {
      forall k | 0 <= k < |es| && d.userPriorities
        ensures es[k].prio.Some?
      {
        FirstNotBare(d, k);
      }
      CollectedAll(d, o.mode, es, list);
    }
  }

  // Inputs on which the assertions do fail

  function Setting(o: Opt, s: string): Op { Set(OptVal(o, Str(s))) }

  function Number(o: Opt, n: nat): Op { Set(OptVal(o, Num(n))) }

  lemma RunOne(ops: seq<Op>, st: State)
    requires ApplyAll(Start(EMPTY), ops) == Ok(st) && (st.data.userPriorities ==> st.prio)
    ensures Run([ops]) == st.data
  {
    hide ApplyAll;
    assert [ops][..0] == [] && Run([ops][..0]) == EMPTY;
  }

  lemma OneGoodRun(ops: seq<Op>)
    requires NoUnset(ops)
    ensures Good(Run([ops]))
  {
    hide Good, Run, KeepsSockets;
    NoUnsetKeeps(Run([ops][..0]), ops);
    RunGood([ops]);
  }

  lemma ApplyTwo(st: State, a: Op, b: Op)
    requires Apply(st, a).Ok?
    ensures ApplyAll(st, [a, b]) == Apply(Apply(st, a).value, b)
  {
    assert [a, b][..1] == [a] && [a][..0] == [];
    assert ApplyAll(st, [a]) == Apply(st, a);
  }

  lemma ApplyThree(st: State, a: Op, b: Op, c: Op)
    requires Apply(st, a).Ok? && Apply(Apply(st, a).value, b).Ok?
    ensures ApplyAll(st, [a, b, c]) == Apply(Apply(Apply(st, a).value, b).value, c)
  {
    hide Apply;
    ApplyTwo(st, a, b);
    assert [a, b, c][..2] == [a, b];
  }

  /** A SOCKET after a bare PORT is committed, and the walk then meets a PORT it does not expect. */
  lemma SocketAfterPort()
    ensures
      var d := Run([[Setting(USER, "u"), Number(PORT, 1), Setting(SOCKET, "/s")]]);
      Good(d) && !Shape(d) && Expected(d) == AssertFailed
  {
    var a, b, c := Setting(USER, "u"), Number(PORT, 1), Setting(SOCKET, "/s");
    var o0, o1, o2 := a.ov, b.ov, c.ov;
    var s0 := Start(EMPTY);
    var s1 := Apply(s0, a).value;
    assert s1.data.options == [o0];
    var s2 := Apply(s1, b).value;
    assert s2.data.options == [o0, o1];
    var s3 := Apply(s2, c).value;
    assert s3.data.options == [o0, o1, o2];
    ApplyThree(s0, a, b, c);
    RunOne([a, b, c], s3);
    OneGoodRun([a, b, c]);
    BarePortAndSocket(s3.data, o0, o1, o2);
  }

  lemma BarePortAndSocket(d: Data, a: OptVal, b: OptVal, c: OptVal)
    requires a.opt == USER && b.opt == PORT && b.val.Num? && c.opt == SOCKET && c.val.Str?
    requires Good(d) && d.options == [a, b, c] && d.hostCnt == 1 && d.sock
    ensures !Shape(d) && Expected(d) == AssertFailed
  {
    hide Scan, Good;
    ScanThree(a, b, c);
    ShapeIff(d);
    assert Has(d.options, USER) by { assert d.options[0].opt == USER; }
  }

  lemma ScanThree(a: OptVal, b: OptVal, c: OptVal)
    requires !Repeats(a.opt) && b.opt == PORT && b.val.Num? && c.opt == SOCKET && c.val.Str?
    ensures Scan([a, b, c]) == Ok(Scanned([Tcp(None, Some(b.val.n), None), Sock(c.val.s, None)], SetTo(SOCKET)))
  {
    hide Scan;
    assert [a, b, c] == [a, b] + [c] && [a, b] == [a] + [b] && [a] == [] + [a];
    assert Scan([]) == Ok(Scanned([], Nothing)) by { ScanNothing(); }
    var bare := Tcp(None, Some(b.val.n), None);
    ScanAppend([], a);
    ScanAppend([a], b);
    assert [] + [bare] == [bare];
    assert Scan([a, b]) == Ok(Scanned([bare], SetTo(PORT)));
    ScanAppend([a, b], c);
    assert [bare] + [Sock(c.val.s, None)] == [bare, Sock(c.val.s, None)];
  }

  lemma ScanNothing()
    ensures Scan([]) == Ok(Scanned([], Nothing))
  {
  }

  // How many hosts can be added

  /** A transaction that sets a user and then the given hosts. */
  function HostOps(user: string, hosts: seq<string>): seq<Op> {
    if hosts == [] then [Setting(USER, user)]
    else HostOps(user, hosts[..|hosts| - 1]) + [Setting(HOST, hosts[|hosts| - 1])]
  }

  function HostOptions(user: string, hosts: seq<string>): seq<OptVal> {
    if hosts == [] then [OptVal(USER, Str(user))]
    else HostOptions(user, hosts[..|hosts| - 1]) + [OptVal(HOST, Str(hosts[|hosts| - 1]))]
  }

  function HostEntries(hosts: seq<string>): (es: seq<Entry>)
    ensures |es| == |hosts| && forall i :: 0 <= i < |hosts| ==> es[i] == Tcp(Some(hosts[i]), None, None)
  {
    seq(|hosts|, i requires 0 <= i < |hosts| => Tcp(Some(hosts[i]), None, None))
  }

  function HostData(user: string, hosts: seq<string>): Data {
    Data(HostOptions(user, hosts), |hosts|, false, false, NO_MODE, hosts != [], false)
  }

  function HostState(user: string, hosts: seq<string>): State {
    State(HostData(user, hosts), hosts != [], false, false, false, {USER}, SetTo(if hosts == [] then USER else HOST))
  }

  lemma {:induction false} HostsApplied(user: string, hosts: seq<string>)
    ensures ApplyAll(Start(EMPTY), HostOps(user, hosts)) == Ok(HostState(user, hosts))
    decreases |hosts|
  {
    var n := |hosts| - 1;
    if hosts == [] {
      var u := OptVal(USER, Str(user));
      assert [Setting(USER, user)][..0] == [] && Replace([], u) == [u] && {} + {USER} == {USER};
      assert ApplyAll(Start(EMPTY), []) == Ok(Start(EMPTY));
    } else {
      HostsApplied(user, hosts[..n]);
      var ops := HostOps(user, hosts);
      assert ops[..|ops| - 1] == HostOps(user, hosts[..n]) && ops[|ops| - 1] == Setting(HOST, hosts[n]);
    }
  }

  lemma {:induction false} HostsScanned(user: string, hosts: seq<string>)
    ensures
      Scan(HostOptions(user, hosts)) == Ok(Scanned(HostEntries(hosts), SetTo(if hosts == [] then USER else HOST)))
    decreases |hosts|
  {
    hide Scan;
    var n := |hosts| - 1;
    if hosts == [] {
      ScanNothing();
      ScanAppend([], OptVal(USER, Str(user)));
      assert [] + [OptVal(USER, Str(user))] == [OptVal(USER, Str(user))];
    } else {
      HostsScanned(user, hosts[..n]);
      ScanAppend(HostOptions(user, hosts[..n]), OptVal(HOST, Str(hosts[n])));
      assert HostEntries(hosts[..n]) + [Tcp(Some(hosts[n]), None, None)] == HostEntries(hosts);
    }
  }

  lemma {:induction false} HostOptionsHave(user: string, hosts: seq<string>)
    ensures HostOptions(user, hosts) != [] && HostOptions(user, hosts)[0].opt == USER
    ensures forall ov :: ov in HostOptions(user, hosts) ==> ov.opt == USER || ov.opt == HOST
    ensures NoUnset(HostOps(user, hosts))
    decreases |hosts|
  {
    if hosts != [] {
      HostOptionsHave(user, hosts[..|hosts| - 1]);
    }
  }

  lemma HostsPrepared(user: string, hosts: seq<string>)
    ensures PrepareOptions(HostData(user, hosts), false).Fine?
  {
    var opts := HostOptions(user, hosts);
    HostOptionsHave(user, hosts);
    assert Has(opts, USER) by { assert opts[0].opt == USER; }
    assert forall o :: Has(opts, o) ==> o == USER || o == HOST;
  }

  /** A run that sets a user and any number of hosts without priorities commits all of them. A data
      source can be made of them if and only if there are at most 100: the 101st has priority 0, which
      does not go with the priorities of the others. */
  lemma HundredHosts(user: string, hosts: seq<string>)
    ensures
      var d := Run([HostOps(user, hosts)]);
      && Good(d) && !d.userPriorities && Scan(d.options).value.es == HostEntries(hosts)
      && (if hosts == [] then Expected(d) == AssertFailed
          else if |hosts| > 100 then Expected(d) == Thrown
          else Expected(d).Fine? && |Expected(d).val| == |hosts|)
  {
    hide Scan, ApplyAll, PrepareOptions, Good, Run, HostOps, HostOptions;
    HostsApplied(user, hosts);
    RunOne(HostOps(user, hosts), HostState(user, hosts));
    HostOptionsHave(user, hosts);
    OneGoodRun(HostOps(user, hosts));
    HostsScanned(user, hosts);
    HostsPrepared(user, hosts);
  }

  /** The state after a user and a host. */
  function UserAndHost(): (st: State)
    ensures var s1 := Apply(Start(EMPTY), Setting(USER, "u")); s1.Ok? && Apply(s1.value, Setting(HOST, "h")) == Ok(st)
  {
    var u, h := OptVal(USER, Str("u")), OptVal(HOST, Str("h"));
    assert Replace([], u) == [u] && [u] + [h] == [u, h] && {} + {USER} == {USER};
    State(Data([u, h], 1, false, false, NO_MODE, true, false), true, false, false, false, {USER}, SetTo(HOST))
  }

  /** Mode number 0 is accepted by the setter but is not a mode. */
  lemma ModeZero()
    ensures
      var d := Run([[Setting(USER, "u"), Setting(HOST, "h"), Number(SSL_MODE, 0)]]);
      Good(d) && Expected(d) == AssertFailed
  {
    hide Good, Scan, Expected, PrepareOptions, ApplyAll, Run;
    var a, b, c := Setting(USER, "u"), Setting(HOST, "h"), Number(SSL_MODE, 0);
    var s2 := UserAndHost();
    var s3 := Apply(s2, c).value;
    assert s3.data.options == [a.ov, b.ov, c.ov];
    ApplyThree(Start(EMPTY), a, b, c);
    RunOne([a, b, c], s3);
    OneGoodRun([a, b, c]);
    NoSuchMode(s3.data, a.ov, b.ov, c.ov);
  }

  lemma NoSuchMode(d: Data, a: OptVal, b: OptVal, c: OptVal)
    requires Good(d) && d.options == [a, b, c] && a.opt == USER && b.opt == HOST && c == OptVal(SSL_MODE, Num(0))
      && !d.sock
    ensures Expected(d) == AssertFailed
  {
    hide Scan, Good;
    assert Has(d.options, USER) by { assert d.options[0].opt == USER; }
    assert Has(d.options, SSL_MODE) by { assert d.options[2].opt == SSL_MODE; }
    assert Last(d.options, SSL_MODE) == Ok(Num(0));
  }

  /** Method number 0 is accepted by the setter but is not a method. */
  lemma AuthZero()
    ensures
      var d := Run([[Setting(USER, "u"), Setting(HOST, "h"), Number(AUTH, 0)]]);
      Good(d) && Expected(d) == AssertFailed
  {
    hide Good, Scan, Expected, PrepareOptions, ApplyAll, Run;
    var a, b, c := Setting(USER, "u"), Setting(HOST, "h"), Number(AUTH, 0);
    var s2 := UserAndHost();
    var s3 := Apply(s2, c).value;
    assert s3.data.options == [a.ov, b.ov, c.ov];
    ApplyThree(Start(EMPTY), a, b, c);
    RunOne([a, b, c], s3);
    OneGoodRun([a, b, c]);
    NoSuchMethod(s3.data, a.ov, b.ov, c.ov);
  }

  lemma NoSuchMethod(d: Data, a: OptVal, b: OptVal, c: OptVal)
    requires Good(d) && d.options == [a, b, c] && a.opt == USER && b.opt == HOST && c == OptVal(AUTH, Num(0)) && !d.sock
    ensures Expected(d) == AssertFailed
  {
    hide Scan, Good;
    assert Has(d.options, USER) by { assert d.options[0].opt == USER; }
    assert Has(d.options, AUTH) by { assert d.options[2].opt == AUTH; }
    assert !Has(d.options, SSL_MODE) && !Has(d.options, SSL_CA);
    assert Last(d.options, AUTH) == Ok(Num(0));
  }

  /** Unsetting SOCKET leaves its PRIORITY behind, and the count of hosts. */
  lemma OrphanedPriority()
    ensures
      var d := Run([[Setting(SOCKET, "/s"), Number(PRIORITY, 5), Unset(SOCKET)]]);
      d.options == [OptVal(PRIORITY, Num(5))] && d.hostCnt == 1 && d.userPriorities && !Good(d)
  {
    var a, b, c := Setting(SOCKET, "/s"), Number(PRIORITY, 5), Unset(SOCKET);
    var s0 := Start(EMPTY);
    var s1 := Apply(s0, a).value;
    assert s1.data.options == [a.ov];
    var s2 := Apply(s1, b).value;
    assert s2.data.options == [a.ov, b.ov];
    var s3 := Apply(s2, c).value;
    assert [a.ov, b.ov][..1] == [a.ov] && [a.ov][..0] == [];
    assert Without([a.ov], SOCKET) == [];
    assert s3.data.options == [b.ov];
    ApplyThree(s0, a, b, c);
    RunOne([a, b, c], s3);
    assert [b.ov][..0] == [];
    assert Scan([b.ov]) == ScanStep(Scanned([], Nothing), b.ov);
  }
}
