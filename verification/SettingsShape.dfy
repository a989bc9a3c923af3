/** What every run of setter transactions keeps: the shape of the option list and the
    consistency of the security options. */
module SettingsShape {
  import opened Wrappers
  import opened Settings

  /** A connection described by the option list. A PORT without a host before it is bare. */
  datatype Entry = Tcp(host: Option<string>, port: Option<nat>, prio: Option<nat>)
    | Sock(path: string, prio: Option<nat>)

  predicate Bare(e: Entry) { e.Tcp? && e.host.None? }

  datatype Scanned = Scanned(es: seq<Entry>, prev: LastOpt)

  function SetLast(es: seq<Entry>, e: Entry): seq<Entry>
    requires es != []
  {
    es[|es| - 1 := e]
  }

  /** HOST PORT? PRIORITY?, SOCKET PRIORITY? and bare PORT, each without gaps. */
  function ScanStep(sc: Scanned, ov: OptVal): Result<Scanned> {
    var es := sc.es;
    match ov.opt
    case HOST => if ov.val.Str? then Ok(Scanned(es + [Tcp(Some(ov.val.s), None, None)], SetTo(HOST))) else Error
    case SOCKET => if ov.val.Str? then Ok(Scanned(es + [Sock(ov.val.s, None)], SetTo(SOCKET))) else Error
    case PORT =>
      if !ov.val.Num? then Error
      else if sc.prev == SetTo(HOST) && es != [] && es[|es| - 1].Tcp? then
        Ok(Scanned(SetLast(es, es[|es| - 1].(port := Some(ov.val.n))), SetTo(PORT)))
      else Ok(Scanned(es + [Tcp(None, Some(ov.val.n), None)], SetTo(PORT)))
    case PRIORITY =>
      if ov.val.Num? && sc.prev in {SetTo(HOST), SetTo(PORT), SetTo(SOCKET)} && es != [] then
        Ok(Scanned(SetLast(es, es[|es| - 1].(prio := Some(ov.val.n))), SetTo(PRIORITY)))
      else Error
    case o => Ok(Scanned(es, SetTo(o)))
  }

  function Scan(opts: seq<OptVal>): Result<Scanned> {
    if opts == [] then Ok(Scanned([], Nothing))
    else
      var sc :- Scan(opts[..|opts| - 1]);
      ScanStep(sc, opts[|opts| - 1])
  }

  lemma ScanAppend(opts: seq<OptVal>, ov: OptVal)
    requires Scan(opts).Ok?
    ensures Scan(opts + [ov]) == ScanStep(Scan(opts).value, ov)
  {
    assert (opts + [ov])[..|opts|] == opts;
  }

  /** What the last option tells about the last entry. */
  predicate Tail(sc: Scanned) {
    && (sc.prev == SetTo(HOST) ==>
      sc.es != [] && var e := sc.es[|sc.es| - 1]; e.Tcp? && e.host.Some? && e.port.None? && e.prio.None?)
    && (sc.prev == SetTo(PORT) ==> sc.es != [] && var e := sc.es[|sc.es| - 1]; e.Tcp? && e.prio.None?)
    && (sc.prev == SetTo(SOCKET) ==> sc.es != [] && var e := sc.es[|sc.es| - 1]; e.Sock? && e.prio.None?)
  }

  lemma {:induction false} ScanTail(opts: seq<OptVal>)
    requires Scan(opts).Ok?
    ensures Tail(Scan(opts).value)
    decreases |opts|
  {
    if opts != [] {
      ScanTail(opts[..|opts| - 1]);
    }
  }

  /** Non-connection options do not matter to the list of connections. */
  lemma {:induction false} ScanReplaced(opts: seq<OptVal>, i: nat, ov: OptVal)
    requires Scan(opts).Ok? && i < |opts| && opts[i].opt == ov.opt && !Repeats(ov.opt)
    ensures Scan(opts[i := ov]) == Scan(opts)
    decreases |opts|
  {
    var n := |opts| - 1;
    if i < n {
      ScanReplaced(opts[..n], i, ov);
      assert opts[i := ov][..n] == opts[..n][i := ov];
    } else {
      assert opts[i := ov][..n] == opts[..n];
    }
  }

  lemma ScanReplace(opts: seq<OptVal>, ov: OptVal)
    requires Scan(opts).Ok? && !Repeats(ov.opt)
    ensures Scan(Replace(opts, ov)).Ok? && Scan(Replace(opts, ov)).value.es == Scan(opts).value.es
  {
    if IndexOf(opts, ov.opt) < |opts| {
      ScanReplaced(opts, IndexOf(opts, ov.opt), ov);
    } else {
      ScanAppend(opts, ov);
    }
  }

  function Hosts(es: seq<Entry>): nat {
    if es == [] then 0 else Hosts(es[..|es| - 1]) + if Bare(es[|es| - 1]) then 0 else 1
  }

  lemma HostsAppend(es: seq<Entry>, e: Entry)
    ensures Hosts(es + [e]) == Hosts(es) + if Bare(e) then 0 else 1
  {
    assert (es + [e])[..|es|] == es;
  }

  lemma HostsSetLast(es: seq<Entry>, e: Entry)
    requires es != [] && Bare(e) == Bare(es[|es| - 1])
    ensures Hosts(SetLast(es, e)) == Hosts(es)
  {
    assert SetLast(es, e)[..|es| - 1] == es[..|es| - 1];
  }

  lemma {:induction false} NoHosts(es: seq<Entry>, i: nat)
    requires i < |es| && Hosts(es) == 0
    ensures Bare(es[i])
    decreases |es|
  {
    if i < |es| - 1 {
      NoHosts(es[..|es| - 1], i);
    }
  }

  lemma {:induction false} SomeHost(es: seq<Entry>, i: nat)
    requires i < |es| && !Bare(es[i])
    ensures Hosts(es) > 0
    decreases |es|
  {
    if i < |es| - 1 {
      SomeHost(es[..|es| - 1], i);
    }
  }

  // Invariants of a list of connections

  predicate InRange(e: Entry) {
    && (e.Tcp? && e.port.Some? ==> e.port.value <= 65535)
    && (e.prio.Some? ==> e.prio.value <= 100)
  }

  /** All of a list but its priorities: a bare PORT can only come first and has no priority. */
  ghost predicate Listed(d: Data, es: seq<Entry>) {
    && d.hostCnt == Hosts(es)
    && (forall i :: 0 <= i < |es| ==> InRange(es[i]))
    && (forall i :: 0 <= i < |es| && Bare(es[i]) ==> i == 0 && es[i].prio.None?)
    && (d.tcpip <==> exists i :: 0 <= i < |es| && es[i].Tcp?)
    && (d.sock <==> exists i :: 0 <= i < |es| && es[i].Sock?)
    && (d.userPriorities ==> d.hostCnt > 0)
  }

  /** Priorities are given for all hosts or for none. */
  predicate Prioritised(d: Data, es: seq<Entry>) {
    forall i :: 0 <= i < |es| && !Bare(es[i]) ==> es[i].prio.Some? == d.userPriorities
  }

  /** Settings as a caller may see them. */
  ghost predicate Good(d: Data) {
    && Scan(d.options).Ok?
    && var es := Scan(d.options).value.es;
       Listed(d, es) && Prioritised(d, es)
  }

  /** Settings that describe a single connection by its PORT alone: no transaction on top of
      them is ever committed. */
  predicate PortOnly(d: Data) { d.tcpip && d.hostCnt == 0 }

  /** The state inside a transaction that started from good settings. */
  ghost predicate Going(st: State) {
    && Scan(st.data.options).Ok?
    && var sc := Scan(st.data.options).value;
       var es := sc.es;
       && Listed(st.data, es)
       && (st.prev.SetTo? && Repeats(st.prev.opt) ==> sc.prev == st.prev)
       && (st.host ==> es != [] && !Bare(es[|es| - 1]) && es[|es| - 1].prio.Some? == st.prio)
       && (st.prio ==> st.host && st.data.userPriorities)
       && (forall i :: 0 <= i < |es| && !Bare(es[i]) && (i < |es| - 1 || !st.host) ==>
         es[i].prio.Some? == st.data.userPriorities)
       && (es != [] && Bare(es[0]) ==> st.port || st.data.hostCnt > 0)
       && (st.port && st.data.hostCnt == 0 ==> es != [])
  }

  lemma StartGoing(d: Data)
    requires Good(d) && !PortOnly(d)
    ensures Going(Start(d))
  {
  }

  // What a setter call does to the data

  /** The option as it is stored: names of modes and methods become numbers. */
  function Norm(ov: OptVal): OptVal {
    if ov.val.Str? && ov.opt == SSL_MODE && ModeOfName(ov.val.s).Ok? then
      OptVal(SSL_MODE, Num(ModeOfName(ov.val.s).value))
    else if ov.val.Str? && ov.opt == AUTH && AuthOfName(ov.val.s).Ok? then OptVal(AUTH, Num(AuthOfName(ov.val.s).value))
    else ov
  }

  /** The data after a successful call, whatever the option. */
  predicate Effect(d: Data, ov: OptVal, d1: Data) {
    var o := ov.opt;
    && d1.options == (if Repeats(o) then d.options + [ov] else Replace(d.options, ov))
    && d1.hostCnt == (if o == HOST || o == SOCKET then d.hostCnt + 1 else d.hostCnt)
    && d1.tcpip == (d.tcpip || o == HOST || o == PORT)
    && d1.sock == (d.sock || o == SOCKET)
    && d1.userPriorities == (d.userPriorities || o == PRIORITY)
    && d1.sslCa == (d.sslCa || o == SSL_CA)
    && (if o == SSL_MODE then ov.val == Num(d1.sslMode) && d1.sslMode < NO_MODE && (d.sslCa ==> Verifying(d1.sslMode))
        else d1.sslMode == d.sslMode)
    && (o == SSL_CA ==> Verifying(d.sslMode) || d.sslMode == NO_MODE)
    && (o == HOST || o == SOCKET ==> ov.val.Str?)
    && (o == PORT || o == PRIORITY ==> ov.val.Num?)
  }

  lemma SetEffect(st: State, ov: OptVal)
    requires SetOption(st, ov).Ok?
    ensures Effect(st.data, Norm(ov), SetOption(st, ov).value.data)
  {
    hide ModeOfName, AuthOfName, Replace;
    if ov.val.Str? {
      StringEffect(st, ov.opt, ov.val.s);
    } else {
      NumberEffect(st, ov.opt, ov.val.n);
    }
  }

  lemma StringEffect(st: State, o: Opt, v: string)
    requires SetString(st, o, v).Ok?
    ensures Effect(st.data, Norm(OptVal(o, Str(v))), SetString(st, o, v).value.data)
  {
    hide ModeOfName, AuthOfName, Replace;
    match o
    case HOST =>
    case SOCKET =>
    case SSL_MODE =>
    case SSL_CA =>
    case AUTH =>
    case USER =>
    case PWD =>
    case DB =>
  }

  lemma NumberEffect(st: State, o: Opt, n: nat)
    requires SetNumber(st, o, n).Ok?
    ensures Effect(st.data, OptVal(o, Num(n)), SetNumber(st, o, n).value.data)
  {
    hide Replace;
    match o
    case PORT =>
    case PRIORITY =>
    case SSL_MODE =>
    case AUTH =>
  }

  // Each setter call keeps the invariant

  /** A new last entry, with no priority yet. */
  lemma GoingNewEntry(st: State, st1: State, e: Entry)
    requires Going(st) && Scan(st1.data.options).Ok?
    requires Scan(st1.data.options).value.es == Scan(st.data.options).value.es + [e] && InRange(e) && e.prio.None?
    requires st.data.userPriorities && st.host ==> st.prio
    requires !Bare(e) && st1.host && !st1.prio && !st1.port
    requires st1.data.hostCnt == st.data.hostCnt + 1 && st1.data.userPriorities == st.data.userPriorities
    requires st1.data.tcpip == (st.data.tcpip || e.Tcp?) && st1.data.sock == (st.data.sock || e.Sock?)
    requires st1.prev == Scan(st1.data.options).value.prev
    ensures Going(st1)
  {
    hide Scan, Hosts;
    var es := Scan(st.data.options).value.es;
    var es1 := es + [e];
    HostsAppend(es, e);
    KindsAppend(es, e);
    assert es1[|es|] == e;
    assert forall i :: 0 <= i < |es| ==> es1[i] == es[i];
  }

  lemma KindsAppend(es: seq<Entry>, e: Entry)
    ensures (exists i :: 0 <= i < |es| + 1 && (es + [e])[i].Tcp?) <==> e.Tcp? || exists i :: 0 <= i < |es| && es[i].Tcp?
    ensures (exists i :: 0 <= i < |es| + 1 && (es + [e])[i].Sock?) <==>
      e.Sock? || exists i :: 0 <= i < |es| && es[i].Sock?
  {
    var es1 := es + [e];
    assert es1[|es|] == e;
    if i :| 0 <= i < |es| && es[i].Tcp? { assert es1[i].Tcp?; }
    if i :| 0 <= i < |es| && es[i].Sock? { assert es1[i].Sock?; }
  }

  lemma GoingHost(st: State, v: string)
    requires Going(st) && SetHost(st, v).Ok?
    ensures Going(SetHost(st, v).value)
  {
    hide Scan;
    ScanAppend(st.data.options, OptVal(HOST, Str(v)));
    GoingNewEntry(st, SetHost(st, v).value, Tcp(Some(v), None, None));
  }

  lemma GoingSocket(st: State, v: string)
    requires Going(st) && SetSocket(st, v).Ok?
    ensures Going(SetSocket(st, v).value)
  {
    hide Scan;
    ScanAppend(st.data.options, OptVal(SOCKET, Str(v)));
    GoingNewEntry(st, SetSocket(st, v).value, Sock(v, None));
  }

  lemma GoingPort(st: State, v: nat)
    requires Going(st) && SetPort(st, v).Ok?
    ensures Going(SetPort(st, v).value)
  {
    hide Scan, Hosts;
    var opts := st.data.options;
    ScanAppend(opts, OptVal(PORT, Num(v)));
    ScanTail(opts);
    if st.data.hostCnt == 0 {
      GoingBarePort(st, v);
    } else {
      GoingHostPort(st, v);
    }
  }

  lemma GoingBarePort(st: State, v: nat)
    requires Going(st) && SetPort(st, v).Ok? && st.data.hostCnt == 0
    ensures Going(SetPort(st, v).value)
  {
    hide Scan;
    ScanAppend(st.data.options, OptVal(PORT, Num(v)));
    ScanTail(st.data.options);
    var es1 := Scan(SetPort(st, v).value.data.options).value.es;
    assert Scan(st.data.options).value.es == [];
    assert es1 == [Tcp(None, Some(v), None)];
    HostsAppend([], es1[0]);
    assert [] + [es1[0]] == es1;
  }

  lemma GoingHostPort(st: State, v: nat)
    requires Going(st) && SetPort(st, v).Ok? && st.data.hostCnt > 0
    ensures Going(SetPort(st, v).value)
  {
    hide Scan, Hosts;
    ScanAppend(st.data.options, OptVal(PORT, Num(v)));
    ScanTail(st.data.options);
    var es := Scan(st.data.options).value.es;
    var e := es[|es| - 1].(port := Some(v));
    assert Scan(SetPort(st, v).value.data.options).value.es == SetLast(es, e);
    HostsSetLast(es, e);
    SameKinds(es, e);
  }

  lemma SameKinds(es: seq<Entry>, e: Entry)
    requires es != [] && e.Tcp? == es[|es| - 1].Tcp?
    ensures (exists i :: 0 <= i < |es| && es[i].Tcp?) <==> (exists i :: 0 <= i < |es| && SetLast(es, e)[i].Tcp?)
    ensures (exists i :: 0 <= i < |es| && es[i].Sock?) <==> (exists i :: 0 <= i < |es| && SetLast(es, e)[i].Sock?)
  {
    var es1 := SetLast(es, e);
    assert forall i :: 0 <= i < |es| ==> es[i].Tcp? == es1[i].Tcp?;
  }

  lemma {:induction false} OneHost(es: seq<Entry>, i: nat)
    requires i < |es| - 1 && Hosts(es) <= 1 && !Bare(es[|es| - 1])
    ensures Bare(es[i])
  {
    NoHosts(es[..|es| - 1], i);
  }

  lemma GoingPriority(st: State, v: nat)
    requires Going(st) && SetPriority(st, v).Ok?
    ensures Going(SetPriority(st, v).value)
  {
    hide Scan, Hosts;
    var opts, st1 := st.data.options, SetPriority(st, v).value;
    var es := Scan(opts).value.es;
    ScanAppend(opts, OptVal(PRIORITY, Num(v)));
    ScanTail(opts);
    var e := es[|es| - 1].(prio := Some(v));
    var es1 := SetLast(es, e);
    assert Scan(st1.data.options).value.es == es1;
    HostsSetLast(es, e);
    SameKinds(es, e);
    SomeHost(es, |es| - 1);
    forall i | 0 <= i < |es| - 1 && !Bare(es[i])
      ensures es1[i].prio.Some?
    {
      if !st.data.userPriorities {
        OneHost(es, i);
      }
    }
  }

  lemma GoingOther(st: State, st1: State, ov: OptVal)
    requires Going(st) && !Repeats(ov.opt) && AddOption(st1, ov).Ok?
    requires st1 == st.(data := st.data.(sslMode := st1.data.sslMode, sslCa := st1.data.sslCa))
    ensures Going(AddOption(st1, ov).value)
  {
    hide Scan;
    ScanReplace(st.data.options, ov);
  }

  lemma GoingSet(st: State, ov: OptVal)
    requires Going(st) && SetOption(st, ov).Ok?
    ensures Going(SetOption(st, ov).value)
  {
    hide Going, SetHost, SetSocket, SetPort, SetPriority, AddOption, ModeOfName, AuthOfName;
    match ov.opt
    case HOST => GoingHost(st, ov.val.s);
    case SOCKET => GoingSocket(st, ov.val.s);
    case PORT => GoingPort(st, ov.val.n);
    case PRIORITY => GoingPriority(st, ov.val.n);
    case SSL_MODE =>
      var v := if ov.val.Str? then ModeOfName(ov.val.s).value else ov.val.n;
      GoingOther(st, st.(data := st.data.(sslMode := v)), OptVal(SSL_MODE, Num(v)));
    case SSL_CA => GoingOther(st, st.(data := st.data.(sslCa := true)), ov);
    case AUTH =>
      var v := if ov.val.Str? then AuthOfName(ov.val.s).value else ov.val.n;
      GoingOther(st, st, OptVal(AUTH, Num(v)));
    case _ => GoingOther(st, st, ov);
  }

  // Unsetting options

  /** A step never changes whether an earlier entry is bare. */
  lemma BareStays(sc: Scanned, ov: OptVal)
    requires ScanStep(sc, ov).Ok?
    ensures
      var es1 := ScanStep(sc, ov).value.es;
      && |es1| >= |sc.es|
      && forall i :: 0 <= i < |sc.es| ==> Bare(es1[i]) == Bare(sc.es[i]) && es1[i].Tcp? == sc.es[i].Tcp?
  {
  }

  ghost predicate BareOnlyFirst(es: seq<Entry>) { forall i :: 0 <= i < |es| && Bare(es[i]) ==> i == 0 }

  predicate SamePrev(a: Scanned, b: Scanned) { a.prev.SetTo? && Repeats(a.prev.opt) ==> b.prev == a.prev }

  /** Erasing an option that describes no connection leaves the connections as they are. */
  lemma {:induction false} ScanWithout(opts: seq<OptVal>, o: Opt)
    requires Scan(opts).Ok? && BareOnlyFirst(Scan(opts).value.es) && !Repeats(o)
    ensures
      var r := Scan(Without(opts, o));
      r.Ok? && r.value.es == Scan(opts).value.es && SamePrev(Scan(opts).value, r.value)
    decreases |opts|
  {
    hide ScanStep;
    if opts != [] {
      var init, last := opts[..|opts| - 1], opts[|opts| - 1];
      BareStays(Scan(init).value, last);
      ScanWithout(init, o);
      ScanTail(Without(init, o));
      StepWithout(Scan(init).value, Scan(Without(init, o)).value, last);
      if last.opt == o {
        assert Without(opts, o) == Without(init, o);
      } else {
        ScanAppend(Without(init, o), last);
      }
    }
  }

  lemma StepWithout(a: Scanned, b: Scanned, ov: OptVal)
    requires a.es == b.es && SamePrev(a, b) && ScanStep(a, ov).Ok? && Tail(b)
    requires BareOnlyFirst(ScanStep(a, ov).value.es)
    ensures ScanStep(b, ov).Ok? && ScanStep(b, ov).value == ScanStep(a, ov).value
    ensures !Repeats(ov.opt) ==> ScanStep(a, ov).value.es == b.es && ScanStep(a, ov).value.prev == SetTo(ov.opt)
  {
    var es1 := ScanStep(a, ov).value.es;
    if ov.opt == PORT && |es1| == |a.es| + 1 {
      assert Bare(es1[|a.es|]);
    }
  }

  function Cnt(opts: seq<OptVal>, o: Opt): nat {
    if opts == [] then 0 else Cnt(opts[..|opts| - 1], o) + if opts[|opts| - 1].opt == o then 1 else 0
  }

  /** Every HOST and every SOCKET is one host. */
  lemma {:induction false} HostsCounted(opts: seq<OptVal>)
    requires Scan(opts).Ok?
    ensures Hosts(Scan(opts).value.es) == Cnt(opts, HOST) + Cnt(opts, SOCKET)
    decreases |opts|
  {
    hide Hosts;
    if opts == [] {
      assert Hosts([]) == 0 by { HostsOfNothing(); }
    } else {
      HostsCounted(opts[..|opts| - 1]);
      HostsStep(Scan(opts[..|opts| - 1]).value, opts[|opts| - 1]);
    }
  }

  lemma HostsOfNothing()
    ensures Hosts([]) == 0
  {
  }

  lemma HostsStep(sc: Scanned, ov: OptVal)
    requires ScanStep(sc, ov).Ok?
    ensures Hosts(ScanStep(sc, ov).value.es) == Hosts(sc.es) + if ov.opt == HOST || ov.opt == SOCKET then 1 else 0
  {
    hide Hosts;
    var es, es1 := sc.es, ScanStep(sc, ov).value.es;
    if |es1| > |es| {
      HostsAppend(es, es1[|es|]);
    } else if es != [] {
      HostsSetLast(es, es1[|es| - 1]);
      assert es1 == SetLast(es, es1[|es| - 1]);
    }
  }

  lemma {:induction false} CntWithout(opts: seq<OptVal>, x: Opt, o: Opt)
    ensures Cnt(Without(opts, x), o) == if o == x then 0 else Cnt(opts, o)
    decreases |opts|
  {
    if opts != [] {
      var init, last := opts[..|opts| - 1], opts[|opts| - 1];
      CntWithout(init, x, o);
      var w := Without(init, x);
      assert (w + [last])[..|w|] == w;
      assert w + [] == w;
    }
  }

  /** There are SOCKET options exactly if there are socket entries. */
  lemma {:induction false} SocketsCounted(opts: seq<OptVal>)
    requires Scan(opts).Ok?
    ensures Cnt(opts, SOCKET) > 0 <==> exists i :: 0 <= i < |Scan(opts).value.es| && Scan(opts).value.es[i].Sock?
    decreases |opts|
  {
    if opts != [] {
      var sc, last := Scan(opts[..|opts| - 1]).value, opts[|opts| - 1];
      SocketsCounted(opts[..|opts| - 1]);
      SocketStep(sc, last);
    }
  }

  lemma SocketStep(sc: Scanned, ov: OptVal)
    requires ScanStep(sc, ov).Ok?
    ensures
      var es1 := ScanStep(sc, ov).value.es;
      (exists i :: 0 <= i < |es1| && es1[i].Sock?) <==>
        ov.opt == SOCKET || exists i :: 0 <= i < |sc.es| && sc.es[i].Sock?
  {
    hide ScanStep;
    var es1 := ScanStep(sc, ov).value.es;
    BareStays(sc, ov);
    LastSocket(sc, ov);
    if i :| 0 <= i < |sc.es| && sc.es[i].Sock? {
      assert es1[i].Sock?;
    }
    if i :| 0 <= i < |es1| && es1[i].Sock? {
      assert i < |sc.es| ==> sc.es[i].Sock?;
    }
  }

  lemma LastSocket(sc: Scanned, ov: OptVal)
    requires ScanStep(sc, ov).Ok?
    ensures
      var es1 := ScanStep(sc, ov).value.es;
      && |es1| <= |sc.es| + 1
      && (|es1| > |sc.es| ==> (es1[|sc.es|].Sock? <==> ov.opt == SOCKET))
      && (ov.opt == SOCKET ==> |es1| == |sc.es| + 1)
  {
  }

  lemma {:induction false} NothingErased(opts: seq<OptVal>, o: Opt)
    requires Cnt(opts, o) == 0
    ensures Without(opts, o) == opts
    decreases |opts|
  {
    if opts != [] {
      NothingErased(opts[..|opts| - 1], o);
      assert opts == opts[..|opts| - 1] + [opts[|opts| - 1]];
    }
  }

  /** An option that can be erased without leaving parts of a connection behind. */
  predicate Detachable(d: Data, o: Opt) { !Repeats(o) || (o == SOCKET && !d.sock) }

  /** The connections of settings from which an option was erased. */
  lemma EraseKeeps(d: Data, o: Opt)
    requires Scan(d.options).Ok? && Listed(d, Scan(d.options).value.es) && Detachable(d, o)
    ensures
      var e := Erase(d, o);
      && Scan(e.options).Ok? && Scan(e.options).value.es == Scan(d.options).value.es
      && SamePrev(Scan(d.options).value, Scan(e.options).value)
      && e.hostCnt == d.hostCnt && e.tcpip == d.tcpip && e.sock == d.sock && e.userPriorities == d.userPriorities
  {
    hide Scan, Hosts;
    if o == SOCKET {
      SocketsCounted(d.options);
      NothingErased(d.options, SOCKET);
    } else {
      ScanWithout(d.options, o);
    }
  }

  /** Erasing an option that is not part of a connection, or SOCKET, keeps settings good if and only
      if no SOCKET is set that is erased: a set one leaves the count of hosts behind. */
  lemma EraseGood(d: Data, o: Opt)
    requires Good(d) && (!Repeats(o) || o == SOCKET)
    ensures Good(Erase(d, o)) <==> Detachable(d, o)
  {
    hide Scan, Hosts;
    if Detachable(d, o) {
      EraseKeeps(d, o);
    } else if Good(Erase(d, o)) {
      SocketsCounted(d.options);
      HostsCounted(d.options);
      HostsCounted(Without(d.options, SOCKET));
      CntWithout(d.options, SOCKET, HOST);
      CntWithout(d.options, SOCKET, SOCKET);
    }
  }

  lemma GoingErase(st: State, o: Opt)
    requires Going(st) && Apply(st, Unset(o)).Ok? && Detachable(st.data, o)
    ensures Going(Apply(st, Unset(o)).value)
  {
    hide Scan, Hosts, Erase;
    EraseKeeps(st.data, o);
  }

  /** No SOCKET is unset while one is set. */
  ghost predicate KeepsSockets(d: Data, ops: seq<Op>) {
    forall k :: 0 <= k < |ops| && ops[k] == Unset(SOCKET) && ApplyAll(Start(d), ops[..k]).Ok?
      ==> !ApplyAll(Start(d), ops[..k]).value.data.sock
  }

  lemma KeepsSocketsPrefix(d: Data, ops: seq<Op>)
    requires ops != [] && KeepsSockets(d, ops)
    ensures KeepsSockets(d, ops[..|ops| - 1])
  {
    hide ApplyAll;
    var init := ops[..|ops| - 1];
    assert forall k :: 0 <= k < |init| ==> init[k] == ops[k] && init[..k] == ops[..k];
  }

  lemma GoingStep(st: State, op: Op)
    requires Going(st) && Apply(st, op).Ok? && (op == Unset(SOCKET) ==> !st.data.sock)
    ensures Going(Apply(st, op).value)
  {
    hide Going, SetOption, Erase;
    if op.Set? {
      GoingSet(st, op.ov);
    } else {
      GoingErase(st, op.opt);
    }
  }

  lemma {:induction false} GoingAll(d: Data, ops: seq<Op>)
    requires Good(d) && !PortOnly(d) && KeepsSockets(d, ops) && ApplyAll(Start(d), ops).Ok?
    ensures Going(ApplyAll(Start(d), ops).value)
    decreases |ops|
  {
    hide Going, Apply, Good;
    if ops == [] {
      StartGoing(d);
    } else {
      KeepsSocketsPrefix(d, ops);
      GoingAll(d, ops[..|ops| - 1]);
      GoingStep(ApplyAll(Start(d), ops[..|ops| - 1]).value, ops[|ops| - 1]);
    }
  }

  lemma {:induction false} PortOnlyStays(d: Data, ops: seq<Op>)
    requires PortOnly(d) && ApplyAll(Start(d), ops).Ok?
    ensures ApplyAll(Start(d), ops).value.data.tcpip
    decreases |ops|
  {
    hide SetOption;
    if ops != [] {
      PortOnlyStays(d, ops[..|ops| - 1]);
      if ops[|ops| - 1].Set? {
        TcpipStays(ApplyAll(Start(d), ops[..|ops| - 1]).value, ops[|ops| - 1].ov);
      }
    }
  }

  lemma TcpipStays(st: State, ov: OptVal)
    requires st.data.tcpip && SetOption(st, ov).Ok?
    ensures SetOption(st, ov).value.data.tcpip
  {
    hide SetOption;
    SetEffect(st, ov);
  }

  lemma CommitGood(d: Data, st: State)
    requires Going(st) && Commit(d, st).Ok?
    ensures Good(Commit(d, st).value)
  {
    hide Scan, Hosts;
  }

  /** Settings given by a PORT alone are final. */
  lemma PortOnlyIsFinal(d: Data, ops: seq<Op>)
    requires PortOnly(d)
    ensures Transaction(d, ops) == d
  {
    hide ApplyAll;
    if ApplyAll(Start(d), ops).Ok? {
      PortOnlyStays(d, ops);
    }
  }

  lemma TransactionGood(d: Data, ops: seq<Op>)
    requires Good(d) && KeepsSockets(d, ops)
    ensures Good(Transaction(d, ops))
  {
    hide ApplyAll, Going, Good, Commit, KeepsSockets;
    if PortOnly(d) {
      PortOnlyIsFinal(d, ops);
    } else if ApplyAll(Start(d), ops).Ok? {
      var st := ApplyAll(Start(d), ops).value;
      GoingAll(d, ops);
      if Commit(d, st).Ok? {
        CommitGood(d, st);
      }
    }
  }

  /** Every run that never unsets a SOCKET while one is set leaves good settings. */
  lemma {:induction false} RunGood(txs: seq<seq<Op>>)
    requires forall i :: 0 <= i < |txs| ==> KeepsSockets(Run(txs[..i]), txs[i])
    ensures Good(Run(txs))
    decreases |txs|
  {
    hide KeepsSockets, Transaction;
    if txs == [] {
      assert Listed(EMPTY, []);
    } else {
      var n := |txs| - 1;
      assert forall i :: 0 <= i < n ==> txs[..n][i] == txs[i] && txs[..n][..i] == txs[..i];
      RunGood(txs[..n]);
      TransactionGood(Run(txs[..n]), txs[n]);
    }
  }

  /** Only options that are set. */
  predicate NoUnset(ops: seq<Op>) { forall i :: 0 <= i < |ops| ==> ops[i].Set? }

  lemma NoUnsetKeeps(d: Data, ops: seq<Op>)
    requires NoUnset(ops)
    ensures KeepsSockets(d, ops)
  {
  }

  // The shape of a committed list

  /** A lone bare PORT, or only entries that name a host or a socket. */
  ghost predicate Shape(d: Data) {
    && Good(d)
    && var es := Scan(d.options).value.es;
       (forall i :: 0 <= i < |es| ==> !Bare(es[i])) || (|es| == 1 && Bare(es[0]))
  }

  /** The host count and the first entry tell whether good settings have the shape: it fails exactly
      when a bare PORT was followed by a SOCKET. */
  lemma ShapeIff(d: Data)
    requires Good(d)
    ensures Shape(d) <==>
      var es := Scan(d.options).value.es;
      d.hostCnt == 0 || es == [] || !Bare(es[0])
  {
    hide Scan;
    var es := Scan(d.options).value.es;
    if es != [] && Bare(es[0]) {
      if |es| == 1 {
        assert es[..0] == [] && Hosts(es[..0]) == 0;
      }
    }
  }

  /** No SOCKET is set in a transaction that has set a bare PORT before. */
  ghost predicate NoSocketAfterPort(d: Data, ops: seq<Op>) {
    forall k :: 0 <= k < |ops| && ops[k].Set? && ops[k].ov.opt == SOCKET && ApplyAll(Start(d), ops[..k]).Ok?
      ==> var st := ApplyAll(Start(d), ops[..k]).value; !(st.port && st.data.hostCnt == 0)
  }

  predicate BareFirst(opts: seq<OptVal>) { Scan(opts).Ok? && Scan(opts).value.es != [] && Bare(Scan(opts).value.es[0]) }

  /** A bare PORT next to a host or a socket. */
  ghost predicate Spoiled(d: Data) { BareFirst(d.options) && d.hostCnt > 0 }

  /** What the setter does to the first connection of the list. */
  lemma FirstEntry(st: State, ov: OptVal)
    requires Going(st) && SetOption(st, ov).Ok?
    ensures Scan(SetOption(st, ov).value.data.options).Ok?
    ensures
      var es := Scan(st.data.options).value.es;
      var es1 := Scan(SetOption(st, ov).value.data.options).value.es;
      if es != [] then es1 != [] && Bare(es1[0]) == Bare(es[0])
      else es1 != [] && Bare(es1[0]) ==> ov.opt == PORT
  {
    hide Scan, SetOption, Replace, Hosts, ModeOfName, AuthOfName;
    var opts := st.data.options;
    ScanTail(opts);
    SetEffect(st, ov);
    GoingSet(st, ov);
    if Repeats(ov.opt) {
      ScanAppend(opts, ov);
    } else {
      ScanReplace(opts, Norm(ov));
    }
  }

  /** The exact step that spoils the shape; nothing repairs it. */
  lemma WhatSpoils(st: State, ov: OptVal)
    requires Going(st) && SetOption(st, ov).Ok?
    ensures Spoiled(SetOption(st, ov).value.data) <==>
            Spoiled(st.data) || (ov.opt == SOCKET && st.port && st.data.hostCnt == 0)
  {
    hide Scan, SetOption, Replace, ModeOfName, AuthOfName;
    FirstEntry(st, ov);
    SetEffect(st, ov);
    GoingSet(st, ov);
    var es := Scan(st.data.options).value.es;
    if st.data.hostCnt == 0 && es != [] {
      NoHosts(es, 0);
    }
    if ov.opt == HOST {
      HostRefused(st, ov);
    }
  }

  lemma EraseSpoils(st: State, o: Opt)
    requires Going(st) && Detachable(st.data, o)
    ensures Spoiled(Erase(st.data, o)) <==> Spoiled(st.data)
  {
    hide Scan, Erase;
    EraseKeeps(st.data, o);
  }

  lemma HostRefused(st: State, ov: OptVal)
    requires ov.opt == HOST && SetOption(st, ov).Ok?
    ensures !(st.data.hostCnt == 0 && st.port)
  {
  }

  /** A committed transaction keeps the shape if and only if it sets no SOCKET after a bare PORT. */
  lemma {:induction false} TransactionSpoils(d: Data, ops: seq<Op>)
    requires Shape(d) && !PortOnly(d) && KeepsSockets(d, ops) && ApplyAll(Start(d), ops).Ok?
    ensures Spoiled(ApplyAll(Start(d), ops).value.data) <==> !NoSocketAfterPort(d, ops)
    decreases |ops|
  {
    hide SetOption, Going, Scan, Good, Erase;
    if ops == [] {
      ShapeIff(d);
    } else {
      var n := |ops| - 1;
      var st := ApplyAll(Start(d), ops[..n]).value;
      KeepsSocketsPrefix(d, ops);
      TransactionSpoils(d, ops[..n]);
      GoingAll(d, ops[..n]);
      if ops[n].Set? {
        WhatSpoils(st, ops[n].ov);
      } else {
        EraseSpoils(st, ops[n].opt);
      }
      assert forall k :: 0 <= k < n ==> ops[..n][..k] == ops[..k];
    }
  }

  lemma ShapeOfTransaction(d: Data, ops: seq<Op>)
    requires Shape(d) && !PortOnly(d) && KeepsSockets(d, ops)
    requires ApplyAll(Start(d), ops).Ok? && Commit(d, ApplyAll(Start(d), ops).value).Ok?
    ensures Shape(Transaction(d, ops)) <==> NoSocketAfterPort(d, ops)
  {
    hide ApplyAll, Scan, NoSocketAfterPort, Listed, Prioritised, KeepsSockets;
    TransactionGood(d, ops);
    TransactionSpoils(d, ops);
    ShapeIff(Transaction(d, ops));
  }

  /** Runs that never set a SOCKET after a bare PORT keep the shape of the list. */
  lemma {:induction false} RunShape(txs: seq<seq<Op>>)
    requires forall i :: 0 <= i < |txs| ==>
      KeepsSockets(Run(txs[..i]), txs[i]) && NoSocketAfterPort(Run(txs[..i]), txs[i])
    ensures Shape(Run(txs))
    decreases |txs|
  {
    hide ApplyAll, Commit, NoSocketAfterPort, Good, KeepsSockets;
    if txs == [] {
      RunGood([]);
    } else {
      var n := |txs| - 1;
      var d, ops := Run(txs[..n]), txs[n];
      assert forall i :: 0 <= i < n ==> txs[..n][i] == txs[i] && txs[..n][..i] == txs[..i];
      RunShape(txs[..n]);
      if PortOnly(d) {
        PortOnlyIsFinal(d, ops);
      } else if ApplyAll(Start(d), ops).Ok? && Commit(d, ApplyAll(Start(d), ops).value).Ok? {
        ShapeOfTransaction(d, ops);
      }
    }
  }

  // Security options

  predicate AtMostOnce(opts: seq<OptVal>, o: Opt) {
    forall i, j :: 0 <= i < j < |opts| ==> !(opts[i].opt == o && opts[j].opt == o)
  }

  /** The flags agree with the list, and a certificate authority goes with a verifying mode. */
  predicate Secure(d: Data) {
    && AtMostOnce(d.options, SSL_MODE)
    && (d.sslCa <==> Has(d.options, SSL_CA))
    && (d.sslMode != NO_MODE <==> Has(d.options, SSL_MODE))
    && (forall i :: 0 <= i < |d.options| && d.options[i].opt == SSL_MODE ==> d.options[i].val == Num(d.sslMode))
    && (d.sslCa ==> Verifying(d.sslMode) || d.sslMode == NO_MODE)
  }

  lemma SecureAppend(d: Data, d1: Data, ov: OptVal)
    requires Secure(d) && ov.opt != SSL_MODE && ov.opt != SSL_CA
    requires d1.options == d.options + [ov] && d1.sslMode == d.sslMode && d1.sslCa == d.sslCa
    ensures Secure(d1)
  {
    var n := |d.options|;
    assert d1.options[n] == ov && forall i :: 0 <= i < n ==> d1.options[i] == d.options[i];
    if Has(d.options, SSL_CA) {
      var i :| 0 <= i < n && d.options[i].opt == SSL_CA;
      assert d1.options[i].opt == SSL_CA;
    }
    if Has(d.options, SSL_MODE) {
      var i :| 0 <= i < n && d.options[i].opt == SSL_MODE;
      assert d1.options[i].opt == SSL_MODE;
    }
  }

  /** Where the options of a list with one option replaced come from. */
  lemma ReplaceAt(opts: seq<OptVal>, ov: OptVal, k: nat)
    requires k == IndexOf(opts, ov.opt)
    ensures |Replace(opts, ov)| == (if k < |opts| then |opts| else k + 1) && Replace(opts, ov)[k] == ov
    ensures forall i :: 0 <= i < |Replace(opts, ov)| && i != k ==> i < |opts| && Replace(opts, ov)[i] == opts[i]
  {
  }

  lemma HasReplace(opts: seq<OptVal>, ov: OptVal, o: Opt)
    ensures Has(Replace(opts, ov), o) <==> Has(opts, o) || o == ov.opt
  {
    hide Replace;
    var r, k := Replace(opts, ov), IndexOf(opts, ov.opt);
    ReplaceAt(opts, ov, k);
    if Has(opts, o) {
      var i :| 0 <= i < |opts| && opts[i].opt == o;
      assert i != k ==> r[i].opt == o;
    }
  }

  lemma ReplaceOnce(opts: seq<OptVal>, ov: OptVal, o: Opt)
    requires AtMostOnce(opts, o)
    ensures AtMostOnce(Replace(opts, ov), o)
    ensures forall i :: 0 <= i < |Replace(opts, ov)| && Replace(opts, ov)[i].opt == o ==>
      if o == ov.opt then Replace(opts, ov)[i] == ov else i < |opts| && Replace(opts, ov)[i] == opts[i]
  {
    hide Replace;
    ReplaceAt(opts, ov, IndexOf(opts, ov.opt));
  }

  lemma SecureReplace(d: Data, d1: Data, ov: OptVal)
    requires Secure(d) && !Repeats(ov.opt) && d1.options == Replace(d.options, ov)
    requires d1.sslMode == (if ov.opt == SSL_MODE then d1.sslMode else d.sslMode)
    requires ov.opt == SSL_MODE ==> ov.val == Num(d1.sslMode) && d1.sslMode != NO_MODE
    requires d1.sslCa == (d.sslCa || ov.opt == SSL_CA)
    requires d1.sslCa ==> Verifying(d1.sslMode) || d1.sslMode == NO_MODE
    ensures Secure(d1)
  {
    hide Replace;
    HasReplace(d.options, ov, SSL_CA);
    HasReplace(d.options, ov, SSL_MODE);
    ReplaceOnce(d.options, ov, SSL_MODE);
  }

  lemma SecureSet(st: State, ov: OptVal)
    requires Secure(st.data) && SetOption(st, ov).Ok?
    ensures Secure(SetOption(st, ov).value.data)
  {
    hide Secure, Replace, ModeOfName, AuthOfName, SetOption;
    SetEffect(st, ov);
    SecureMode(st.data);
    var d1 := SetOption(st, ov).value.data;
    if Repeats(ov.opt) {
      SecureAppend(st.data, d1, ov);
    } else {
      SecureReplace(st.data, d1, Norm(ov));
    }
  }

  lemma SecureMode(d: Data)
    requires Secure(d)
    ensures d.sslCa ==> Verifying(d.sslMode) || d.sslMode == NO_MODE
  {
  }

  lemma HasAppend(opts: seq<OptVal>, ov: OptVal, o: Opt)
    ensures Has(opts + [ov], o) <==> Has(opts, o) || ov.opt == o
  {
    assert (opts + [ov])[|opts|] == ov;
    if Has(opts, o) {
      var i :| 0 <= i < |opts| && opts[i].opt == o;
      assert (opts + [ov])[i].opt == o;
    }
    if i :| 0 <= i < |opts + [ov]| && (opts + [ov])[i].opt == o {
      assert i < |opts| ==> opts[i].opt == o;
    }
  }

  lemma {:induction false} HasWithout(opts: seq<OptVal>, x: Opt, o: Opt)
    ensures Has(Without(opts, x), o) <==> Has(opts, o) && o != x
    decreases |opts|
  {
    hide Has;
    if opts == [] {
      HasNothing(o);
    } else {
      var init, last := opts[..|opts| - 1], opts[|opts| - 1];
      HasWithout(init, x, o);
      assert opts == init + [last];
      HasAppend(init, last, o);
      if last.opt == x {
        assert Without(opts, x) == Without(init, x);
      } else {
        HasAppend(Without(init, x), last, o);
      }
    }
  }

  lemma HasNothing(o: Opt)
    ensures !Has([], o)
  {
  }

  /** What is left after an erasure was there before, and still at most once. */
  lemma {:induction false} WithoutKeeps(opts: seq<OptVal>, x: Opt, o: Opt)
    ensures forall v :: v in Without(opts, x) ==> v in opts
    ensures AtMostOnce(opts, o) ==> AtMostOnce(Without(opts, x), o)
    decreases |opts|
  {
    if opts != [] {
      var n := |opts| - 1;
      WithoutKeeps(opts[..n], x, o);
      var w := Without(opts[..n], x);
      assert forall v :: v in opts[..n] ==> v in opts;
      if AtMostOnce(opts, o) && opts[n].opt == o {
        forall i | 0 <= i < |w|
          ensures w[i].opt != o
        {
          assert w[i] in opts[..n];
          var j :| 0 <= j < n && opts[j] == w[i];
        }
      }
    }
  }

  lemma SecureErase(d: Data, x: Opt)
    requires Secure(d)
    ensures Secure(Erase(d, x))
  {
    hide Without;
    HasWithout(d.options, x, SSL_CA);
    HasWithout(d.options, x, SSL_MODE);
    WithoutKeeps(d.options, x, SSL_MODE);
    var w := Without(d.options, x);
    forall i | 0 <= i < |w| && w[i].opt == SSL_MODE
      ensures x != SSL_MODE && w[i].val == Num(d.sslMode)
    {
      assert Has(w, SSL_MODE) && w[i] in d.options;
    }
  }

  lemma {:induction false} SecureAll(d: Data, ops: seq<Op>)
    requires Secure(d) && ApplyAll(Start(d), ops).Ok?
    ensures Secure(ApplyAll(Start(d), ops).value.data)
    decreases |ops|
  {
    hide Secure, SetOption, Erase;
    if ops != [] {
      var n := |ops| - 1;
      SecureAll(d, ops[..n]);
      var st := ApplyAll(Start(d), ops[..n]).value;
      if ops[n].Set? {
        SecureSet(st, ops[n].ov);
      } else {
        SecureErase(st.data, ops[n].opt);
      }
    }
  }

  /** Every run, with or without unsetting, keeps the security options consistent. */
  lemma {:induction false} RunSecure(txs: seq<seq<Op>>)
    ensures Secure(Run(txs))
    decreases |txs|
  {
    hide ApplyAll;
    if txs != [] {
      var d, ops := Run(txs[..|txs| - 1]), txs[|txs| - 1];
      RunSecure(txs[..|txs| - 1]);
      if ApplyAll(Start(d), ops).Ok? {
        SecureAll(d, ops);
      }
    }
  }

  /** The numbers of modes and methods that the setter lets through. */
  predicate Numbered(ov: OptVal) {
    && (ov.opt == SSL_MODE ==> ov.val.Num? && ov.val.n < NO_MODE)
    && (ov.opt == AUTH ==> ov.val.Num? && ov.val.n < AUTH_LAST)
  }

  predicate AllNumbered(d: Data) {
    AtMostOnce(d.options, AUTH) && forall i :: 0 <= i < |d.options| ==> Numbered(d.options[i])
  }

  lemma SetNumbered(st: State, ov: OptVal)
    requires SetOption(st, ov).Ok?
    ensures Numbered(Norm(ov))
  {
    hide Replace, Upper;
  }

  lemma NumberedSet(st: State, ov: OptVal)
    requires AllNumbered(st.data) && SetOption(st, ov).Ok?
    ensures AllNumbered(SetOption(st, ov).value.data)
  {
    hide Replace, Numbered, SetOption;
    SetEffect(st, ov);
    SetNumbered(st, ov);
    var opts, v := st.data.options, Norm(ov);
    var opts1 := SetOption(st, ov).value.data.options;
    if Repeats(v.opt) {
      assert opts1 == opts + [v];
    } else {
      ReplaceOnce(opts, v, AUTH);
      ReplaceAt(opts, v, IndexOf(opts, v.opt));
    }
  }

  lemma NumberedErase(d: Data, x: Opt)
    requires AllNumbered(d)
    ensures AllNumbered(Erase(d, x))
  {
    hide Without, Numbered;
    WithoutKeeps(d.options, x, AUTH);
    var w := Without(d.options, x);
    forall i | 0 <= i < |w|
      ensures Numbered(w[i])
    {
      assert w[i] in d.options;
    }
  }

  lemma {:induction false} NumberedAll(d: Data, ops: seq<Op>)
    requires AllNumbered(d) && ApplyAll(Start(d), ops).Ok?
    ensures AllNumbered(ApplyAll(Start(d), ops).value.data)
    decreases |ops|
  {
    hide AllNumbered, SetOption, Erase;
    if ops != [] {
      var n := |ops| - 1;
      NumberedAll(d, ops[..n]);
      var st := ApplyAll(Start(d), ops[..n]).value;
      if ops[n].Set? {
        NumberedSet(st, ops[n].ov);
      } else {
        NumberedErase(st.data, ops[n].opt);
      }
    }
  }

  /** Every run commits modes and methods that have a number below the last, 0 among them. */
  lemma {:induction false} RunNumbered(txs: seq<seq<Op>>)
    ensures AllNumbered(Run(txs))
    decreases |txs|
  {
    hide ApplyAll;
    if txs != [] {
      var d, ops := Run(txs[..|txs| - 1]), txs[|txs| - 1];
      RunNumbered(txs[..|txs| - 1]);
      if ApplyAll(Start(d), ops).Ok? {
        NumberedAll(d, ops);
      }
    }
  }
}
