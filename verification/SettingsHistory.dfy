/** What the calls of all committed transactions leave set, and the connection options it leads to. */
module SettingsHistory {
  import opened Wrappers
  import opened Settings
  import opened SettingsShape
  import DataSource

  // Names of modes and methods

  const ModeNames := ["DISABLED", "REQUIRED", "VERIFY_CA", "VERIFY_IDENTITY"]

  const MethodNames := ["PLAIN", "MYSQL41", "EXTERNAL"]

  function Folded(c: char): char { if 'A' <= c <= 'Z' then (c as int + 32) as char else c }

  /** The same name, whatever the case of its letters. */
  predicate SameName(a: string, b: string) { |a| == |b| && forall i :: 0 <= i < |a| ==> Folded(a[i]) == Folded(b[i]) }

  /** The number of a name, counted from 1. */
  function NumberOf(names: seq<string>, s: string): Option<nat> {
    if names == [] then None
    else
      var n := |names| - 1;
      if SameName(s, names[n]) then Some(n + 1) else NumberOf(names[..n], s)
  }

  lemma {:induction false} UpperIsSame(s: string, name: string)
    requires forall i :: 0 <= i < |name| ==> !('a' <= name[i] <= 'z')
    ensures Upper(s) == name <==> SameName(s, name)
    decreases |s|
  {
    if s != [] && name != [] {
      UpperIsSame(s[1..], name[1..]);
      var u := Upper(s);
      assert u[0] == name[0] <==> Folded(s[0]) == Folded(name[0]);
      assert u == name <==> u[0] == name[0] && u[1..] == name[1..] by {
        assert u == [u[0]] + u[1..] && name == [name[0]] + name[1..];
      }
      if SameName(s[1..], name[1..]) && Folded(s[0]) == Folded(name[0]) {
        forall i | 0 <= i < |s|
          ensures Folded(s[i]) == Folded(name[i])
        {
          assert i > 0 ==> s[i] == s[1..][i - 1] && name[i] == name[1..][i - 1];
        }
      }
    }
  }

  function Stated(r: Result<nat>): Option<nat> { if r.Ok? then Some(r.value) else None }

  /** The setter takes exactly the names of the four modes and the three methods, in any case. */
  lemma NamesAreRead(s: string)
    ensures Stated(ModeOfName(s)) == NumberOf(ModeNames, s)
    ensures Stated(AuthOfName(s)) == NumberOf(MethodNames, s)
  {
    hide Upper, SameName, NumberOf;
    forall k | 0 <= k < |ModeNames|
      ensures Upper(s) == ModeNames[k] <==> SameName(s, ModeNames[k])
    {
      UpperIsSame(s, ModeNames[k]);
    }
    forall k | 0 <= k < |MethodNames|
      ensures Upper(s) == MethodNames[k] <==> SameName(s, MethodNames[k])
    {
      UpperIsSame(s, MethodNames[k]);
    }
    FourNames(s);
    ThreeNames(s);
    assert ModeNames[0] == "DISABLED" && ModeNames[1] == "REQUIRED" && ModeNames[2] == "VERIFY_CA";
    assert ModeNames[3] == "VERIFY_IDENTITY" && MethodNames[0] == "PLAIN";
    assert MethodNames[1] == "MYSQL41" && MethodNames[2] == "EXTERNAL";
  }

  lemma FourNames(s: string)
    ensures NumberOf(ModeNames, s) ==
      if SameName(s, "VERIFY_IDENTITY") then Some(4)
      else if SameName(s, "VERIFY_CA") then Some(3)
      else if SameName(s, "REQUIRED") then Some(2)
      else if SameName(s, "DISABLED") then Some(1)
      else None
  {
    hide SameName;
    var one, two, three := ["DISABLED"], ["DISABLED", "REQUIRED"], ["DISABLED", "REQUIRED", "VERIFY_CA"];
    assert one[..0] == [] && two[..1] == one && three[..2] == two && ModeNames[..3] == three;
    assert NumberOf(one, s) == if SameName(s, "DISABLED") then Some(1) else NumberOf([], s);
    assert NumberOf(two, s) == if SameName(s, "REQUIRED") then Some(2) else NumberOf(one, s);
    assert NumberOf(three, s) == if SameName(s, "VERIFY_CA") then Some(3) else NumberOf(two, s);
  }

  lemma ThreeNames(s: string)
    ensures NumberOf(MethodNames, s) ==
      if SameName(s, "EXTERNAL") then Some(3)
      else if SameName(s, "MYSQL41") then Some(2)
      else if SameName(s, "PLAIN") then Some(1)
      else None
  {
    hide SameName;
    var one, two := ["PLAIN"], ["PLAIN", "MYSQL41"];
    assert one[..0] == [] && two[..1] == one && MethodNames[..2] == two;
    assert NumberOf(one, s) == if SameName(s, "PLAIN") then Some(1) else NumberOf([], s);
    assert NumberOf(two, s) == if SameName(s, "MYSQL41") then Some(2) else NumberOf(one, s);
  }

  // What the calls set

  /** The value that a call sets: names of modes and methods stand for their numbers. */
  function Meant(ov: OptVal): Val {
    match ov.val
    case Num(_) => ov.val
    case Str(s) =>
      var n :=
        if ov.opt == SSL_MODE then NumberOf(ModeNames, s)
        else if ov.opt == AUTH then NumberOf(MethodNames, s)
        else None;
      if n.Some? then Num(n.value) else ov.val
  }

  lemma MeantIsNorm(ov: OptVal)
    ensures Norm(ov) == OptVal(ov.opt, Meant(ov))
  {
    hide NumberOf, ModeOfName, AuthOfName;
    if ov.val.Str? {
      NamesAreRead(ov.val.s);
    }
  }

  /** What a sequence of calls makes of the value of an option. */
  function After(ops: seq<Op>, o: Opt, was: Option<Val>): Option<Val> {
    if ops == [] then was
    else
      var v, op := After(ops[..|ops| - 1], o, was), ops[|ops| - 1];
      match op
      case Set(ov) => if ov.opt == o then Some(Meant(ov)) else v
      case Unset(x) => if x == o then None else v
  }

  predicate Commits(d: Data, ops: seq<Op>) {
    ApplyAll(Start(d), ops).Ok? && Commit(d, ApplyAll(Start(d), ops).value).Ok?
  }

  /** What the committed transactions of a run have left of an option: what was set last and has not
      been unset since. */
  function SetBy(txs: seq<seq<Op>>, o: Opt): Option<Val> {
    if txs == [] then None
    else
      var init, ops := txs[..|txs| - 1], txs[|txs| - 1];
      if Commits(Run(init), ops) then After(ops, o, SetBy(init, o)) else SetBy(init, o)
  }

  // The list of options remembers it

  function ValueIn(opts: seq<OptVal>, o: Opt): Option<Val> {
    if Has(opts, o) then Some(DataSource.Get(opts, o)) else None
  }

  predicate Singles(opts: seq<OptVal>) { forall o :: !Repeats(o) ==> AtMostOnce(opts, o) }

  lemma ValueIs(opts: seq<OptVal>, o: Opt, v: Val)
    requires AtMostOnce(opts, o) && OptVal(o, v) in opts
    ensures ValueIn(opts, o) == Some(v)
  {
    hide DataSource.Get;
    DataSource.GetOnly(opts, o, v);
  }

  /** Two lists with the same options of a kind have the same value of it. */
  lemma SameValue(a: seq<OptVal>, b: seq<OptVal>, o: Opt)
    requires AtMostOnce(a, o) && AtMostOnce(b, o) && forall v :: OptVal(o, v) in a <==> OptVal(o, v) in b
    ensures ValueIn(a, o) == ValueIn(b, o)
  {
    hide DataSource.Get;
    if Has(a, o) {
      HasToo(a, b, o);
    }
    if Has(b, o) {
      HasToo(b, a, o);
    }
    if Has(a, o) {
      var i :| 0 <= i < |a| && a[i].opt == o;
      assert a[i] == OptVal(o, a[i].val) && a[i] in a;
      ValueIs(a, o, a[i].val);
      ValueIs(b, o, a[i].val);
    }
  }

  lemma HasToo(a: seq<OptVal>, b: seq<OptVal>, o: Opt)
    requires Has(a, o) && forall v :: OptVal(o, v) in a ==> OptVal(o, v) in b
    ensures Has(b, o)
  {
    var i :| 0 <= i < |a| && a[i].opt == o;
    assert a[i] == OptVal(o, a[i].val) && a[i] in a;
    var j :| 0 <= j < |b| && b[j] == a[i];
    assert b[j].opt == o;
  }

  lemma ValueAppended(opts: seq<OptVal>, ov: OptVal, o: Opt)
    requires Singles(opts) && Repeats(ov.opt) && !Repeats(o)
    ensures AtMostOnce(opts + [ov], o) && ValueIn(opts + [ov], o) == ValueIn(opts, o)
  {
    hide ValueIn;
    SameValue(opts + [ov], opts, o);
  }

  lemma ValueReplaced(opts: seq<OptVal>, ov: OptVal, o: Opt)
    requires Singles(opts) && !Repeats(ov.opt) && !Repeats(o)
    ensures AtMostOnce(Replace(opts, ov), o)
    ensures ValueIn(Replace(opts, ov), o) == if o == ov.opt then Some(ov.val) else ValueIn(opts, o)
  {
    hide ValueIn, Replace;
    var r, k := Replace(opts, ov), IndexOf(opts, ov.opt);
    ReplaceOnce(opts, ov, o);
    ReplaceAt(opts, ov, k);
    if o == ov.opt {
      assert r[k] in r;
      ValueIs(r, o, ov.val);
    } else {
      forall v
        ensures OptVal(o, v) in opts <==> OptVal(o, v) in r
      {
        if i :| 0 <= i < |opts| && opts[i] == OptVal(o, v) {
          assert i != k && r[i] == opts[i];
        }
      }
      SameValue(opts, r, o);
    }
  }

  lemma {:induction false} InWithout(opts: seq<OptVal>, x: Opt, v: OptVal)
    ensures v in Without(opts, x) <==> v in opts && v.opt != x
    decreases |opts|
  {
    if opts != [] {
      var n := |opts| - 1;
      InWithout(opts[..n], x, v);
      assert opts == opts[..n] + [opts[n]];
    }
  }

  lemma ValueErased(opts: seq<OptVal>, x: Opt, o: Opt)
    requires Singles(opts) && !Repeats(o)
    ensures AtMostOnce(Without(opts, x), o)
    ensures ValueIn(Without(opts, x), o) == if o == x then None else ValueIn(opts, o)
  {
    hide Without;
    WithoutKeeps(opts, x, o);
    if o == x {
      HasWithout(opts, x, o);
    } else {
      forall v
        ensures OptVal(o, v) in opts <==> OptVal(o, v) in Without(opts, x)
      {
        InWithout(opts, x, OptVal(o, v));
      }
      SameValue(Without(opts, x), opts, o);
    }
  }

  lemma SetRemembers(st: State, ov: OptVal, o: Opt)
    requires Singles(st.data.options) && SetOption(st, ov).Ok? && !Repeats(o)
    ensures
      var opts := SetOption(st, ov).value.data.options;
      AtMostOnce(opts, o) && ValueIn(opts, o) == if ov.opt == o then Some(Meant(ov)) else ValueIn(st.data.options, o)
  {
    hide SetOption, Replace, Meant, ValueIn, Norm, Singles, AtMostOnce;
    SetEffect(st, ov);
    MeantIsNorm(ov);
    if Repeats(ov.opt) {
      ValueAppended(st.data.options, Norm(ov), o);
    } else {
      ValueReplaced(st.data.options, Norm(ov), o);
    }
  }

  lemma {:induction false} CallsRemember(st: State, ops: seq<Op>, o: Opt)
    requires Singles(st.data.options) && ApplyAll(st, ops).Ok? && !Repeats(o)
    ensures
      var opts := ApplyAll(st, ops).value.data.options;
      AtMostOnce(opts, o) && ValueIn(opts, o) == After(ops, o, ValueIn(st.data.options, o))
    decreases |ops|
  {
    hide SetOption, Without, Meant, ValueIn, AtMostOnce;
    if ops != [] {
      var n := |ops| - 1;
      forall p | !Repeats(p)
        ensures
          var opts := ApplyAll(st, ops[..n]).value.data.options;
          AtMostOnce(opts, p) && ValueIn(opts, p) == After(ops[..n], p, ValueIn(st.data.options, p))
      {
        CallsRemember(st, ops[..n], p);
      }
      var mid := ApplyAll(st, ops[..n]).value;
      match ops[n] {
        case Set(ov) => SetRemembers(mid, ov, o);
        case Unset(x) => ValueErased(mid.data.options, x, o);
      }
    }
  }

  /** After every run the list holds, of every option that can be set once, exactly what the committed
      transactions have left of it. */
  lemma {:induction false} RunRemembers(txs: seq<seq<Op>>, o: Opt)
    requires !Repeats(o)
    ensures AtMostOnce(Run(txs).options, o) && ValueIn(Run(txs).options, o) == SetBy(txs, o)
    decreases |txs|
  {
    hide ApplyAll, ValueIn, AtMostOnce, After;
    if txs == [] {
      NothingSet(o);
    } else {
      var init, ops := txs[..|txs| - 1], txs[|txs| - 1];
      forall p | !Repeats(p)
        ensures AtMostOnce(Run(init).options, p) && ValueIn(Run(init).options, p) == SetBy(init, p)
      {
        RunRemembers(init, p);
      }
      if ApplyAll(Start(Run(init)), ops).Ok? {
        CallsRemember(Start(Run(init)), ops, o);
      }
    }
  }

  lemma NothingSet(o: Opt)
    ensures AtMostOnce(EMPTY.options, o) && ValueIn(EMPTY.options, o) == None
  {
  }

  // The connection options

  function Number(v: Val): nat { if v.Num? then v.n else 0 }

  function Words(v: Val): string { if v.Str? then v.s else "" }

  /** The mode that was set last, VERIFY_CA if only an authority is set, and REQUIRED if neither is. */
  function ModeBy(txs: seq<seq<Op>>): nat {
    match SetBy(txs, SSL_MODE)
    case Some(v) => Number(v)
    case None => if SetBy(txs, SSL_CA).Some? then VERIFY_CA else REQUIRED
  }

  /** After any run, the options throw exactly if no user is set, or if they are for a single socket and
      a mode of at least REQUIRED was set or follows from an authority. If they do not, and no mode or
      method is 0, they are what was set last, with an encrypted session if no mode was set, and PLAIN
      is the method that is taken by default exactly on sockets and encrypted sessions. */
  lemma OptionsOfRun(txs: seq<seq<Op>>, socket: bool)
    ensures
      var r, mode := DataSource.PrepareOptions(Run(txs), socket), ModeBy(txs);
      var explicit := SetBy(txs, SSL_MODE).Some? || SetBy(txs, SSL_CA).Some?;
      && (r.Thrown? <==> SetBy(txs, USER).None? || (socket && explicit && mode >= REQUIRED))
      && (r.Fine? ==>
            && Some(r.val.user) == TextBy(txs, USER)
            && r.val.password == TextBy(txs, PWD) && r.val.database == TextBy(txs, DB)
            && r.val.mode == mode
            && r.val.ca ==
               (if mode != DISABLED && SetBy(txs, SSL_CA).Some? then Words(SetBy(txs, SSL_CA).value) else "")
            && (match SetBy(txs, AUTH)
                case Some(v) => r.val.auth == Number(v)
                case None => 1 <= r.val.auth <= 3 && MethodNames[r.val.auth - 1] ==
                               if socket || mode != DISABLED then "PLAIN" else "MYSQL41"))
  {
    hide Run, SetBy, DataSource.Get, Has;
    forall o | o in {USER, PWD, DB, SSL_MODE, SSL_CA, AUTH}
      ensures ValueIn(Run(txs).options, o) == SetBy(txs, o)
    {
      RunRemembers(txs, o);
    }
  }

  function TextBy(txs: seq<seq<Op>>, o: Opt): Option<string> {
    match SetBy(txs, o)
    case Some(v) => Some(Words(v))
    case None => None
  }

  // Which calls are accepted

  predicate Sets(ops: seq<Op>, o: Opt) { exists i :: 0 <= i < |ops| && ops[i].Set? && ops[i].ov.opt == o }

  /** The option that was set last. */
  function LastSet(ops: seq<Op>): LastOpt {
    if ops == [] then Nothing
    else
      match ops[|ops| - 1]
      case Set(ov) => SetTo(ov.opt)
      case Unset(_) => LastSet(ops[..|ops| - 1])
  }

  /** The option was set since the last HOST or SOCKET, or at all if there is none. */
  predicate Since(ops: seq<Op>, o: Opt) {
    if ops == [] then false
    else
      match ops[|ops| - 1]
      case Set(ov) => ov.opt == o || (ov.opt != HOST && ov.opt != SOCKET && Since(ops[..|ops| - 1], o))
      case Unset(_) => Since(ops[..|ops| - 1], o)
  }

  function HostsSet(ops: seq<Op>): nat {
    if ops == [] then 0
    else
      HostsSet(ops[..|ops| - 1])
      + match ops[|ops| - 1]
        case Set(ov) => if ov.opt == HOST || ov.opt == SOCKET then 1 else 0
        case Unset(_) => 0
  }

  lemma SetsStep(ops: seq<Op>, o: Opt)
    requires ops != []
    ensures
      var last := ops[|ops| - 1];
      Sets(ops, o) <==> Sets(ops[..|ops| - 1], o) || (last.Set? && last.ov.opt == o)
  {
    var n := |ops| - 1;
    if Sets(ops[..n], o) {
      var i :| 0 <= i < n && ops[..n][i].Set? && ops[..n][i].ov.opt == o;
      assert ops[i].Set? && ops[i].ov.opt == o;
    }
    if i :| 0 <= i < |ops| && ops[i].Set? && ops[i].ov.opt == o {
      assert i < n ==> ops[..n][i] == ops[i];
    }
  }

  /** What a call does to the flags of the setter. */
  lemma FlagStep(st: State, ov: OptVal)
    requires SetOption(st, ov).Ok?
    ensures
      var st1, o := SetOption(st, ov).value, ov.opt;
      var host := o == HOST || o == SOCKET;
      && st1.prev == SetTo(o) && st1.host == (st.host || host)
      && st1.socket == (if host then o == SOCKET else st.socket)
      && st1.port == (o == PORT || (!host && st.port)) && st1.prio == (o == PRIORITY || (!host && st.prio))
      && st1.optSet == (if Repeats(o) then st.optSet else st.optSet + {o})
  {
    hide ModeOfName, AuthOfName, Replace;
    match ov.opt
    case HOST =>
    case SOCKET =>
    case PORT =>
    case PRIORITY =>
    case USER =>
    case PWD =>
    case DB =>
    case SSL_MODE =>
    case SSL_CA =>
    case AUTH =>
  }

  /** The flags of the setter tell of the calls of its transaction. */
  ghost predicate Flagged(d: Data, ops: seq<Op>, st: State) {
    && st.prev == LastSet(ops) && st.host == (Sets(ops, HOST) || Sets(ops, SOCKET)) && st.socket == Since(ops, SOCKET)
    && st.port == Since(ops, PORT) && st.prio == Since(ops, PRIORITY)
    && (forall o :: o in st.optSet <==> !Repeats(o) && Sets(ops, o))
    && st.data.hostCnt == d.hostCnt + HostsSet(ops)
    && st.data.userPriorities == (d.userPriorities || Sets(ops, PRIORITY))
    && st.data.tcpip == (d.tcpip || Sets(ops, HOST) || Sets(ops, PORT))
  }

  lemma FlaggedSet(d: Data, ops: seq<Op>, mid: State)
    requires ops != [] && ops[|ops| - 1].Set? && Flagged(d, ops[..|ops| - 1], mid)
    requires SetOption(mid, ops[|ops| - 1].ov).Ok?
    ensures Flagged(d, ops, SetOption(mid, ops[|ops| - 1].ov).value)
  {
    hide SetOption, Sets, Replace, Norm, Meant;
    var n := |ops| - 1;
    forall o
      ensures Sets(ops, o) <==> Sets(ops[..n], o) || ops[n].ov.opt == o
    {
      SetsStep(ops, o);
    }
    FlagStep(mid, ops[n].ov);
    SetEffect(mid, ops[n].ov);
    MeantIsNorm(ops[n].ov);
  }

  lemma FlaggedUnset(d: Data, ops: seq<Op>, mid: State)
    requires ops != [] && ops[|ops| - 1].Unset? && Flagged(d, ops[..|ops| - 1], mid) && Apply(mid, ops[|ops| - 1]).Ok?
    ensures Flagged(d, ops, Apply(mid, ops[|ops| - 1]).value)
  {
    hide Sets, Without;
    forall o
      ensures Sets(ops, o) <==> Sets(ops[..|ops| - 1], o)
    {
      SetsStep(ops, o);
    }
  }

  lemma {:induction false} FlagsOf(d: Data, ops: seq<Op>)
    requires ApplyAll(Start(d), ops).Ok?
    ensures Flagged(d, ops, ApplyAll(Start(d), ops).value)
    decreases |ops|
  {
    hide SetOption, Flagged, Erase;
    if ops == [] {
      FlaggedStart(d);
    } else {
      var n := |ops| - 1;
      FlagsOf(d, ops[..n]);
      var mid := ApplyAll(Start(d), ops[..n]).value;
      if ops[n].Set? {
        FlaggedSet(d, ops, mid);
      } else {
        FlaggedUnset(d, ops, mid);
      }
    }
  }

  lemma FlaggedStart(d: Data)
    ensures Flagged(d, [], Start(d))
  {
    hide Sets;
    NothingIsSet();
  }

  lemma NothingIsSet()
    ensures forall o :: !Sets([], o)
  {
  }

  /** The number that a mode or a method is given by. */
  function Given(names: seq<string>, v: Val): Option<nat> {
    match v
    case Num(n) => if n <= |names| then Some(n) else None
    case Str(s) => NumberOf(names, s)
  }

  /** The next call of a transaction is accepted exactly under these conditions, and the calls that come
      before it are all that they depend on besides the settings. */
  predicate Accepts(d: Data, ops: seq<Op>, ov: OptVal, sslCa: bool, sslMode: nat) {
    var hosts := d.hostCnt + HostsSet(ops);
    var priorities := d.userPriorities || Sets(ops, PRIORITY);
    var missing := priorities && (Sets(ops, HOST) || Sets(ops, SOCKET)) && !Since(ops, PRIORITY);
    match ov.opt
    case HOST => ov.val.Str? && !missing && !(hosts == 0 && Since(ops, PORT))
    case SOCKET => ov.val.Str? && !missing
    case PORT =>
      && ov.val.Num? && ov.val.n <= 65535 && !Since(ops, PORT) && !Since(ops, PRIORITY) && !Since(ops, SOCKET)
      && (hosts == 0 || LastSet(ops) == SetTo(HOST))
    case PRIORITY =>
      && ov.val.Num? && ov.val.n <= 100 && !Since(ops, PRIORITY) && (Sets(ops, HOST) || Sets(ops, SOCKET))
      && LastSet(ops) in {SetTo(HOST), SetTo(PORT), SetTo(SOCKET)} && (hosts <= 1 || priorities)
    case SSL_MODE =>
      var n := Given(ModeNames, ov.val);
      n.Some? && !Sets(ops, SSL_MODE) && (sslCa ==> n.value == 3 || n.value == 4)
    case SSL_CA => ov.val.Str? && !Sets(ops, SSL_CA) && sslMode in {3, 4, NO_MODE}
    case AUTH => Given(MethodNames, ov.val).Some? && !Sets(ops, AUTH)
    case _ => ov.val.Str? && !Sets(ops, ov.opt)
  }

  lemma NextIsAccepted(d: Data, ops: seq<Op>, ov: OptVal)
    requires ApplyAll(Start(d), ops).Ok?
    ensures
      var st := ApplyAll(Start(d), ops).value;
      SetOption(st, ov).Ok? <==> Accepts(d, ops, ov, st.data.sslCa, st.data.sslMode)
  {
    hide ApplyAll, ModeOfName, AuthOfName, NumberOf, Sets, Since, HostsSet, LastSet;
    FlagsOf(d, ops);
    if ov.val.Str? {
      NamesAreRead(ov.val.s);
      NumberIsSmall(ModeNames, ov.val.s);
      NumberIsSmall(MethodNames, ov.val.s);
    }
  }

  lemma {:induction false} NumberIsSmall(names: seq<string>, s: string)
    ensures NumberOf(names, s).Some? ==> 1 <= NumberOf(names, s).value <= |names|
    decreases |names|
  {
    hide SameName;
    if names != [] {
      NumberIsSmall(names[..|names| - 1], s);
    }
  }

  /** A transaction whose calls were accepted is committed unless the settings before it are a bare PORT
      alone, or priorities are used and the last host has none. */
  lemma CommitsExactly(d: Data, ops: seq<Op>)
    requires ApplyAll(Start(d), ops).Ok?
    ensures Commits(d, ops) <==>
      && !(d.tcpip && d.hostCnt == 0)
      && (d.userPriorities || Sets(ops, PRIORITY) ==> Since(ops, PRIORITY))
  {
    hide ApplyAll, Sets, Since, HostsSet, LastSet;
    FlagsOf(d, ops);
  }

  /** Erasing an option takes exactly its values out of the list, and of the rest of the settings only
      what goes with it. */
  lemma ErasedExactly(d: Data, o: Opt, v: OptVal)
    ensures
      var e := Erase(d, o);
      && (v in e.options <==> v in d.options && v.opt != o)
      && e.hostCnt == (if o == HOST then 0 else d.hostCnt)
      && e.userPriorities == (o != PRIORITY && d.userPriorities)
      && e.sslCa == (o != SSL_CA && d.sslCa) && e.sslMode == (if o == SSL_MODE then NO_MODE else d.sslMode)
      && e.sock == (o != SOCKET && d.sock)
      && e.tcpip == (d.tcpip && o != HOST && (o == PORT ==> d.hostCnt != 0))
  {
    hide Without;
    InWithout(d.options, o, v);
  }
}
