/** Session settings: the options a setter collects in a transaction and commits. */
module Settings {

  datatype Opt = HOST | SOCKET | PORT | PRIORITY | USER | PWD | DB | SSL_MODE | SSL_CA | AUTH

  datatype Val = Str(s: string) | Num(n: nat)

  datatype OptVal = OptVal(opt: Opt, val: Val)

  datatype Result<+T> = Ok(value: T) | Error {
    predicate IsFailure() { Error? }

    function PropagateFailure<U>(): Result<U>
      requires Error?
    {
      Error
    }

    function Extract(): T
      requires Ok?
    {
      value
    }
  }

  // SSL modes and authentication methods, numbered from 1

  const DISABLED := 1
  const REQUIRED := 2
  const VERIFY_CA := 3
  const VERIFY_IDENTITY := 4
  const NO_MODE := 5
  const AUTH_LAST := 4
  const UINT_MAX := 0xFFFF_FFFF

  function Upper(s: string): string {
    if s == [] then [] else [if 'a' <= s[0] <= 'z' then (s[0] as int - 32) as char else s[0]] + Upper(s[1..])
  }

  function ModeOfName(s: string): Result<nat> {
    var u := Upper(s);
    if u == "DISABLED" then Ok(DISABLED)
    else if u == "REQUIRED" then Ok(REQUIRED)
    else if u == "VERIFY_CA" then Ok(VERIFY_CA)
    else if u == "VERIFY_IDENTITY" then Ok(VERIFY_IDENTITY)
    else Error
  }

  function AuthOfName(s: string): Result<nat> {
    var u := Upper(s);
    if u == "PLAIN" then Ok(1) else if u == "MYSQL41" then Ok(2) else if u == "EXTERNAL" then Ok(3) else Error
  }

  predicate Verifying(mode: nat) { mode == VERIFY_CA || mode == VERIFY_IDENTITY }

  // Settings data and the state of a setter

  datatype Data = Data(
    options: seq<OptVal>, hostCnt: nat, userPriorities: bool,
    sslCa: bool, sslMode: nat, tcpip: bool, sock: bool)

  const EMPTY := Data([], 0, false, false, NO_MODE, false, false)

  datatype State = State(
    data: Data, host: bool, port: bool, socket: bool, prio: bool,
    optSet: set<Opt>, prev: LastOpt)

  /** The option set last, if any. */
  datatype LastOpt = Nothing | SetTo(opt: Opt)

  function Start(data: Data): State { State(data, false, false, false, false, {}, Nothing) }

  predicate Repeats(o: Opt) { o in {HOST, SOCKET, PORT, PRIORITY} }

  function Last(opts: seq<OptVal>, o: Opt): Result<Val> {
    if opts == [] then Error
    else if opts[|opts| - 1].opt == o then Ok(opts[|opts| - 1].val)
    else Last(opts[..|opts| - 1], o)
  }

  predicate Has(opts: seq<OptVal>, o: Opt) { exists i :: 0 <= i < |opts| && opts[i].opt == o }

  /** Position of the first occurrence, or the length. */
  function IndexOf(opts: seq<OptVal>, o: Opt): (i: nat)
    ensures i <= |opts|
    ensures i < |opts| ==> opts[i].opt == o
    ensures forall j :: 0 <= j < i ==> opts[j].opt != o
  {
    if opts == [] || opts[0].opt == o then 0 else 1 + IndexOf(opts[1..], o)
  }

  /** Replaces the first occurrence of an option or appends it. */
  function Replace(opts: seq<OptVal>, ov: OptVal): seq<OptVal> {
    var i := IndexOf(opts, ov.opt);
    if i < |opts| then opts[i := ov] else opts + [ov]
  }

  function AddOption(st: State, ov: OptVal): Result<State> {
    var opts := st.data.options;
    if Repeats(ov.opt) then Ok(st.(data := st.data.(options := opts + [ov]), prev := SetTo(ov.opt)))
    else if ov.opt in st.optSet then Error
    else
      Ok(st.(data := st.data.(options := Replace(opts, ov)), optSet := st.optSet + {ov.opt}, prev := SetTo(ov.opt)))
  }

  // Options that build the list of hosts

  function SetHost(st: State, v: string): Result<State> {
    if st.data.hostCnt == 0 && st.port then Error
    else if st.data.userPriorities && st.host && !st.prio then Error
    else
      AddOption(st.(host := true, port := false, socket := false, prio := false,
                    data := st.data.(hostCnt := st.data.hostCnt + 1, tcpip := true)), OptVal(HOST, Str(v)))
  }

  function SetSocket(st: State, v: string): Result<State> {
    if st.data.userPriorities && st.host && !st.prio then Error
    else
      AddOption(st.(host := true, port := false, socket := true, prio := false,
                    data := st.data.(hostCnt := st.data.hostCnt + 1, sock := true)), OptVal(SOCKET, Str(v)))
  }

  function SetPort(st: State, v: nat): Result<State> {
    if st.port then Error
    else if 0 < st.data.hostCnt && st.prev != SetTo(HOST) then Error
    else if st.socket || st.prio || v > 65535 then Error
    else AddOption(st.(port := true, data := st.data.(tcpip := true)), OptVal(PORT, Num(v)))
  }

  function SetPriority(st: State, v: nat): Result<State> {
    if st.prev !in {SetTo(HOST), SetTo(PORT), SetTo(SOCKET)} then Error
    else if st.prio || !st.host then Error
    else if 1 < st.data.hostCnt && !st.data.userPriorities then Error
    else if v > 100 then Error
    else AddOption(st.(prio := true, data := st.data.(userPriorities := true)), OptVal(PRIORITY, Num(v)))
  }

  // Security options

  function SetSslMode(st: State, v: nat): Result<State> {
    if v >= NO_MODE then Error
    else if !Verifying(v) && st.data.sslCa then Error
    else AddOption(st.(data := st.data.(sslMode := v)), OptVal(SSL_MODE, Num(v)))
  }

  function SetSslCa(st: State, v: string): Result<State> {
    if !Verifying(st.data.sslMode) && st.data.sslMode != NO_MODE then Error
    else AddOption(st.(data := st.data.(sslCa := true)), OptVal(SSL_CA, Str(v)))
  }

  function SetAuth(st: State, v: nat): Result<State> {
    if v >= AUTH_LAST then Error else AddOption(st, OptVal(AUTH, Num(v)))
  }

  // One call of the setter

  datatype Op = Set(ov: OptVal) | Unset(opt: Opt)

  function SetOption(st: State, ov: OptVal): Result<State> {
    match ov.val
    case Str(s) => SetString(st, ov.opt, s)
    case Num(n) => if n > UINT_MAX then Error else SetNumber(st, ov.opt, n)
  }

  function SetString(st: State, o: Opt, s: string): Result<State> {
    match o
    case HOST => SetHost(st, s)
    case SOCKET => SetSocket(st, s)
    case USER => AddOption(st, OptVal(o, Str(s)))
    case PWD => AddOption(st, OptVal(o, Str(s)))
    case DB => AddOption(st, OptVal(o, Str(s)))
    case SSL_MODE => var v :- ModeOfName(s); SetSslMode(st, v)
    case SSL_CA => SetSslCa(st, s)
    case AUTH => var v :- AuthOfName(s); SetAuth(st, v)
    case PORT => Error
    case PRIORITY => Error
  }

  function SetNumber(st: State, o: Opt, n: nat): Result<State> {
    match o
    case PORT => SetPort(st, n)
    case PRIORITY => SetPriority(st, n)
    case SSL_MODE => SetSslMode(st, n)
    case AUTH => SetAuth(st, n)
    case _ => Error
  }

  function Without(opts: seq<OptVal>, o: Opt): seq<OptVal> {
    if opts == [] then []
    else Without(opts[..|opts| - 1], o) + (if opts[|opts| - 1].opt == o then [] else [opts[|opts| - 1]])
  }

  function Erase(d: Data, o: Opt): Data {
    var e := d.(options := Without(d.options, o));
    match o
    case HOST => e.(hostCnt := 0, tcpip := false)
    case PORT => e.(tcpip := d.tcpip && d.hostCnt != 0)
    case SOCKET => e.(sock := false)
    case PRIORITY => e.(userPriorities := false)
    case SSL_CA => e.(sslCa := false)
    case SSL_MODE => e.(sslMode := NO_MODE)
    case _ => e
  }

  /** Unsetting through the setter is refused for the options that may not go missing. */
  function Apply(st: State, op: Op): Result<State> {
    match op
    case Set(ov) => SetOption(st, ov)
    case Unset(o) =>
      if o in {HOST, PORT, PRIORITY, USER} then Error else Ok(st.(data := Erase(st.data, o)))
  }

  function ApplyAll(st: State, ops: seq<Op>): Result<State> {
    if ops == [] then Ok(st)
    else
      var st1 :- ApplyAll(st, ops[..|ops| - 1]);
      Apply(st1, ops[|ops| - 1])
  }

  function Commit(committed: Data, st: State): Result<Data> {
    if st.data.tcpip && committed.tcpip && committed.hostCnt == 0 then Error
    else if st.data.userPriorities && !st.prio then Error
    else Ok(st.data)
  }

  /** A transaction changes the settings only if all of it succeeds. */
  function Transaction(d: Data, ops: seq<Op>): Data {
    match ApplyAll(Start(d), ops)
    case Error => d
    case Ok(st) => (match Commit(d, st) case Error => d case Ok(e) => e)
  }

  function Run(txs: seq<seq<Op>>): Data {
    if txs == [] then EMPTY else Transaction(Run(txs[..|txs| - 1]), txs[|txs| - 1])
  }
}
