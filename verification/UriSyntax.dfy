/** Connection strings: their tokens and the grammar the parser accepts. */
module UriSyntax {

  import opened Wrappers
  import E = ExprSyntax

  /** A character, which may have been written as %XX; `Bad` is where reading fails. */
  datatype Tok = Tok(c: char, pct: bool) | Bad

  datatype Kind = Letter | Digit | Punct(c: char) | Invalid

  predicate IsAlpha(c: char) { 'a' <= c <= 'z' || 'A' <= c <= 'Z' }

  const Unreserved: string := "-._~\\!$&'*+;="

  const GenDelims: string := ":/?@[]"

  /** A character written as %XX is never special. */
  function KindOf(t: Tok): Kind {
    match t
    case Bad => Invalid
    case Tok(c, pct) =>
      if pct || IsAlpha(c) then Letter
      else if '0' <= c <= '9' then Digit
      else if c in Unreserved || c in GenDelims || c in "()," then Punct(c)
      else Invalid
  }

  // Reading tokens

  function HexDigit(c: char): Option<nat> {
    if '0' <= c <= '9' then Some((c - '0') as nat)
    else if 'a' <= c <= 'f' then Some(10 + (c - 'a') as nat)
    else if 'A' <= c <= 'F' then Some(10 + (c - 'A') as nat)
    else None
  }

  predicate IsSpace(c: char) { c == ' ' || '\t' <= c <= '\r' }

  /** The two characters after a percent sign, as strtol reads them: a blank or a sign may stand
      for the first digit. */
  function PctValue(a: char, b: char): (v: Option<nat>)
    ensures v.Some? ==> v.value < 256
  {
    var high, low := HexDigit(a), HexDigit(b);
    if low.None? then None
    else if high.Some? then Some(16 * high.value + low.value)
    else if IsSpace(a) || a == '+' || (a == '-' && low.value == 0) then low
    else None
  }

  /** The first token and the position after it. */
  function FirstTok(s: string): (r: (Tok, nat))
    requires s != ""
    ensures r.0 != Bad ==> 1 <= r.1 <= |s| && KindOf(r.0) != Invalid
  {
    if s[0] == '%' then
      if |s| >= 3 && PctValue(s[1], s[2]).Some? then (Tok(PctValue(s[1], s[2]).value as char, true), 3) else (Bad, 0)
    else if KindOf(Tok(s[0], false)) == Invalid then (Bad, 0)
    else (Tok(s[0], false), 1)
  }

  function Lex(s: string): seq<Tok> {
    if s == "" then []
    else
      var (t, n) := FirstTok(s);
      if t == Bad then [Bad] else [t] + Lex(s[n..])
  }

  // Sets of tokens

  datatype Set = UserChars | PasswordChars | HostChars | DbChars | NpChars | Digits | UntilEq | UntilAmp | UntilComma

  predicate In(t: Tok, s: Set) {
    var k := KindOf(t);
    var plain := k == Letter || k == Digit || (k.Punct? && k.c in Unreserved);
    match s
    case UserChars => plain || (k.Punct? && k.c in "(),")
    case PasswordChars => plain || (k.Punct? && k.c in "(),:")
    case HostChars => plain || (k.Punct? && k.c in "()@")
    case DbChars => plain || (k.Punct? && k.c in "(),[]:@")
    case NpChars => plain || (k.Punct? && (k.c in GenDelims || k.c == ','))
    case Digits => k == Digit
    case UntilEq => k != Punct('=') && k != Punct('&')
    case UntilAmp => k != Punct('&')
    case UntilComma => k != Punct(',') && k != Punct(']')
  }

  // The grammar. `No` leaves the input untouched, `Err` is an exception.

  datatype Res<T> = Ok(v: T, rest: seq<Tok>) | No | Err

  predicate HeadIs(ts: seq<Tok>, c: char) { ts != [] && KindOf(ts[0]) == Punct(c) }

  /** The next token cannot be read. */
  predicate Broken(ts: seq<Tok>) { ts != [] && ts[0] == Bad }

  function One(ts: seq<Tok>, c: char): (r: Res<()>)
    ensures r.Ok? ==> |r.rest| < |ts| && !Broken(r.rest)
  {
    if !HeadIs(ts, c) then No else if Broken(ts[1..]) then Err else Ok((), ts[1..])
  }

  function Many(ts: seq<Tok>, s: Set): (r: Res<string>)
    ensures r.Ok? ==> |r.rest| <= |ts| && (!Broken(ts) ==> !Broken(r.rest))
    ensures r.Ok? && r.v != "" ==> |r.rest| < |ts|
    ensures !r.No?
  {
    if ts == [] || ts[0] == Bad || !In(ts[0], s) then Ok("", ts)
    else if Broken(ts[1..]) then Err
    else
      match Many(ts[1..], s)
      case Ok(v, rest) => Ok([ts[0].c] + v, rest)
      case _ => Err
  }

  /** Letters compare without case, and also if they were written as %XX. */
  predicate SameLetter(t: Tok, c: char) { t.Tok? && E.Lower([t.c]) == E.Lower([c]) }

  function Word(ts: seq<Tok>, w: string): (r: Res<()>)
    ensures r.Ok? ==> |r.rest| <= |ts| && (!Broken(ts) ==> !Broken(r.rest))
  {
    if w == "" then Ok((), ts)
    else if ts == [] || !SameLetter(ts[0], w[0]) then No
    else if Broken(ts[1..]) then Err
    else Word(ts[1..], w[1..])
  }

  datatype Cred = Cred(user: string, password: Option<string>)

  function Password(ts: seq<Tok>): (r: Res<Option<string>>)
    ensures r.Ok? ==> |r.rest| <= |ts| && (!Broken(ts) ==> !Broken(r.rest))
    ensures !r.No?
  {
    match One(ts, ':')
    case No => Ok(None, ts)
    case Err => Err
    case Ok(_, r) =>
      match Many(r, PasswordChars)
      case Ok(p, r1) => Ok(Some(p), r1)
      case _ => Err
  }

  function UserInfo(ts: seq<Tok>): (r: Res<Cred>)
    ensures r.Ok? ==> |r.rest| < |ts| && !Broken(r.rest)
  {
    match Many(ts, UserChars)
    case No => No
    case Err => Err
    case Ok(user, r) =>
      if user == "" then No
      else
        match Password(r)
        case No => No
        case Err => Err
        case Ok(p, r1) =>
          match One(r1, '@')
          case No => No
          case Err => Err
          case Ok(_, r2) => Ok(Cred(user, p), r2)
  }

  datatype Addr = Addr(host: string, port: string)

  predicate IsHexLetter(c: char) { 'A' <= c <= 'F' || 'a' <= c <= 'f' }

  predicate InV6(t: Tok) { KindOf(t) == Letter || KindOf(t) == Digit || KindOf(t) == Punct(':') }

  /** Between square brackets: any hexadecimal digits and colons. */
  function V6(ts: seq<Tok>, addr: string): (r: Res<string>)
    ensures r.Ok? ==> |r.rest| < |ts| && !Broken(r.rest)
  {
    if ts != [] && InV6(ts[0]) then
      if Broken(ts[1..]) then Err
      else if ts[0].pct || (KindOf(ts[0]) == Letter && !IsHexLetter(ts[0].c)) then No
      else V6(ts[1..], addr + [ts[0].c])
    else if addr == "" then No
    else
      match One(ts, ']')
      case No => No
      case Err => Err
      case Ok(_, r) => Ok(addr, r)
  }

  /** Up to four groups of digits. A dot that no digit follows is lost. */
  function Groups(ts: seq<Tok>, count: nat, addr: string): (r: Res<(nat, string)>)
    requires count < 4
    ensures r.Ok? ==> |r.rest| <= |ts| && r.v.0 <= 4 && (!Broken(ts) ==> !Broken(r.rest))
    ensures !r.No?
    decreases 4 - count
  {
    if ts == [] || KindOf(ts[0]) != Digit then Ok((count, addr), ts)
    else
      match Many(ts, Digits)
      case No => Err
      case Err => Err
      case Ok(ds, r) =>
        var addr1 := addr + (if count > 0 then "." else "") + ds;
        if count == 3 then Ok((4, addr1), r)
        else
          match One(r, '.')
          case No => Ok((count + 1, addr1), r)
          case Err => Err
          case Ok(_, r1) => Groups(r1, count + 1, addr1)
  }

  /** Four groups, or any host that a colon follows. */
  function Plain(ts: seq<Tok>): (r: Res<string>)
    ensures r.Ok? ==> |r.rest| <= |ts| && (!Broken(ts) ==> !Broken(r.rest))
  {
    match Groups(ts, 0, "")
    case No => No
    case Err => Err
    case Ok((count, addr), r) =>
      if count == 4 then Ok(addr, r)
      else
        match Many(r, HostChars)
        case No => No
        case Err => Err
        case Ok(more, r1) => if HeadIs(r1, ':') then Ok(addr + more, r1) else No
  }

  function Literal(ts: seq<Tok>): (r: Res<string>)
    ensures r.Ok? ==> |r.rest| <= |ts| && (!Broken(ts) ==> !Broken(r.rest))
  {
    match One(ts, '[')
    case No => Plain(ts)
    case Err => Err
    case Ok(_, r) => V6(r, "")
  }

  function Port(host: string, ts: seq<Tok>): (r: Res<Addr>)
    ensures r.Ok? ==> |r.rest| <= |ts| && (!Broken(ts) ==> !Broken(r.rest))
    ensures !r.No?
  {
    match One(ts, ':')
    case No => Ok(Addr(host, ""), ts)
    case Err => Err
    case Ok(_, r) =>
      match Many(r, Digits)
      case Ok(port, r1) => Ok(Addr(host, port), r1)
      case _ => Err
  }

  function IpAddress(ts: seq<Tok>): (r: Res<Addr>)
    ensures r.Ok? ==> |r.rest| <= |ts| && (!Broken(ts) ==> !Broken(r.rest))
  {
    match Literal(ts)
    case No => No
    case Err => Err
    case Ok(host, r) => Port(host, r)
  }

  function Balanced(ts: seq<Tok>, parens: bool): (r: Res<string>)
    ensures r.Ok? ==> |r.rest| < |ts| && !Broken(r.rest)
    ensures !r.No?
    decreases |ts|, 0
  {
    match One(ts, '(')
    case No => Err
    case Err => Err
    case Ok(_, r) =>
      match Inside(r)
      case No => Err
      case Err => Err
      case Ok(a, r1) =>
        match One(r1, ')')
        case Ok(_, r2) => Ok((if parens then "(" else "") + a + (if parens then ")" else ""), r2)
        case _ => Err
  }

  function Inside(ts: seq<Tok>): (r: Res<string>)
    ensures r.Ok? ==> |r.rest| <= |ts| && (!Broken(ts) ==> !Broken(r.rest))
    ensures !r.No?
    decreases |ts|, 1
  {
    match Many(ts, NpChars)
    case No => Err
    case Err => Err
    case Ok(a, r1) =>
      match (if HeadIs(r1, '(') then Balanced(r1, true) else Ok("", r1))
      case No => Err
      case Err => Err
      case Ok(b, r2) =>
        match Many(r2, NpChars)
        case Ok(c, r3) => Ok(a + b + c, r3)
        case _ => Err
  }

  /** What an address can be: an IP address or name, or a path. */
  datatype Found = Found(ip: bool, other: bool, addr: Addr)

  function Host(ts: seq<Tok>): (r: Res<Found>)
    ensures r.Ok? ==> |r.rest| <= |ts| && (!Broken(ts) ==> !Broken(r.rest))
    ensures !r.No?
  {
    if HeadIs(ts, '(') then
      match Balanced(ts, false)
      case Ok(a, r) => Ok(Found(false, true, Addr(a, "")), r)
      case _ => Err
    else
      match IpAddress(ts)
      case Err => Err
      case Ok(a, r) => Ok(Found(true, false, a), r)
      case No =>
        match Many(ts, HostChars)
        case Ok(a, r) => Ok(Found(true, true, Addr(a, "")), r)
        case _ => Err
  }

  datatype Event =
    | User(s: string) | PasswordIs(s: string) | Schema(s: string)
    | HostIs(prio: nat, host: string) | HostPort(prio: nat, host: string, port: nat)
    | Socket(prio: nat, path: string) | Pipe(prio: nat, path: string)
    | Key(key: string) | KeyVal(key: string, val: string) | KeyList(key: string, vals: seq<string>)

  const Short: nat := 65536

  function Convert(digits: string): Option<nat> { E.ToNat(digits, false, Short - 1) }

  predicate SocketPath(host: string) { host != "" && (host[0] == '.' || host[0] == '/') }

  predicate PipePath(host: string) { |host| >= 4 && host[..4] == "\\\\.\\" }

  function Report(f: Found, prio: nat): Option<Event> {
    if f.other && SocketPath(f.addr.host) then Some(Socket(prio, f.addr.host))
    else if f.other && PipePath(f.addr.host) then Some(Pipe(prio, f.addr.host))
    else if !f.ip then None
    else if f.addr.port == "" then Some(HostIs(prio, f.addr.host))
    else if Convert(f.addr.port).None? then None
    else Some(HostPort(prio, f.addr.host, Convert(f.addr.port).value))
  }

  function Reported(r: Res<Found>, prio: nat): (s: Res<Event>)
    ensures s.Ok? ==> r.Ok? && s.rest == r.rest
    ensures !s.No?
  {
    match r
    case Ok(f, rest) => if Report(f, prio).Some? then Ok(Report(f, prio).value, rest) else Err
    case _ => Err
  }

  /** `,priority=`, the number and the closing parenthesis. */
  function Priority(ts: seq<Tok>): (r: Res<nat>)
    ensures r.Ok? ==> |r.rest| < |ts| && !Broken(r.rest)
    ensures !r.No?
  {
    match Comma(ts)
    case No => Err
    case Err => Err
    case Ok(_, r1) =>
      match Many(r1, Digits)
      case No => Err
      case Err => Err
      case Ok(p, r2) =>
        match One(r2, ')')
        case Ok(_, r3) => if p == "" || Convert(p).None? then Err else Ok(Convert(p).value, r3)
        case _ => Err
  }

  /** After `(address=`: a host, its priority, and the closing parenthesis. */
  function HostPriority(ts: seq<Tok>): (r: Res<Event>)
    ensures r.Ok? ==> |r.rest| < |ts| && !Broken(r.rest)
    ensures !r.No?
  {
    match Host(ts)
    case No => Err
    case Err => Err
    case Ok(f, r) =>
      match Priority(r)
      case Ok(p, r1) => Reported(Ok(f, r1), (1 + p) % Short)
      case _ => Err
  }

  /** `,priority=` */
  function Comma(ts: seq<Tok>): (r: Res<()>)
    ensures r.Ok? ==> |r.rest| < |ts| && !Broken(r.rest)
  {
    match One(ts, ',')
    case No => No
    case Err => Err
    case Ok(_, r) =>
      match Word(r, "priority")
      case No => No
      case Err => Err
      case Ok(_, r1) => One(r1, '=')
  }

  /** Whether an entry starts with `(address=`, and where to go on. If `(address` is not followed by
      `=`, only the word is taken back. */
  function Opening(ts: seq<Tok>): (r: Res<bool>)
    ensures r.Ok? ==> |r.rest| <= |ts| && (!Broken(ts) ==> !Broken(r.rest))
    ensures !r.No?
  {
    match One(ts, '(')
    case Err => Err
    case No => Ok(false, ts)
    case Ok(_, r) =>
      match Word(r, "address")
      case Err => Err
      case No => Ok(false, ts)
      case Ok(_, r1) =>
        match One(r1, '=')
        case Err => Err
        case No => Ok(false, r)
        case Ok(_, r2) => Ok(true, r2)
  }

  /** An entry of a host list. */
  function ListEntry(ts: seq<Tok>): (r: Res<Event>)
    ensures r.Ok? ==> |r.rest| <= |ts| && (!Broken(ts) ==> !Broken(r.rest))
    ensures !r.No?
  {
    match Opening(ts)
    case No => Err
    case Err => Err
    case Ok(yes, r) => if yes then HostPriority(r) else Reported(Host(r), 0)
  }

  function Entries(ts: seq<Tok>): (r: Res<seq<Event>>)
    ensures r.Ok? ==> |r.rest| <= |ts| && (!Broken(ts) ==> !Broken(r.rest))
    ensures !r.No?
    decreases |ts|
  {
    match ListEntry(ts)
    case No => Err
    case Err => Err
    case Ok(e, r) =>
      match One(r, ',')
      case No => Ok([e], r)
      case Err => Err
      case Ok(_, r1) =>
        match Entries(r1)
        case Ok(es, r2) => Ok([e] + es, r2)
        case _ => Err
  }

  function HostList(ts: seq<Tok>): (r: Res<seq<Event>>)
    requires HeadIs(ts, '[')
    ensures r.Ok? ==> |r.rest| < |ts| && !Broken(r.rest)
    ensures !r.No?
  {
    match One(ts, '[')
    case No => Err
    case Err => Err
    case Ok(_, r) =>
      match Entries(r)
      case No => Err
      case Err => Err
      case Ok(es, r1) =>
        match One(r1, ']')
        case Ok(_, r2) => Ok(es, r2)
        case _ => Err
  }

  function CredEvents(c: Cred): seq<Event> {
    [User(c.user)] + (if c.password.Some? then [PasswordIs(c.password.value)] else [])
  }

  /** A single host, or a list if the bracket does not start an IPv6 address. */
  function Target(ts: seq<Tok>): (r: Res<seq<Event>>)
    ensures r.Ok? ==> |r.rest| <= |ts| && (!Broken(ts) ==> !Broken(r.rest))
    ensures !r.No?
  {
    match Host(ts)
    case No => Err
    case Err => Err
    case Ok(f, r) =>
      if HeadIs(ts, '[') && f.other then HostList(ts)
      else
        match Reported(Ok(f, r), 0)
        case Ok(e, r1) => Ok([e], r1)
        case _ => Err
  }

  function Connection(ts: seq<Tok>): (r: Res<seq<Event>>)
    ensures r.Ok? ==> |r.rest| <= |ts| && (!Broken(ts) ==> !Broken(r.rest))
    ensures !r.No?
  {
    if HeadIs(ts, '@') then Err
    else
      match UserInfo(ts)
      case Err => Err
      case No => Target(ts)
      case Ok(c, r) =>
        match Target(r)
        case Ok(es, r1) => Ok(CredEvents(c) + es, r1)
        case _ => Err
  }

  function Path(ts: seq<Tok>): (r: Res<seq<Event>>)
    ensures r.Ok? ==> |r.rest| <= |ts| && (!Broken(ts) ==> !Broken(r.rest))
    ensures !r.No?
  {
    match One(ts, '/')
    case No => Ok([], ts)
    case Err => Err
    case Ok(_, r) =>
      match Many(r, DbChars)
      case Ok(db, r1) => Ok([Schema(db)], r1)
      case _ => Err
  }

  function Values(ts: seq<Tok>): (r: Res<seq<string>>)
    ensures r.Ok? ==> |r.rest| <= |ts| && (!Broken(ts) ==> !Broken(r.rest))
    ensures !r.No?
    decreases |ts|
  {
    match Many(ts, UntilComma)
    case No => Err
    case Err => Err
    case Ok(v, r) =>
      match One(r, ',')
      case No => Ok([v], r)
      case Err => Err
      case Ok(_, r1) =>
        match Values(r1)
        case Ok(vs, r2) => Ok([v] + vs, r2)
        case _ => Err
  }

  function Value(ts: seq<Tok>, key: string): (r: Res<Event>)
    ensures r.Ok? ==> |r.rest| <= |ts| && (!Broken(ts) ==> !Broken(r.rest))
    ensures !r.No?
  {
    match One(ts, '[')
    case Err => Err
    case No =>
      (match Many(ts, UntilAmp)
       case Ok(v, r) => Ok(KeyVal(key, v), r)
       case _ => Err)
    case Ok(_, r) =>
      match Values(r)
      case No => Err
      case Err => Err
      case Ok(vs, r1) =>
        match One(r1, ']')
        case Ok(_, r2) => Ok(KeyList(key, vs), r2)
        case _ => Err
  }

  function Item(ts: seq<Tok>): (r: Res<Event>)
    ensures r.Ok? ==> |r.rest| <= |ts| && (!Broken(ts) ==> !Broken(r.rest))
    ensures !r.No?
  {
    match Many(ts, UntilEq)
    case No => Err
    case Err => Err
    case Ok(key, r) =>
      match One(r, '=')
      case No => Ok(Key(key), r)
      case Err => Err
      case Ok(_, r1) => Value(r1, key)
  }

  function Items(ts: seq<Tok>): (r: Res<seq<Event>>)
    ensures r.Ok? ==> |r.rest| <= |ts| && (!Broken(ts) ==> !Broken(r.rest))
    ensures !r.No?
    decreases |ts|
  {
    match Item(ts)
    case No => Err
    case Err => Err
    case Ok(e, r) =>
      match One(r, '&')
      case No => Ok([e], r)
      case Err => Err
      case Ok(_, r1) =>
        match Items(r1)
        case Ok(es, r2) => Ok([e] + es, r2)
        case _ => Err
  }

  function QueryPart(ts: seq<Tok>): (r: Res<seq<Event>>)
    ensures r.Ok? ==> |r.rest| <= |ts| && (!Broken(ts) ==> !Broken(r.rest))
    ensures !r.No?
  {
    match One(ts, '?')
    case No => Ok([], ts)
    case Err => Err
    case Ok(_, r) => Items(r)
  }

  function Body(ts: seq<Tok>): Option<seq<Event>> {
    if Broken(ts) then None
    else
      match Connection(ts)
      case No => None
      case Err => None
      case Ok(a, r) =>
        match Path(r)
        case No => None
        case Err => None
        case Ok(b, r1) =>
          match QueryPart(r1)
          case Ok(c, r2) => if r2 == [] then Some(a + b + c) else None
          case _ => None
  }

  /** Position of the first `://`, or the length of the text. */
  function FindScheme(s: string, from: nat): (pos: nat)
    requires from <= |s|
    ensures from <= pos <= |s|
    decreases |s| - from
  {
    if from == |s| then |s|
    else if from + 3 <= |s| && s[from..from + 3] == "://" then from
    else FindScheme(s, from + 1)
  }

  /** What is left to parse after the scheme. */
  function AfterScheme(s: string, force: bool): Option<string> {
    var pos := FindScheme(s, 0);
    if pos < |s| then
      if s[..pos] == "mysqlx" && pos + 3 <= |s| then Some(s[pos + 3..]) else None
    else if |s| >= 6 && s[..6] == "mysqlx" then None
    else if force then None
    else Some(s)
  }

  function ParseUri(s: string, force: bool): Option<seq<Event>> {
    match AfterScheme(s, force)
    case None => None
    case Some(body) => Body(Lex(body))
  }
}
