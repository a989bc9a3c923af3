/** Printing connection strings with every name character percent-encoded, and reading them back. */
module UriRoundTrip {

  import opened Wrappers
  import E = ExprSyntax
  import opened UriSyntax
  import UriParser

  datatype Address = Address(host: string, port: Option<nat>)

  datatype Entry = Entry(addr: Address, prio: Option<nat>)

  datatype Hosts = Single(addr: Address) | List(entries: seq<Entry>)

  datatype QueryItem = Flag(key: string) | Pair(key: string, val: string) | ListOf(key: string, vals: seq<string>)

  datatype Uri = Uri(cred: Option<Cred>, hosts: Hosts, schema: Option<string>, query: seq<QueryItem>)

  // Printing to tokens

  function Enc(s: string): (ts: seq<Tok>)
    ensures |ts| == |s| && forall i :: 0 <= i < |s| ==> ts[i] == Tok(s[i], true)
  {
    if s == "" then [] else [Tok(s[0], true)] + Enc(s[1..])
  }

  function Lit(s: string): (ts: seq<Tok>)
    ensures |ts| == |s| && forall i :: 0 <= i < |s| ==> ts[i] == Tok(s[i], false)
  {
    if s == "" then [] else [Tok(s[0], false)] + Lit(s[1..])
  }

  function PrintAddress(a: Address): seq<Tok> {
    Enc(a.host) + (if a.port.Some? then Lit(":") + Lit(E.Digits(a.port.value)) else [])
  }

  function PrintEntry(e: Entry): seq<Tok> {
    if e.prio.None? then PrintAddress(e.addr)
    else Lit("(address=") + (PrintAddress(e.addr) + (Lit(",priority=") + (Lit(E.Digits(e.prio.value)) + Lit(")"))))
  }

  function PrintEntries(es: seq<Entry>): seq<Tok>
    requires es != []
  {
    if |es| == 1 then PrintEntry(es[0]) else PrintEntry(es[0]) + (Lit(",") + PrintEntries(es[1..]))
  }

  function PrintHosts(h: Hosts): seq<Tok>
    requires h.List? ==> h.entries != []
  {
    match h
    case Single(a) => PrintAddress(a)
    case List(es) => Lit("[") + (PrintEntries(es) + Lit("]"))
  }

  function PrintCred(c: Cred): seq<Tok> {
    Enc(c.user) + ((if c.password.Some? then Lit(":") + Enc(c.password.value) else []) + Lit("@"))
  }

  function PrintValues(vs: seq<string>): seq<Tok>
    requires vs != []
  {
    if |vs| == 1 then Enc(vs[0]) else Enc(vs[0]) + (Lit(",") + PrintValues(vs[1..]))
  }

  function PrintItem(q: QueryItem): seq<Tok>
    requires q.ListOf? ==> q.vals != []
  {
    match q
    case Flag(k) => Enc(k)
    case Pair(k, v) => Enc(k) + (Lit("=") + Enc(v))
    case ListOf(k, vs) => Enc(k) + (Lit("=") + (Lit("[") + (PrintValues(vs) + Lit("]"))))
  }

  predicate GoodQuery(q: seq<QueryItem>) { forall i :: 0 <= i < |q| && q[i].ListOf? ==> q[i].vals != [] }

  function PrintItems(q: seq<QueryItem>): seq<Tok>
    requires q != [] && GoodQuery(q)
  {
    if |q| == 1 then PrintItem(q[0]) else PrintItem(q[0]) + (Lit("&") + PrintItems(q[1..]))
  }

  function PrintPath(s: Option<string>): seq<Tok> { if s.Some? then Lit("/") + Enc(s.value) else [] }

  function PrintQuery(q: seq<QueryItem>): seq<Tok>
    requires GoodQuery(q)
  {
    if q == [] then [] else Lit("?") + PrintItems(q)
  }

  function PrintTokens(u: Uri): seq<Tok>
    requires WellFormed(u)
  {
    (if u.cred.Some? then PrintCred(u.cred.value) else [])
    + (PrintHosts(u.hosts) + (PrintPath(u.schema) + PrintQuery(u.query)))
  }

  /** What has a written form: a user has a name, and lists are not empty. */
  predicate WellFormed(u: Uri) {
    && (u.cred.Some? ==> u.cred.value.user != "")
    && (u.hosts.List? ==> u.hosts.entries != [])
    && GoodQuery(u.query)
  }

  // What is read back as it is

  predicate StartsWith(s: string, prefix: string) { |prefix| <= |s| && s[..|prefix|] == prefix }

  /** What is taken for the path of a socket or of a named pipe. */
  predicate IsSocket(host: string) { StartsWith(host, "/") || StartsWith(host, ".") }

  predicate IsPipe(host: string) { StartsWith(host, "\\\\.\\") }

  predicate GoodAddress(a: Address) {
    && (a.port.None? ==> !IsSocket(a.host) && !IsPipe(a.host))
    && (a.port.Some? ==> a.port.value < Short)
  }

  /** A priority is reported as one more than written, in 16 bits. */
  predicate GoodEntry(e: Entry) { GoodAddress(e.addr) && (e.prio.Some? ==> e.prio.value < Short - 1) }

  predicate GoodEntries(es: seq<Entry>) { forall i :: 0 <= i < |es| ==> GoodEntry(es[i]) }

  /** A list that consists of a port without a host looks like an IPv6 address. */
  predicate LooksLikeV6(es: seq<Entry>) {
    |es| == 1 && es[0].prio.None? && es[0].addr.host == "" && es[0].addr.port.Some?
  }

  predicate GoodHosts(h: Hosts) {
    match h
    case Single(a) => GoodAddress(a)
    case List(es) => !LooksLikeV6(es) && GoodEntries(es)
  }

  predicate GoodUri(u: Uri) { GoodHosts(u.hosts) }

  // What should be reported

  function AddressEvent(a: Address, prio: nat): Event {
    if a.port.Some? then HostPort(prio, a.host, a.port.value) else HostIs(prio, a.host)
  }

  function EntryEvent(e: Entry): Event { AddressEvent(e.addr, if e.prio.Some? then 1 + e.prio.value else 0) }

  function EntryEvents(es: seq<Entry>): seq<Event> {
    if es == [] then [] else [EntryEvent(es[0])] + EntryEvents(es[1..])
  }

  function HostEvents(h: Hosts): seq<Event> {
    match h
    case Single(a) => [AddressEvent(a, 0)]
    case List(es) => EntryEvents(es)
  }

  function ItemEvent(q: QueryItem): Event {
    match q
    case Flag(k) => Key(k)
    case Pair(k, v) => KeyVal(k, v)
    case ListOf(k, vs) => KeyList(k, vs)
  }

  function ItemEvents(q: seq<QueryItem>): seq<Event> {
    if q == [] then [] else [ItemEvent(q[0])] + ItemEvents(q[1..])
  }

  /** The user, and the password exactly if one was given. */
  function LoginEvents(c: Option<Cred>): seq<Event> {
    match c
    case None => []
    case Some(Cred(user, None)) => [User(user)]
    case Some(Cred(user, Some(password))) => [User(user), PasswordIs(password)]
  }

  function UriEvents(u: Uri): seq<Event> {
    LoginEvents(u.cred)
    + HostEvents(u.hosts)
    + (if u.schema.Some? then [Schema(u.schema.value)] else [])
    + ItemEvents(u.query)
  }

  // What is reported

  function AddressRead(a: Address, prio: nat): Option<Event> {
    match a.port
    case Some(port) => if port < Short then Some(HostPort(prio, a.host, port)) else None
    case None =>
      if IsSocket(a.host) then Some(Socket(prio, a.host))
      else if IsPipe(a.host) then Some(Pipe(prio, a.host))
      else Some(HostIs(prio, a.host))
  }

  function EntryRead(e: Entry): Option<Event> {
    if e.prio.None? then AddressRead(e.addr, 0)
    else if e.prio.value >= Short then None
    else AddressRead(e.addr, (1 + e.prio.value) % Short)
  }

  function EntriesRead(es: seq<Entry>): Option<seq<Event>> {
    if es == [] then Some([])
    else
      match (EntryRead(es[0]), EntriesRead(es[1..]))
      case (Some(e), Some(more)) => Some([e] + more)
      case _ => None
  }

  function HostsRead(h: Hosts): Option<seq<Event>> {
    match h
    case Single(a) => if AddressRead(a, 0).Some? then Some([AddressRead(a, 0).value]) else None
    case List(es) =>
      if LooksLikeV6(es) then Some([HostIs(0, ":" + PortText(es[0].addr))]) else EntriesRead(es)
  }

  /** What the parser reports for a printed URI; None stands for an exception. */
  function UriRead(u: Uri): Option<seq<Event>> {
    if HostsRead(u.hosts).None? then None
    else
      Some(LoginEvents(u.cred)
           + HostsRead(u.hosts).value
           + (if u.schema.Some? then [Schema(u.schema.value)] else [])
           + ItemEvents(u.query))
  }

  function Outcome<T>(r: Option<T>, rest: seq<Tok>): Res<T> { if r.Some? then Ok(r.value, rest) else Err }

  /** That is what was printed exactly for good hosts. */
  lemma EntryReadIsEvent(e: Entry)
    ensures EntryRead(e) == Some(EntryEvent(e)) <==> GoodEntry(e)
  {
    hide Report, GoodAddress, PortText;
    var p := if e.prio.Some? then (1 + e.prio.value) % Short else 0;
    ReportRoundTrip(e.addr, p);
    ReportedPriority(e.addr, p);
  }

  lemma ReportedPriority(a: Address, prio: nat)
    ensures forall p :: AddressRead(a, prio) == Some(AddressEvent(a, p)) ==> p == prio
  {
  }

  lemma {:induction false} EntriesReadIsEvents(es: seq<Entry>)
    ensures EntriesRead(es) == Some(EntryEvents(es)) <==> GoodEntries(es)
    decreases |es|
  {
    hide EntryRead, EntryEvent, GoodEntry;
    if es != [] {
      EntryReadIsEvent(es[0]);
      EntriesReadIsEvents(es[1..]);
      assert GoodEntries(es) <==> GoodEntry(es[0]) && GoodEntries(es[1..]) by { GoodEntriesStep(es); }
      if EntryRead(es[0]).Some? && EntriesRead(es[1..]).Some? {
        assert EntriesRead(es).value[0] == EntryRead(es[0]).value
          && EntriesRead(es).value[1..] == EntriesRead(es[1..]).value;
        assert EntryEvents(es)[0] == EntryEvent(es[0]) && EntryEvents(es)[1..] == EntryEvents(es[1..]);
      }
    }
  }

  lemma GoodEntriesStep(es: seq<Entry>)
    requires es != []
    ensures GoodEntries(es) <==> GoodEntry(es[0]) && GoodEntries(es[1..])
  {
    hide GoodEntry;
    if GoodEntry(es[0]) && GoodEntries(es[1..]) {
      forall i | 0 <= i < |es|
        ensures GoodEntry(es[i])
      {
        assert i > 0 ==> es[i] == es[1..][i - 1];
      }
    }
  }

  lemma HostsReadIsEvents(h: Hosts)
    ensures HostsRead(h) == Some(HostEvents(h)) <==> GoodHosts(h)
  {
    hide EntriesRead, EntryEvents, GoodEntries, Report, GoodAddress;
    match h {
      case Single(a) =>
        ReportRoundTrip(a, 0);
      case List(es) =>
        if LooksLikeV6(es) {
          OneEntry(es);
        } else {
          EntriesReadIsEvents(es);
        }
    }
  }

  lemma OneEntry(es: seq<Entry>)
    requires LooksLikeV6(es)
    ensures EntryEvents(es) == [HostPort(0, "", es[0].addr.port.value)]
  {
    assert es[1..] == [];
    assert EntryEvents([]) == [];
  }

  lemma UriReadIsEvents(u: Uri)
    ensures UriRead(u) == Some(UriEvents(u)) <==> GoodUri(u)
  {
    hide HostsRead, HostEvents, GoodHosts, ItemEvents, LoginEvents;
    HostsReadIsEvents(u.hosts);
    if HostsRead(u.hosts).Some? {
      var c := LoginEvents(u.cred);
      var p := if u.schema.Some? then [Schema(u.schema.value)] else [];
      Cancel(c, HostsRead(u.hosts).value, HostEvents(u.hosts), p, ItemEvents(u.query));
    }
  }

  lemma Cancel(c: seq<Event>, x: seq<Event>, y: seq<Event>, p: seq<Event>, q: seq<Event>)
    ensures c + x + p + q == c + y + p + q <==> x == y
  {
    if c + x + p + q == c + y + p + q {
      assert |x| == |y|;
      assert (c + x + p + q)[|c|..|c| + |x|] == x;
      assert (c + y + p + q)[|c|..|c| + |y|] == y;
    }
  }

  // Steps

  /** What follows a name ends it. */
  predicate Ends(ts: seq<Tok>, s: Set) { ts == [] || (ts[0] != Bad && !In(ts[0], s)) }

  lemma NameChar(c: char, cs: Set)
    requires cs != Digits
    ensures In(Tok(c, true), cs)
  {
  }

  lemma DigitChar(c: char, cs: Set)
    requires '0' <= c <= '9'
    ensures In(Tok(c, false), cs)
  {
  }

  lemma {:induction false} ManyEnc(s: string, rest: seq<Tok>, cs: Set)
    requires Ends(rest, cs) && cs != Digits
    ensures Many(Enc(s) + rest, cs) == Ok(s, rest)
    decreases |s|
  {
    hide In;
    if s == "" {
      assert Enc(s) + rest == rest;
    } else {
      var ts := Enc(s) + rest;
      assert ts[1..] == Enc(s[1..]) + rest;
      NameChar(s[0], cs);
      assert s[1..] != "" ==> ts[1..][0] == Tok(s[1], true);
      assert s == [s[0]] + s[1..];
      ManyEnc(s[1..], rest, cs);
    }
  }

  predicate AllDigitChars(s: string) { forall i :: 0 <= i < |s| ==> '0' <= s[i] <= '9' }

  lemma {:induction false} ManyDigits(s: string, rest: seq<Tok>, cs: Set)
    requires AllDigitChars(s) && Ends(rest, cs)
    ensures Many(Lit(s) + rest, cs) == Ok(s, rest)
    decreases |s|
  {
    hide In;
    if s == "" {
      assert Lit(s) + rest == rest;
    } else {
      var ts := Lit(s) + rest;
      assert ts[1..] == Lit(s[1..]) + rest;
      DigitChar(s[0], cs);
      assert s[1..] != "" ==> ts[1..][0] == Tok(s[1], false);
      assert s == [s[0]] + s[1..];
      ManyDigits(s[1..], rest, cs);
    }
  }

  lemma PrintedDigits(n: nat)
    ensures E.Digits(n) != "" && AllDigitChars(E.Digits(n)) && E.AllDigits(E.Digits(n), false)
    ensures Convert(E.Digits(n)) == if n < Short then Some(n) else None
  {
    E.DigitsDenote(n);
    if n < Short {
      E.DigitsConvert(n, Short - 1);
    }
    forall i | 0 <= i < |E.Digits(n)|
      ensures '0' <= E.Digits(n)[i] <= '9'
    {
      assert E.DigitVal(E.Digits(n)[i]) < 10;
    }
  }

  predicate Sound(ts: seq<Tok>) { ts == [] || ts[0] != Bad }

  lemma OneLit(c: char, rest: seq<Tok>)
    requires KindOf(Tok(c, false)) == Punct(c) && Sound(rest)
    ensures One(Lit([c]) + rest, c) == Ok((), rest)
    ensures forall d :: d != c ==> One(Lit([c]) + rest, d) == No
  {
    var ts := Lit([c]) + rest;
    assert ts[0] == Tok(c, false) && ts[1..] == rest;
  }

  lemma OneNo(ts: seq<Tok>, c: char)
    requires ts == [] || KindOf(ts[0]) != Punct(c)
    ensures One(ts, c) == No
  {
  }

  lemma {:induction false} WordLit(w: string, rest: seq<Tok>)
    requires Sound(rest) && forall i :: 0 <= i < |w| ==> IsAlpha(w[i])
    ensures Word(Lit(w) + rest, w) == Ok((), rest)
    decreases |w|
  {
    if w == "" {
      assert Lit(w) + rest == rest;
    } else {
      var ts := Lit(w) + rest;
      assert ts[1..] == Lit(w[1..]) + rest;
      WordLit(w[1..], rest);
    }
  }

  // Hosts

  /** Where a host can end. */
  predicate EndsHost(ts: seq<Tok>) {
    ts == [] || (KindOf(ts[0]).Punct? && KindOf(ts[0]).c in "/?,]")
  }

  function PortText(a: Address): string { if a.port.Some? then E.Digits(a.port.value) else "" }

  function PrintPort(a: Address): seq<Tok> { if a.port.Some? then Lit(":") + Lit(E.Digits(a.port.value)) else [] }

  lemma EndsAt(ts: seq<Tok>)
    requires ts != [] && KindOf(ts[0]).Punct? && KindOf(ts[0]).c in ":/?,]"
    ensures Ends(ts, HostChars) && Ends(ts, Digits) && Sound(ts)
  {
  }

  /** How the port and what is after it start. */
  lemma PortHead(a: Address, rest: seq<Tok>)
    requires EndsHost(rest)
    ensures
      var t := PrintPort(a) + rest;
      && (a.port.Some? ==> t != [] && t[0] == Tok(':', false) && t == Lit(":") + (Lit(PortText(a)) + rest))
      && (a.port.None? ==> t == rest)
  {
    hide E.Digits, Lit;
    if a.port.Some? {
      ColonFirst(Lit(PortText(a)) + rest);
      AssocToks(Lit(":"), Lit(PortText(a)), rest);
    }
  }

  lemma AssocToks(a: seq<Tok>, b: seq<Tok>, c: seq<Tok>)
    ensures a + b + c == a + (b + c)
  {
  }

  /** What follows the name of a host. */
  lemma AfterName(a: Address, rest: seq<Tok>)
    requires EndsHost(rest)
    ensures
      var t := PrintPort(a) + rest;
      && PrintAddress(a) + rest == Enc(a.host) + t
      && (a.port.Some? ==> t == Lit(":") + (Lit(PortText(a)) + rest))
      && Ends(t, HostChars) && Sound(t) && Sound(rest) && Ends(rest, Digits)
      && (HeadIs(t, ':') <==> a.port.Some?)
      && !HeadIs(t, '[') && !HeadIs(t, '(') && !HeadIs(t, '@')
      && (t != [] ==> KindOf(t[0]) != Digit)
      && Sound(Lit(PortText(a)) + rest)
  {
    hide E.Digits, In, Lit, Enc;
    var t := PrintPort(a) + rest;
    PortHead(a, rest);
    if t != [] {
      EndsAt(t);
    }
    if rest != [] {
      EndsAt(rest);
    }
    AssocToks(Enc(a.host), PrintPort(a), rest);
    SoundPort(a, rest);
  }

  lemma SoundPort(a: Address, rest: seq<Tok>)
    requires Sound(rest)
    ensures Sound(Lit(PortText(a)) + rest)
  {
    hide E.Digits, Lit;
    if a.port.Some? {
      PrintedDigits(a.port.value);
      SoundLit(PortText(a), rest);
    } else {
      NothingLit(rest);
    }
  }

  lemma NothingLit(t: seq<Tok>)
    ensures Lit("") + t == t
  {
  }

  lemma HeadOfName(s: string, t: seq<Tok>, c: char)
    requires !HeadIs(t, c)
    ensures !HeadIs(Enc(s) + t, c)
  {
    assert s != "" ==> (Enc(s) + t)[0] == Tok(s[0], true);
    assert s == "" ==> Enc(s) + t == t;
  }

  lemma NoDigits(s: string, t: seq<Tok>)
    requires t != [] ==> KindOf(t[0]) != Digit
    ensures Groups(Enc(s) + t, 0, "") == Ok((0, ""), Enc(s) + t)
  {
    assert s != "" ==> (Enc(s) + t)[0] == Tok(s[0], true);
    assert s == "" ==> Enc(s) + t == t;
  }

  lemma IpRoundTrip(a: Address, rest: seq<Tok>)
    requires EndsHost(rest)
    ensures
      IpAddress(PrintAddress(a) + rest) == if a.port.Some? then Ok(Addr(a.host, PortText(a)), rest) else No
  {
    hide Many, Groups, V6, E.Digits, Enc, Lit, PrintAddress, PrintPort, In;
    AfterName(a, rest);
    var t := PrintPort(a) + rest;
    var ts := Enc(a.host) + t;
    HeadOfName(a.host, t, '[');
    NoDigits(a.host, t);
    ManyEnc(a.host, t, HostChars);
    assert "" + a.host == a.host;
    assert Plain(ts) == if HeadIs(t, ':') then Ok(a.host, t) else No;
    if a.port.Some? {
      OneLit(':', Lit(PortText(a)) + rest);
      PrintedDigits(a.port.value);
      ManyDigits(PortText(a), rest, Digits);
    }
  }

  lemma HostRoundTrip(a: Address, rest: seq<Tok>)
    requires EndsHost(rest)
    ensures Host(PrintAddress(a) + rest) == Ok(Found(true, a.port.None?, Addr(a.host, PortText(a))), rest)
  {
    hide Many, IpAddress, E.Digits, Enc, Lit, PrintAddress, PrintPort, In;
    AfterName(a, rest);
    var t := PrintPort(a) + rest;
    HeadOfName(a.host, t, '(');
    IpRoundTrip(a, rest);
    if a.port.None? {
      ManyEnc(a.host, t, HostChars);
      NoPort(a, rest);
    }
  }

  lemma NoPort(a: Address, rest: seq<Tok>)
    requires a.port.None?
    ensures PrintPort(a) + rest == rest
  {
  }

  /** What is reported for a host: a socket or a pipe if it has no port and looks like a path, and an
      error if the port does not fit. So it is reported as itself if and only if it is good. */
  lemma ReportRoundTrip(a: Address, prio: nat)
    ensures Report(Found(true, a.port.None?, Addr(a.host, PortText(a))), prio) == AddressRead(a, prio)
    ensures AddressRead(a, prio) == Some(AddressEvent(a, prio)) <==> GoodAddress(a)
  {
    PathLooks(a.host);
    if a.port.Some? {
      PrintedDigits(a.port.value);
      E.DigitsDenote(a.port.value);
    }
  }

  lemma PathLooks(h: string)
    ensures SocketPath(h) <==> IsSocket(h)
    ensures PipePath(h) <==> IsPipe(h)
  {
    assert h != "" ==> h[..1] == [h[0]];
  }

  // Host lists

  lemma LitAppend(a: string, b: string)
    ensures Lit(a + b) == Lit(a) + Lit(b)
  {
  }

  lemma SoundLit(s: string, rest: seq<Tok>)
    requires s != ""
    ensures Sound(Lit(s) + rest)
  {
    assert (Lit(s) + rest)[0] == Tok(s[0], false);
  }

  lemma SoundEnc(s: string, rest: seq<Tok>)
    requires Sound(rest)
    ensures Sound(Enc(s) + rest)
  {
    assert s != "" ==> (Enc(s) + rest)[0] == Tok(s[0], true);
    assert s == "" ==> Enc(s) + rest == rest;
  }

  /** `(address=` */
  lemma OpensEntry(rest: seq<Tok>)
    requires Sound(rest)
    ensures
      var ts := Lit("(address=") + rest;
      var r := Lit("address") + (Lit("=") + rest);
      && One(ts, '(') == Ok((), r)
      && Word(r, "address") == Ok((), Lit("=") + rest)
      && One(Lit("=") + rest, '=') == Ok((), rest)
  {
    hide Word, One, Lit;
    LitAppend("(", "address=");
    LitAppend("address", "=");
    assert "(" + "address=" == "(address=" && "address" + "=" == "address=";
    var r := Lit("address") + (Lit("=") + rest);
    assert Lit("(address=") + rest == Lit("(") + r;
    SoundLit("address", Lit("=") + rest);
    SoundLit("=", rest);
    OneLit('(', r);
    WordLit("address", Lit("=") + rest);
    OneLit('=', rest);
  }

  lemma OpensPriority(rest: seq<Tok>)
    requires Sound(rest)
    ensures Comma(Lit(",priority=") + rest) == Ok((), rest)
    ensures EndsHost(Lit(",priority=") + rest)
  {
    hide Word, One, Lit;
    LitAppend(",", "priority=");
    LitAppend("priority", "=");
    assert "," + "priority=" == ",priority=" && "priority" + "=" == "priority=";
    var r := Lit("priority") + (Lit("=") + rest);
    assert Lit(",priority=") + rest == Lit(",") + r;
    SoundLit("priority", Lit("=") + rest);
    SoundLit("=", rest);
    OneLit(',', r);
    WordLit("priority", Lit("=") + rest);
    OneLit('=', rest);
    CommaEnds(r);
  }

  lemma PriorityIsRead(e: Entry, rest: seq<Tok>)
    requires e.prio.Some? && Sound(rest)
    ensures
      HostPriority(PrintAddress(e.addr) + (Lit(",priority=") + (Lit(E.Digits(e.prio.value)) + (Lit(")") + rest))))
      == Outcome(EntryRead(e), rest)
  {
    hide Host, Comma, Many, One, E.Digits, Lit, PrintAddress, Report, Convert, AddressRead, GoodAddress;
    ReportRoundTrip(e.addr, (1 + e.prio.value) % Short);
    var ds := E.Digits(e.prio.value);
    var z := Lit(ds) + (Lit(")") + rest);
    PrintedDigits(e.prio.value);
    SoundLit(ds, Lit(")") + rest);
    OpensPriority(z);
    HostRoundTrip(e.addr, Lit(",priority=") + z);
    CloseEnds(rest);
    ManyDigits(ds, Lit(")") + rest, Digits);
    OneLit(')', rest);
  }

  lemma CloseEnds(rest: seq<Tok>)
    ensures Ends(Lit(")") + rest, Digits)
  {
    assert (Lit(")") + rest)[0] == Tok(')', false);
  }

  lemma EntryIsRead(e: Entry, rest: seq<Tok>)
    requires EndsHost(rest)
    ensures ListEntry(PrintEntry(e) + rest) == Outcome(EntryRead(e), rest)
  {
    hide Host, HostPriority, Many, Word, E.Digits, Lit, PrintAddress, Report, Enc, AddressRead, GoodAddress;
    if e.prio.None? {
      ReportRoundTrip(e.addr, 0);
      AfterName(e.addr, rest);
      HeadOfName(e.addr.host, PrintPort(e.addr) + rest, '(');
      HostRoundTrip(e.addr, rest);
    } else {
      var ds := Lit(E.Digits(e.prio.value));
      var x := PrintAddress(e.addr) + (Lit(",priority=") + (ds + (Lit(")") + rest)));
      assert PrintEntry(e) + rest == Lit("(address=") + x;
      SoundLit(",priority=", ds + (Lit(")") + rest));
      SoundAddress(e.addr, Lit(",priority=") + (ds + (Lit(")") + rest)));
      OpensEntry(x);
      PriorityIsRead(e, rest);
    }
  }

  lemma SoundAddress(a: Address, rest: seq<Tok>)
    requires Sound(rest)
    ensures Sound(PrintAddress(a) + rest)
  {
    hide E.Digits;
    assert PrintAddress(a) + rest == Enc(a.host) + (PrintPort(a) + rest);
    assert a.port.Some? ==> (PrintPort(a) + rest)[0] == Tok(':', false);
    assert a.port.None? ==> PrintPort(a) + rest == rest;
    SoundEnc(a.host, PrintPort(a) + rest);
  }

  lemma SoundEntry(e: Entry, rest: seq<Tok>)
    requires Sound(rest)
    ensures Sound(PrintEntry(e) + rest)
  {
    hide E.Digits, PrintAddress, Lit;
    if e.prio.None? {
      SoundAddress(e.addr, rest);
    } else {
      var x := PrintAddress(e.addr) + (Lit(",priority=") + (Lit(E.Digits(e.prio.value)) + Lit(")")));
      assert PrintEntry(e) + rest == Lit("(address=") + (x + rest);
      SoundLit("(address=", x + rest);
    }
  }

  lemma {:induction false} SoundEntries(es: seq<Entry>, rest: seq<Tok>)
    requires es != [] && Sound(rest)
    ensures Sound(PrintEntries(es) + rest)
  {
    hide PrintEntry, Lit;
    var t := if |es| == 1 then rest else Lit(",") + (PrintEntries(es[1..]) + rest);
    assert PrintEntries(es) + rest == PrintEntry(es[0]) + t;
    if |es| > 1 {
      SoundLit(",", PrintEntries(es[1..]) + rest);
    }
    SoundEntry(es[0], t);
  }

  lemma {:induction false} EntriesAreRead(es: seq<Entry>, rest: seq<Tok>)
    requires es != [] && HeadIs(rest, ']')
    ensures Entries(PrintEntries(es) + rest) == Outcome(EntriesRead(es), rest)
    decreases |es|
  {
    hide ListEntry, PrintEntry, Lit, EntryRead;
    if |es| == 1 {
      EntryIsRead(es[0], rest);
      OneNo(rest, ',');
      assert es[1..] == [] && EntriesRead([]) == Some([]);
      assert EntryRead(es[0]).Some? ==> [EntryRead(es[0]).value] + [] == [EntryRead(es[0]).value];
    } else {
      var more := PrintEntries(es[1..]) + rest;
      assert PrintEntries(es) + rest == PrintEntry(es[0]) + (Lit(",") + more);
      SoundEntries(es[1..], rest);
      OneLit(',', more);
      CommaEnds(more);
      EntryIsRead(es[0], Lit(",") + more);
      EntriesAreRead(es[1..], rest);
    }
  }

  lemma CommaEnds(rest: seq<Tok>)
    ensures EndsHost(Lit(",") + rest)
  {
    assert (Lit(",") + rest)[0] == Tok(',', false);
  }

  lemma {:induction false} V6Digits(ds: string, t: seq<Tok>, addr: string)
    requires AllDigitChars(ds) && Sound(t)
    ensures V6(Lit(ds) + t, addr) == V6(t, addr + ds)
    decreases |ds|
  {
    hide V6, KindOf;
    if ds == "" {
      assert Lit(ds) + t == t && addr + ds == addr;
    } else {
      var ts := Lit(ds) + t;
      assert ts[1..] == Lit(ds[1..]) + t;
      assert ds[1..] != "" ==> ts[1..][0] == Tok(ds[1], false);
      V6Digit(ts, addr);
      V6Digits(ds[1..], t, addr + [ds[0]]);
      assert addr + [ds[0]] + ds[1..] == addr + ds;
    }
  }

  lemma V6Digit(ts: seq<Tok>, addr: string)
    requires ts != [] && ts[0].Tok? && !ts[0].pct && ('0' <= ts[0].c <= '9' || ts[0].c == ':') && Sound(ts[1..])
    ensures V6(ts, addr) == V6(ts[1..], addr + [ts[0].c])
  {
  }

  /** The bracket of a list does not start an IPv6 address. */
  lemma ListIsNotV6(es: seq<Entry>, rest: seq<Tok>)
    requires es != [] && !LooksLikeV6(es) && HeadIs(rest, ']')
    ensures V6(PrintEntries(es) + rest, "") == No
  {
    hide Lit, Enc, E.Digits, PrintEntry;
    var e := es[0];
    var t := if |es| == 1 then rest else Lit(",") + (PrintEntries(es[1..]) + rest);
    assert PrintEntries(es) + rest == PrintEntry(e) + t;
    if |es| > 1 {
      CommaEnds(PrintEntries(es[1..]) + rest);
    }
    FirstEntry(e, t, |es| > 1);
  }

  lemma V6Stops(ts: seq<Tok>)
    requires ts != [] && ts[0] != Bad && (!InV6(ts[0]) || (ts[0].pct && Sound(ts[1..])))
    ensures V6(ts, "") == No
  {
  }

  lemma V6StopsAtName(s: string, t: seq<Tok>)
    requires s != "" && Sound(t)
    ensures V6(Enc(s) + t, "") == No
  {
    var ts := Enc(s) + t;
    SoundEnc(s[1..], t);
    assert ts[0] == Tok(s[0], true) && ts[1..] == Enc(s[1..]) + t;
    V6Stops(ts);
  }

  lemma V6StopsAtEntry(t: seq<Tok>)
    ensures V6(Lit("(address=") + t, "") == No
  {
    hide V6;
    assert (Lit("(address=") + t)[0] == Tok('(', false);
    V6Stops(Lit("(address=") + t);
  }

  lemma FirstEntry(e: Entry, t: seq<Tok>, more: bool)
    requires EndsHost(t) && t != [] && (more ==> HeadIs(t, ','))
    requires e.prio.None? && e.addr.host == "" && e.addr.port.Some? ==> more
    ensures V6(PrintEntry(e) + t, "") == No
  {
    hide E.Digits, V6, In, Enc, Lit, PrintAddress, PrintPort;
    if e.prio.Some? {
      var x := PrintAddress(e.addr) + (Lit(",priority=") + (Lit(E.Digits(e.prio.value)) + Lit(")")));
      assert PrintEntry(e) + t == Lit("(address=") + (x + t);
      V6StopsAtEntry(x + t);
    } else {
      AfterName(e.addr, t);
      var p := PrintPort(e.addr) + t;
      if e.addr.host != "" {
        V6StopsAtName(e.addr.host, p);
      } else {
        assert Enc("") + p == p;
        if e.addr.port.Some? {
          PortIsNotV6(e.addr, t);
        } else {
          NoPort(e.addr, t);
          V6Stops(t);
        }
      }
    }
  }

  lemma PortIsNotV6(a: Address, t: seq<Tok>)
    requires a.port.Some? && HeadIs(t, ',')
    ensures V6(PrintPort(a) + t, "") == No
  {
    hide V6, PrintPort;
    PortInV6(a, t);
    V6Ends(t, ":" + PortText(a));
  }

  /** A colon and a port look like the start of an IPv6 address. */
  lemma PortInV6(a: Address, t: seq<Tok>)
    requires a.port.Some? && Sound(t)
    ensures V6(PrintPort(a) + t, "") == V6(t, ":" + PortText(a))
  {
    hide E.Digits, V6, Lit;
    var ds := E.Digits(a.port.value);
    PrintedDigits(a.port.value);
    var more := Lit(ds) + t;
    assert PrintPort(a) + t == Lit(":") + more;
    SoundLit(ds, t);
    ColonFirst(more);
    V6Digit(Lit(":") + more, "");
    V6Digits(ds, t, ":");
    assert "" + ":" == ":";
  }

  lemma ColonFirst(t: seq<Tok>)
    ensures (Lit(":") + t)[0] == Tok(':', false) && (Lit(":") + t)[1..] == t
  {
  }

  lemma V6Ends(t: seq<Tok>, addr: string)
    requires t != [] && addr != ""
    ensures HeadIs(t, ',') ==> V6(t, addr) == No
    ensures HeadIs(t, ']') && Sound(t[1..]) ==> V6(t, addr) == Ok(addr, t[1..])
  {
  }

  lemma ListIsRead(es: seq<Entry>, rest: seq<Tok>)
    requires es != [] && !LooksLikeV6(es) && Sound(rest)
    ensures Target(PrintHosts(List(es)) + rest) == Outcome(EntriesRead(es), rest)
  {
    hide Lit, V6, Entries, PrintEntries, EntriesRead, In, Plain;
    var close := Lit("]") + rest;
    var r := PrintEntries(es) + close;
    var ts := Lit("[") + r;
    assert PrintHosts(List(es)) + rest == ts;
    OneLit(']', rest);
    assert HeadIs(close, ']') by { assert close[0] == Lit("]")[0]; }
    SoundEntries(es, close);
    OneLit('[', r);
    assert HeadIs(ts, '[') by { assert ts[0] == Lit("[")[0]; }
    ListIsNotV6(es, close);
    assert IpAddress(ts) == No;
    BracketIsNoHost(ts);
    EntriesAreRead(es, close);
    assert Host(ts) == Ok(Found(true, true, Addr("", "")), ts);
  }

  lemma BracketIsNoHost(ts: seq<Tok>)
    requires HeadIs(ts, '[')
    ensures Many(ts, HostChars) == Ok("", ts) && Many(ts, UserChars) == Ok("", ts) && !HeadIs(ts, '(')
  {
  }

  // Credentials and the whole connection

  predicate EndsTarget(ts: seq<Tok>) { ts == [] || (KindOf(ts[0]).Punct? && KindOf(ts[0]).c in "/?") }

  lemma TargetEnds(ts: seq<Tok>)
    requires EndsTarget(ts)
    ensures EndsHost(ts) && Sound(ts) && Ends(ts, UserChars) && Ends(ts, PasswordChars) && !HeadIs(ts, '@')
      && !HeadIs(ts, ':')
  {
  }

  lemma PortEnds(t: seq<Tok>)
    requires HeadIs(t, ':') || HeadIs(t, '@')
    ensures Ends(t, UserChars)
    ensures HeadIs(t, '@') ==> Ends(t, PasswordChars)
  {
  }

  /** A host without credentials is not taken for credentials. */
  lemma HostIsNoUser(a: Address, rest: seq<Tok>)
    requires EndsTarget(rest)
    ensures UserInfo(PrintAddress(a) + rest) == No
  {
    hide Many, E.Digits, Enc, Lit, PrintAddress, PrintPort, In;
    TargetEnds(rest);
    AfterName(a, rest);
    var t := PrintPort(a) + rest;
    if a.port.Some? {
      PortEnds(t);
      OneLit(':', Lit(PortText(a)) + rest);
      PrintedDigits(a.port.value);
      ManyDigits(PortText(a), rest, PasswordChars);
    } else {
      NoPort(a, rest);
    }
    ManyEnc(a.host, t, UserChars);
  }

  lemma SingleIsRead(a: Address, rest: seq<Tok>)
    requires EndsTarget(rest)
    ensures Target(PrintAddress(a) + rest) == Outcome(HostsRead(Single(a)), rest)
    ensures !HeadIs(PrintAddress(a) + rest, '@')
  {
    hide Host, Enc, Lit, PrintAddress, PrintPort, Report, AddressRead, GoodAddress;
    ReportRoundTrip(a, 0);
    TargetEnds(rest);
    AfterName(a, rest);
    HeadOfName(a.host, PrintPort(a) + rest, '[');
    HeadOfName(a.host, PrintPort(a) + rest, '@');
    HostRoundTrip(a, rest);
  }

  /** What is reported for any hosts, which are not taken for credentials. */
  lemma HostsAreRead(h: Hosts, rest: seq<Tok>)
    requires (h.List? ==> h.entries != []) && EndsTarget(rest)
    ensures
      var ts := PrintHosts(h) + rest;
      Target(ts) == Outcome(HostsRead(h), rest) && UserInfo(ts) == No && !HeadIs(ts, '@') && Sound(ts)
  {
    hide Target, UserInfo, Lit, PrintEntries, PrintAddress, EntriesRead, AddressRead;
    TargetEnds(rest);
    if h.Single? {
      SingleIsRead(h.addr, rest);
      HostIsNoUser(h.addr, rest);
      SoundAddress(h.addr, rest);
    } else {
      if LooksLikeV6(h.entries) {
        assert h.entries == [h.entries[0]];
        PortOnlyListIsV6(h.entries[0], rest);
      } else {
        ListIsRead(h.entries, rest);
      }
      var inner := PrintEntries(h.entries) + Lit("]") + rest;
      assert PrintHosts(h) + rest == Lit("[") + inner;
      BracketIsNoUser(inner);
    }
  }

  lemma BracketIsNoUser(rest: seq<Tok>)
    ensures var ts := Lit("[") + rest; UserInfo(ts) == No && !HeadIs(ts, '@') && Sound(ts)
  {
    var ts := Lit("[") + rest;
    assert ts[0] == Tok('[', false);
    BracketIsNoHost(ts);
  }

  lemma CredRoundTrip(c: Cred, rest: seq<Tok>)
    requires c.user != "" && Sound(rest)
    ensures UserInfo(PrintCred(c) + rest) == Ok(c, rest)
    ensures !HeadIs(PrintCred(c) + rest, '@') && Sound(PrintCred(c) + rest)
  {
    hide Many, Enc, Lit, In;
    var at := Lit("@") + rest;
    OneLit('@', rest);
    assert at[0] == Lit("@")[0];
    PortEnds(at);
    var p := if c.password.Some? then Lit(":") + Enc(c.password.value) else [];
    var t := p + at;
    assert PrintCred(c) + rest == Enc(c.user) + t;
    if c.password.Some? {
      var r := Enc(c.password.value) + at;
      assert t == Lit(":") + r;
      SoundEnc(c.password.value, at);
      OneLit(':', r);
      assert t[0] == Lit(":")[0];
      PortEnds(t);
      ManyEnc(c.password.value, at, PasswordChars);
    } else {
      assert t == at;
      OneNo(t, ':');
    }
    ManyEnc(c.user, t, UserChars);
    SoundEnc(c.user, t);
    assert (Enc(c.user) + t)[0] == Enc(c.user)[0];
  }

  lemma LoginIsReported(c: Cred)
    ensures CredEvents(c) == LoginEvents(Some(c))
  {
    assert [User(c.user)] + [] == [User(c.user)];
  }

  lemma ConnectionIsRead(u: Uri, rest: seq<Tok>)
    requires WellFormed(u) && EndsTarget(rest)
    ensures
      var ts := (if u.cred.Some? then PrintCred(u.cred.value) else []) + (PrintHosts(u.hosts) + rest);
      var hosts := HostsRead(u.hosts);
      && Connection(ts) ==
         (if hosts.Some? then Ok(LoginEvents(u.cred) + hosts.value, rest) else Err)
      && Sound(ts)
  {
    hide Target, UserInfo, PrintHosts, PrintCred, HostsRead, GoodQuery;
    HostsAreRead(u.hosts, rest);
    var hs := PrintHosts(u.hosts) + rest;
    if u.cred.Some? {
      CredRoundTrip(u.cred.value, hs);
      LoginIsReported(u.cred.value);
    } else {
      assert [] + hs == hs;
      assert HostsRead(u.hosts).Some? ==> [] + HostsRead(u.hosts).value == HostsRead(u.hosts).value;
    }
  }

  // Schema and query

  predicate EndsPath(ts: seq<Tok>) { ts == [] || HeadIs(ts, '?') }

  lemma PathEnds(ts: seq<Tok>)
    requires EndsPath(ts)
    ensures Ends(ts, DbChars) && EndsTarget(ts) && Sound(ts)
  {
  }

  lemma PathRoundTrip(s: Option<string>, rest: seq<Tok>)
    requires EndsPath(rest)
    ensures Path(PrintPath(s) + rest) == Ok(if s.Some? then [Schema(s.value)] else [], rest)
    ensures EndsTarget(PrintPath(s) + rest)
  {
    hide Many, Enc, In;
    PathEnds(rest);
    if s.Some? {
      var r := Enc(s.value) + rest;
      assert PrintPath(s) + rest == Lit("/") + r;
      SoundEnc(s.value, rest);
      OneLit('/', r);
      ManyEnc(s.value, rest, DbChars);
      assert (Lit("/") + r)[0] == Tok('/', false);
    } else {
      assert PrintPath(s) + rest == rest;
    }
  }

  predicate EndsItem(ts: seq<Tok>) { ts == [] || HeadIs(ts, '&') }

  lemma ItemEnds(ts: seq<Tok>)
    requires EndsItem(ts) || HeadIs(ts, '=')
    ensures Ends(ts, UntilEq) && Sound(ts)
    ensures EndsItem(ts) ==> Ends(ts, UntilAmp) && !HeadIs(ts, '[')
  {
  }

  lemma ValueEnds(ts: seq<Tok>)
    requires HeadIs(ts, ',') || HeadIs(ts, ']')
    ensures Ends(ts, UntilComma) && Sound(ts)
  {
  }

  lemma {:induction false} ValuesRoundTrip(vs: seq<string>, rest: seq<Tok>)
    requires vs != [] && HeadIs(rest, ']')
    ensures Values(PrintValues(vs) + rest) == Ok(vs, rest) && Sound(PrintValues(vs) + rest)
    decreases |vs|
  {
    hide Many, Enc, In, Lit;
    if |vs| == 1 {
      ValueEnds(rest);
      ManyEnc(vs[0], rest, UntilComma);
      OneNo(rest, ',');
      SoundEnc(vs[0], rest);
      assert vs == [vs[0]];
    } else {
      var more := PrintValues(vs[1..]) + rest;
      var t := Lit(",") + more;
      assert PrintValues(vs) + rest == Enc(vs[0]) + t;
      ValuesRoundTrip(vs[1..], rest);
      OneLit(',', more);
      assert t[0] == Lit(",")[0];
      ValueEnds(t);
      ManyEnc(vs[0], t, UntilComma);
      SoundEnc(vs[0], t);
      assert vs == [vs[0]] + vs[1..];
    }
  }

  lemma ListValueRoundTrip(key: string, vs: seq<string>, rest: seq<Tok>)
    requires vs != [] && Sound(rest)
    ensures
      var ts := Lit("[") + (PrintValues(vs) + (Lit("]") + rest));
      Value(ts, key) == Ok(KeyList(key, vs), rest) && Sound(ts)
  {
    hide Values, PrintValues, Many, Lit;
    var close := Lit("]") + rest;
    OneLit(']', rest);
    assert close[0] == Lit("]")[0];
    ValuesRoundTrip(vs, close);
    OneLit('[', PrintValues(vs) + close);
    SoundLit("[", PrintValues(vs) + close);
  }

  lemma ItemRoundTrip(q: QueryItem, rest: seq<Tok>)
    requires (q.ListOf? ==> q.vals != []) && EndsItem(rest)
    ensures Item(PrintItem(q) + rest) == Ok(ItemEvent(q), rest) && Sound(PrintItem(q) + rest)
  {
    hide Many, Enc, In, Lit, PrintValues, Values;
    ItemEnds(rest);
    if q.Flag? {
      ManyEnc(q.key, rest, UntilEq);
      OneNo(rest, '=');
      SoundEnc(q.key, rest);
    } else {
      var v := if q.Pair? then Enc(q.val) + rest else Lit("[") + (PrintValues(q.vals) + (Lit("]") + rest));
      var t := Lit("=") + v;
      assert PrintItem(q) + rest == Enc(q.key) + t;
      if q.Pair? {
        SoundEnc(q.val, rest);
        HeadOfName(q.val, rest, '[');
        ManyEnc(q.val, rest, UntilAmp);
        OneNo(v, '[');
      } else {
        ListValueRoundTrip(q.key, q.vals, rest);
      }
      OneLit('=', v);
      assert t[0] == Lit("=")[0];
      ItemEnds(t);
      ManyEnc(q.key, t, UntilEq);
      SoundEnc(q.key, t);
    }
  }

  lemma {:induction false} ItemsRoundTrip(q: seq<QueryItem>)
    requires q != [] && GoodQuery(q)
    ensures Items(PrintItems(q)) == Ok(ItemEvents(q), []) && Sound(PrintItems(q))
    decreases |q|
  {
    hide Item, PrintItem, Lit, ItemEvent;
    if |q| == 1 {
      ItemRoundTrip(q[0], []);
      assert PrintItem(q[0]) + [] == PrintItem(q[0]);
      assert q[1..] == [] && ItemEvents(q) == [ItemEvent(q[0])];
    } else {
      var more := PrintItems(q[1..]);
      ItemsRoundTrip(q[1..]);
      OneLit('&', more);
      var t := Lit("&") + more;
      assert t[0] == Lit("&")[0];
      ItemRoundTrip(q[0], t);
    }
  }

  lemma QueryRoundTrip(q: seq<QueryItem>)
    requires GoodQuery(q)
    ensures QueryPart(PrintQuery(q)) == Ok(ItemEvents(q), []) && EndsPath(PrintQuery(q))
  {
    hide Items, PrintItems;
    if q != [] {
      ItemsRoundTrip(q);
      OneLit('?', PrintItems(q));
      assert PrintQuery(q)[0] == Tok('?', false);
    }
  }

  lemma TokensAreRead(u: Uri)
    requires WellFormed(u)
    ensures Body(PrintTokens(u)) == UriRead(u)
  {
    hide Connection, Path, QueryPart, PrintPath, PrintQuery, PrintHosts, PrintCred, HostsRead, ItemEvents, GoodQuery;
    var q := PrintQuery(u.query);
    QueryRoundTrip(u.query);
    PathRoundTrip(u.schema, q);
    ConnectionIsRead(u, PrintPath(u.schema) + q);
    assert !Broken(PrintTokens(u));
  }

  // Printing to characters

  function HexChar(n: nat): char
    requires n < 16
  {
    "0123456789ABCDEF"[n]
  }

  function PrintTok(t: Tok): string
    requires Printable(t)
  {
    if t.pct then ['%', HexChar(t.c as nat / 16), HexChar(t.c as nat % 16)] else [t.c]
  }

  /** A token that can be written: one byte, or a character that stands for itself. */
  predicate Printable(t: Tok) { t.Tok? && if t.pct then t.c as nat < 256 else KindOf(t) != Invalid }

  predicate AllPrintable(ts: seq<Tok>) { forall i :: 0 <= i < |ts| ==> Printable(ts[i]) }

  function PrintAll(ts: seq<Tok>): string
    requires AllPrintable(ts)
  {
    if ts == [] then "" else PrintTok(ts[0]) + PrintAll(ts[1..])
  }

  lemma HexRoundTrip(n: nat)
    requires n < 16
    ensures HexDigit(HexChar(n)) == Some(n)
  {
  }

  lemma FirstPrinted(t: Tok, rest: string)
    requires Printable(t)
    ensures FirstTok(PrintTok(t) + rest) == (t, |PrintTok(t)|)
  {
    var s := PrintTok(t) + rest;
    if t.pct {
      HexRoundTrip(t.c as nat / 16);
      HexRoundTrip(t.c as nat % 16);
      assert s[0] == '%' && s[1] == HexChar(t.c as nat / 16) && s[2] == HexChar(t.c as nat % 16);
    } else {
      assert s[0] == t.c;
      assert KindOf(Tok('%', false)) == Invalid;
    }
  }

  lemma {:induction false} LexPrinted(ts: seq<Tok>)
    requires AllPrintable(ts)
    ensures Lex(PrintAll(ts)) == ts
    decreases |ts|
  {
    hide FirstTok, PrintTok;
    if ts != [] {
      var rest := PrintAll(ts[1..]);
      FirstPrinted(ts[0], rest);
      PrintTokNonEmpty(ts[0]);
      LexPrinted(ts[1..]);
      assert (PrintTok(ts[0]) + rest)[|PrintTok(ts[0])|..] == rest;
      assert ts == [ts[0]] + ts[1..];
    }
  }

  lemma PrintTokNonEmpty(t: Tok)
    requires Printable(t)
    ensures PrintTok(t) != ""
  {
  }

  /** Names made of bytes. */
  predicate Bytes(s: string) { forall i :: 0 <= i < |s| ==> s[i] as nat < 256 }

  predicate BytesItem(q: QueryItem) {
    && Bytes(q.key) && (q.Pair? ==> Bytes(q.val))
    && (q.ListOf? ==> forall i :: 0 <= i < |q.vals| ==> Bytes(q.vals[i]))
  }

  predicate BytesUri(u: Uri) {
    && (u.cred.Some? ==>
          && Bytes(u.cred.value.user)
          && (u.cred.value.password.Some? ==> Bytes(u.cred.value.password.value)))
    && (u.hosts.Single? ==> Bytes(u.hosts.addr.host))
    && (u.hosts.List? ==> forall i :: 0 <= i < |u.hosts.entries| ==> Bytes(u.hosts.entries[i].addr.host))
    && (u.schema.Some? ==> Bytes(u.schema.value))
    && forall i :: 0 <= i < |u.query| ==> BytesItem(u.query[i])
  }

  lemma EncPrintable(s: string)
    requires Bytes(s)
    ensures AllPrintable(Enc(s))
  {
  }

  predicate ValidChars(s: string) { forall i :: 0 <= i < |s| ==> KindOf(Tok(s[i], false)) != Invalid }

  lemma LitPrintable(s: string)
    requires ValidChars(s)
    ensures AllPrintable(Lit(s))
  {
  }

  lemma DigitsPrintable(n: nat)
    ensures AllPrintable(Lit(E.Digits(n)))
  {
    hide E.Digits, Lit;
    PrintedDigits(n);
    DigitsValid(E.Digits(n));
    LitPrintable(E.Digits(n));
  }

  lemma DigitsValid(s: string)
    requires AllDigitChars(s)
    ensures ValidChars(s)
  {
  }

  lemma Words()
    ensures ValidChars("(address=") && ValidChars(",priority=") && ValidChars(")") && ValidChars("[") && ValidChars("]")
    ensures ValidChars(":") && ValidChars("@") && ValidChars(",") && ValidChars("/") && ValidChars("?")
    ensures ValidChars("=") && ValidChars("&")
  {
  }

  lemma AddressPrintable(a: Address)
    requires Bytes(a.host)
    ensures AllPrintable(PrintAddress(a))
  {
    hide E.Digits, Lit, Enc, Printable;
    Words();
    EncPrintable(a.host);
    LitPrintable(":");
    if a.port.Some? {
      DigitsPrintable(a.port.value);
    }
  }

  lemma EntryPrintable(e: Entry)
    requires Bytes(e.addr.host)
    ensures AllPrintable(PrintEntry(e))
  {
    hide E.Digits, Lit, PrintAddress, Printable;
    Words();
    AddressPrintable(e.addr);
    LitPrintable("(address=");
    LitPrintable(",priority=");
    LitPrintable(")");
    if e.prio.Some? {
      DigitsPrintable(e.prio.value);
    }
  }

  lemma {:induction false} EntriesPrintable(es: seq<Entry>)
    requires es != [] && forall i :: 0 <= i < |es| ==> Bytes(es[i].addr.host)
    ensures AllPrintable(PrintEntries(es))
    decreases |es|
  {
    hide Lit, PrintEntry, Printable;
    Words();
    EntryPrintable(es[0]);
    LitPrintable(",");
    if |es| > 1 {
      EntriesPrintable(es[1..]);
    }
  }

  lemma {:induction false} ValuesPrintable(vs: seq<string>)
    requires vs != [] && forall i :: 0 <= i < |vs| ==> Bytes(vs[i])
    ensures AllPrintable(PrintValues(vs))
    decreases |vs|
  {
    hide Lit, Enc, Printable;
    Words();
    EncPrintable(vs[0]);
    LitPrintable(",");
    if |vs| > 1 {
      ValuesPrintable(vs[1..]);
    }
  }

  lemma ItemPrintable(q: QueryItem)
    requires BytesItem(q) && (q.ListOf? ==> q.vals != [])
    ensures AllPrintable(PrintItem(q))
  {
    hide Lit, Enc, Printable, PrintValues;
    Words();
    EncPrintable(q.key);
    LitPrintable("=");
    LitPrintable("[");
    LitPrintable("]");
    match q {
      case Flag(_) =>
      case Pair(_, v) => EncPrintable(v);
      case ListOf(_, vs) => ValuesPrintable(vs);
    }
  }

  lemma {:induction false} ItemsPrintable(q: seq<QueryItem>)
    requires q != [] && GoodQuery(q) && forall i :: 0 <= i < |q| ==> BytesItem(q[i])
    ensures AllPrintable(PrintItems(q))
    decreases |q|
  {
    hide Lit, PrintItem, Printable, BytesItem;
    Words();
    ItemPrintable(q[0]);
    LitPrintable("&");
    if |q| > 1 {
      ItemsPrintable(q[1..]);
    }
  }

  lemma CredPrintable(c: Cred)
    requires Bytes(c.user) && (c.password.Some? ==> Bytes(c.password.value))
    ensures AllPrintable(PrintCred(c))
  {
    hide Lit, Enc, Printable;
    Words();
    EncPrintable(c.user);
    LitPrintable(":");
    LitPrintable("@");
    if c.password.Some? {
      EncPrintable(c.password.value);
    }
  }

  lemma HostsPrintable(u: Uri)
    requires WellFormed(u) && BytesUri(u)
    ensures AllPrintable(PrintHosts(u.hosts))
  {
    hide Lit, PrintAddress, PrintEntries, Printable, GoodAddress, GoodEntry, BytesItem;
    Words();
    LitPrintable("[");
    LitPrintable("]");
    if u.hosts.Single? {
      AddressPrintable(u.hosts.addr);
    } else {
      EntriesPrintable(u.hosts.entries);
    }
  }

  lemma TokensPrintable(u: Uri)
    requires WellFormed(u) && BytesUri(u)
    ensures AllPrintable(PrintTokens(u))
  {
    hide Lit, Enc, PrintHosts, PrintItems, PrintCred, Printable, GoodAddress, GoodEntry, BytesItem;
    Words();
    HostsPrintable(u);
    LitPrintable("/");
    LitPrintable("?");
    if u.cred.Some? {
      CredPrintable(u.cred.value);
    }
    if u.schema.Some? {
      EncPrintable(u.schema.value);
    }
    if u.query != [] {
      ItemsPrintable(u.query);
    }
  }

  function PrintUri(u: Uri): string
    requires WellFormed(u) && BytesUri(u)
  {
    TokensPrintable(u);
    "mysqlx://" + PrintAll(PrintTokens(u))
  }

  lemma SchemeFound(rest: string)
    ensures AfterScheme("mysqlx://" + rest, true) == Some(rest)
    ensures AfterScheme("mysqlx://" + rest, false) == Some(rest)
  {
    var s := "mysqlx://" + rest;
    assert s[6..9] == "://" && s[..6] == "mysqlx" && s[9..] == rest;
    assert s[0] == 'm' && s[1] == 'y' && s[2] == 's' && s[3] == 'q' && s[4] == 'l' && s[5] == 'x';
    assert FindScheme(s, 6) == 6;
    assert FindScheme(s, 5) == 6;
    assert FindScheme(s, 4) == 6;
    assert FindScheme(s, 3) == 6;
    assert FindScheme(s, 2) == 6;
    assert FindScheme(s, 1) == 6;
  }

  /** What the parser reports for every printed URI; it is read back as exactly its components if and
      only if its hosts are good. */
  lemma UriIsReadBack(u: Uri, force: bool)
    requires WellFormed(u) && BytesUri(u)
    ensures ParseUri(PrintUri(u), force) == UriRead(u)
    ensures ParseUri(PrintUri(u), force) == Some(UriEvents(u)) <==> GoodUri(u)
  {
    hide WellFormed, GoodUri, BytesUri, PrintTokens, PrintAll, Body, Lex, AfterScheme, UriEvents, UriRead;
    TokensPrintable(u);
    SchemeFound(PrintAll(PrintTokens(u)));
    LexPrinted(PrintTokens(u));
    TokensAreRead(u);
    UriReadIsEvents(u);
  }

  /** The same for the parser itself. */
  method PrintAndParse(u: Uri, force: bool) returns (r: Option<seq<Event>>)
    requires WellFormed(u) && BytesUri(u)
    ensures r == Some(UriEvents(u)) <==> GoodUri(u)
  {
    hide WellFormed, GoodUri, BytesUri, ParseUri, PrintUri, UriEvents, UriRead;
    UriIsReadBack(u, force);
    r := UriParser.ParseString(PrintUri(u), force);
  }

  // What is not read back

  lemma V6Colon(a: Address, t: seq<Tok>)
    requires a.port.Some? && HeadIs(t, ']') && Sound(t[1..])
    ensures V6(PrintPort(a) + t, "") == Ok(":" + PortText(a), t[1..])
  {
    hide V6, PrintPort;
    PortInV6(a, t);
    V6Ends(t, ":" + PortText(a));
  }

  /** A list that consists of a port only is reported as an IPv6 address. */
  lemma PortOnlyListIsV6(e: Entry, rest: seq<Tok>)
    requires LooksLikeV6([e]) && Sound(rest) && !HeadIs(rest, ':')
    ensures Target(PrintHosts(List([e])) + rest) == Ok([HostIs(0, ":" + PortText(e.addr))], rest)
  {
    hide Lit, E.Digits, V6, Plain, In;
    var close := Lit("]") + rest;
    var r := PrintPort(e.addr) + close;
    assert PrintAddress(e.addr) == Enc("") + PrintPort(e.addr) == PrintPort(e.addr);
    assert PrintEntries([e]) == PrintEntry(e);
    var ts := Lit("[") + r;
    assert PrintHosts(List([e])) + rest == ts;
    OneLit(']', rest);
    assert close[0] == Lit("]")[0] && close[1..] == rest;
    V6Colon(e.addr, close);
    assert PrintPort(e.addr)[0] == Lit(":")[0];
    OneLit('[', r);
    OneNo(rest, ':');
    assert ts[0] == Lit("[")[0];
  }

  /** The priority 65535 is reported as if none had been given, and a larger one is an error. */
  lemma TopPriorityIsLost(a: Address, prio: nat)
    requires prio >= Short - 1
    ensures EntryRead(Entry(a, Some(prio))) == if prio == Short - 1 then AddressRead(a, 0) else None
  {
  }
}
