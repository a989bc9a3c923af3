/** Whole URIs that are a host in plain characters and a port: `mysqlx://host:port`. */
module UriPlain {

  import opened Wrappers
  import E = ExprSyntax
  import opened UriSyntax
  import opened UriRoundTrip
  import opened UriHosts
  import UriParser

  function PlainUri(h: string, port: nat): string { "mysqlx://" + (h + (":" + E.Digits(port))) }

  function PortTokens(port: nat): seq<Tok> { Lit(":") + Lit(E.Digits(port)) }

  // Reading the characters

  predicate Readable(s: string) { forall i :: 0 <= i < |s| ==> KindOf(Tok(s[i], false)) != Invalid }

  lemma {:induction false} LexPlain(s: string)
    requires Readable(s)
    ensures Lex(s) == Lit(s)
    decreases |s|
  {
    hide KindOf;
    if s != "" {
      PercentIsInvalid();
      assert s[0] != '%';
      LexPlain(s[1..]);
    }
  }

  lemma PercentIsInvalid()
    ensures KindOf(Tok('%', false)) == Invalid
  {
  }

  lemma PlainReadable(h: string, port: nat)
    requires PlainHost(h)
    ensures Readable(h + (":" + E.Digits(port)))
  {
    hide E.Digits;
    PrintedDigits(port);
  }

  lemma TokensOf(h: string, port: nat)
    requires PlainHost(h)
    ensures Lex(h + (":" + E.Digits(port))) == Lit(h) + PortTokens(port)
  {
    hide Lex, Lit, E.Digits, PlainHost, Readable;
    PlainReadable(h, port);
    LexPlain(h + (":" + E.Digits(port)));
    LitAppend(h, ":" + E.Digits(port));
    LitAppend(":", E.Digits(port));
  }

  lemma PortStart(port: nat)
    ensures HeadIs(PortTokens(port), ':') && One(PortTokens(port), ':') == Ok((), Lit(E.Digits(port)))
    ensures Ends(PortTokens(port), UserChars) && Ends(PortTokens(port), HostChars)
  {
    hide E.Digits, Lit, In;
    var ds := E.Digits(port);
    PrintedDigits(port);
    assert Lit(ds) + [] == Lit(ds);
    SoundLit(ds, []);
    OneLit(':', Lit(ds));
    ColonIs(Lit(ds));
  }

  lemma ColonIs(rest: seq<Tok>)
    ensures var ts := Lit(":") + rest; HeadIs(ts, ':') && Ends(ts, UserChars) && Ends(ts, HostChars)
  {
    assert (Lit(":") + rest)[0] == Tok(':', false);
  }

  // Credentials

  lemma UserChar(c: char)
    requires HostChar(c) && c != '@'
    ensures In(Tok(c, false), UserChars)
  {
  }

  lemma {:induction false} ManyUser(h: string, t: seq<Tok>)
    requires PlainHost(h) && '@' !in h && Ends(t, UserChars)
    ensures Many(Lit(h) + t, UserChars) == Ok(h, t)
    decreases |h|
  {
    hide In, Many, HostChar;
    var ts := Lit(h) + t;
    if h == "" {
      assert ts == t;
      ManyEnd(t, UserChars);
    } else {
      assert ts[1..] == Lit(h[1..]) + t;
      assert h[1..] != "" ==> ts[1..][0] == Tok(h[1], false);
      UserChar(h[0]);
      ManyUser(h[1..], t);
      ManyStep(ts, UserChars, h, t);
    }
  }

  /** Without `@` the host is not taken for credentials. */
  lemma NoUser(h: string, port: nat)
    requires PlainHost(h) && '@' !in h
    ensures UserInfo(Lit(h) + PortTokens(port)) == No
  {
    hide Many, In, E.Digits, Lit, PlainHost, PortTokens;
    var ds := E.Digits(port);
    PortStart(port);
    ManyUser(h, PortTokens(port));
    PrintedDigits(port);
    assert Lit(ds) + [] == Lit(ds);
    ManyDigits(ds, [], PasswordChars);
  }

  function FirstAt(h: string): (k: nat)
    requires '@' in h
    ensures k < |h| && h[k] == '@' && '@' !in h[..k]
  {
    if h[0] == '@' then 0 else 1 + FirstAt(h[1..])
  }

  /** With `@` it is, or is an error. */
  lemma AtIsUser(h: string, t: seq<Tok>)
    requires PlainHost(h) && '@' in h
    ensures
      var r := Connection(Lit(h) + t);
      r == Err || (r.Ok? && r.v != [] && r.v[0].User?)
  {
    hide Many, In, Lit, HostChar, Target;
    var k := FirstAt(h);
    var user, more := h[..k], h[k..];
    assert h == user + more;
    LitAppend(user, more);
    var rest := Lit(more) + t;
    assert Lit(h) + t == Lit(user) + rest;
    LitHead(more, t);
    AtEnds(rest);
    if k == 0 {
      assert Lit(user) == [];
      assert Lit(h) + t == rest;
    } else {
      LitHead(h, t);
      HostCharNoAt(h[0]);
      ManyUser(user, rest);
    }
  }

  lemma LitHead(h: string, t: seq<Tok>)
    requires h != ""
    ensures (Lit(h) + t)[0] == Tok(h[0], false)
  {
  }

  lemma AtEnds(ts: seq<Tok>)
    requires ts != [] && ts[0] == Tok('@', false)
    ensures HeadIs(ts, '@') && !HeadIs(ts, ':') && Ends(ts, UserChars)
  {
  }

  lemma HostCharNoAt(c: char)
    requires HostChar(c)
    ensures c != '@' ==> KindOf(Tok(c, false)) != Punct('@')
    ensures KindOf(Tok(c, false)) !in {Punct('['), Punct('/'), Punct('?'), Punct(':')}
  {
  }

  // Hosts

  /** A host in parentheses is a path or an error. */
  lemma ParenthesisIsPath(ts: seq<Tok>)
    requires HeadIs(ts, '(')
    ensures Target(ts) == Err
      || (Target(ts).Ok? && |Target(ts).v| == 1 && (Target(ts).v[0].Socket? || Target(ts).v[0].Pipe?))
  {
    hide Balanced;
  }

  lemma TargetOf(h: string, port: nat)
    requires PlainHost(h) && (h == "" || h[0] != '(')
    ensures
      var r, t := Read(h, 0), PortTokens(port);
      Target(Lit(h) + t) ==
        if r.1 != "" then Ok([HostIs(0, r.0)], Lit(r.1) + t)
        else if port < Short then Ok([HostPort(0, r.0, port)], [])
        else Err
  {
    hide IpAddress, Lit, E.Digits, Read, PlainHost, Balanced;
    var ts, ds := Lit(h) + PortTokens(port), E.Digits(port);
    PrintedDigits(port);
    assert Lit(ds) + [] == Lit(ds);
    AddressOf(h, port, []);
    NoBracket(h, port);
  }

  lemma NoBracket(h: string, port: nat)
    requires PlainHost(h) && (h == "" || h[0] != '(')
    ensures
      var ts := Lit(h) + PortTokens(port);
      !HeadIs(ts, '(') && !HeadIs(ts, '[') && ts != [] && Sound(ts) && ('@' !in h ==> !HeadIs(ts, '@'))
  {
    hide E.Digits;
    var ts := Lit(h) + PortTokens(port);
    PortStart(port);
    if h == "" {
      assert ts == PortTokens(port);
    } else {
      LitHead(h, PortTokens(port));
      HostCharNoAt(h[0]);
    }
  }

  /** What is left of a host cannot follow a host. */
  lemma LeftoverIsError(x: string, t: seq<Tok>)
    requires x != "" && PlainHost(x)
    ensures Path(Lit(x) + t) == Ok([], Lit(x) + t) && QueryPart(Lit(x) + t) == Ok([], Lit(x) + t)
  {
    hide Lit, In;
    LitHead(x, t);
    HostCharNoAt(x[0]);
  }

  lemma {:induction false} ReadPlain(h: string, count: nat)
    requires count < 4 && PlainHost(h)
    ensures PlainHost(Read(h, count).1)
    decreases 4 - count
  {
    hide HostChar;
    if StartsWithDigit(h) {
      var r := h[UriHosts.Run(h)..];
      if count < 3 && r != "" && r[0] == '.' && StartsWithDigit(r[1..]) {
        ReadPlain(r[1..], count + 1);
      }
    }
  }

  /** What is reported for every host of plain characters without `@` or a leading parenthesis. */
  lemma PlainUriOf(h: string, port: nat, force: bool)
    requires PlainHost(h) && '@' !in h && (h == "" || h[0] != '(')
    ensures
      var r := Read(h, 0);
      ParseUri(PlainUri(h, port), force) ==
        if r.1 == "" && port < Short then Some([HostPort(0, r.0, port)]) else None
  {
    hide Lex, Lit, E.Digits, PlainHost, Read, PortTokens, Target, UserInfo, AfterScheme, Path, QueryPart;
    SchemeFound(h + (":" + E.Digits(port)));
    TokensOf(h, port);
    NoBracket(h, port);
    NoUser(h, port);
    TargetOf(h, port);
    ReadPlain(h, 0);
    var r := Read(h, 0);
    if r.1 != "" {
      LeftoverIsError(r.1, PortTokens(port));
    } else {
      NothingFollows();
      assert [HostPort(0, r.0, port)] + [] + [] == [HostPort(0, r.0, port)];
    }
  }

  lemma NothingFollows()
    ensures Path([]) == Ok([], []) && QueryPart([]) == Ok([], [])
  {
  }

  /** A URI of a plain host and a port is reported as that host and that port if and only if the port
      fits, the host has no `@` and no leading parenthesis, and it is kept: no dot after one to three
      leading groups of digits without a digit after it, and nothing after a fourth group. */
  lemma PlainUriIsRead(h: string, port: nat, force: bool)
    requires PlainHost(h)
    ensures
      ParseUri(PlainUri(h, port), force) == Some([HostPort(0, h, port)])
      <==> port < Short && '@' !in h && (h == "" || h[0] != '(') && Kept(h, 0)
  {
    hide Lex, Lit, E.Digits, PlainHost, Read, Kept, PortTokens, Target, UserInfo, AfterScheme, Connection, Path,
      QueryPart, ParseUri, PlainUri;
    ReadIsKept(h, 0);
    if '@' in h || (h != "" && h[0] == '(') {
      NotThatHost(h, port, force);
    } else {
      PlainUriOf(h, port, force);
    }
  }

  lemma NotThatHost(h: string, port: nat, force: bool)
    requires PlainHost(h) && ('@' in h || (h != "" && h[0] == '('))
    ensures
      var r := ParseUri(PlainUri(h, port), force);
      r.None? || (r.value != [] && !r.value[0].HostPort?)
  {
    hide Lex, Lit, E.Digits, PlainHost, PortTokens, Target, UserInfo, AfterScheme, Connection, Path, QueryPart;
    SchemeFound(h + (":" + E.Digits(port)));
    TokensOf(h, port);
    var ts := Lit(h) + PortTokens(port);
    if '@' in h {
      AtIsUser(h, PortTokens(port));
    } else {
      NoUser(h, port);
      LitHead(h, PortTokens(port));
      ParenthesisIsPath(ts);
      TargetOnly(ts);
    }
  }

  lemma TargetOnly(ts: seq<Tok>)
    requires HeadIs(ts, '(') && UserInfo(ts) == No
    ensures Connection(ts) == Target(ts)
  {
    hide Target, UserInfo;
  }

  /** The same for the parser itself. */
  method ParsePlain(h: string, port: nat, force: bool) returns (r: Option<seq<Event>>)
    requires PlainHost(h)
    ensures r == Some([HostPort(0, h, port)]) <==> port < Short && '@' !in h && (h == "" || h[0] != '(') && Kept(h, 0)
  {
    hide ParseUri, PlainHost, Kept, PlainUri;
    PlainUriIsRead(h, port, force);
    r := UriParser.ParseString(PlainUri(h, port), force);
  }

  predicate Group(ds: string) { ds != "" && AllDigitChars(ds) }

  lemma GroupHead(ds: string, t: string)
    requires Group(ds) && !StartsWithDigit(t)
    ensures var h := ds + t; StartsWithDigit(h) && h[..UriHosts.Run(h)] == ds && h[UriHosts.Run(h)..] == t
  {
    RunOfDigits(ds, t);
    assert (ds + t)[0] == ds[0];
  }

  lemma ReadGroup(ds: string, t: string, count: nat)
    requires Group(ds) && count < 3 && StartsWithDigit(t)
    ensures Read(ds + ("." + t), count).1 == Read(t, count + 1).1
  {
    hide UriHosts.Run;
    GroupHead(ds, "." + t);
    assert ("." + t)[1..] == t;
  }

  lemma ReadLast(ds: string, x: string)
    requires Group(ds) && !StartsWithDigit(x)
    ensures Read(ds + x, 3).1 == x
  {
    hide UriHosts.Run;
    GroupHead(ds, x);
  }

  lemma PlainGroup(ds: string, t: string)
    requires Group(ds) && PlainHost(t) && '@' !in t
    ensures PlainHost(ds + t) && '@' !in ds + t && (ds + t)[0] != '('
    ensures PlainHost("." + t) && '@' !in "." + t
  {
    hide In;
    forall i | 0 <= i < |ds|
      ensures HostChar(ds[i])
    {
      DigitChar(ds[i], HostChars);
    }
    DotIsPlain();
  }

  /** Anything after a fourth group makes the whole URI an error, as in `mysqlx://1.2.3.4x:80`. */
  lemma FourthGroupEnds(a: string, b: string, c: string, d: string, x: string, port: nat, force: bool)
    requires Group(a) && Group(b) && Group(c) && Group(d)
    requires PlainHost(x) && x != "" && !StartsWithDigit(x) && '@' !in x
    ensures ParseUri(PlainUri(a + ("." + (b + ("." + (c + ("." + (d + x)))))), port), force) == None
  {
    hide ParseUri, PlainHost, Read, PlainUri;
    var h3 := d + x;
    var h2 := c + ("." + h3);
    var h1 := b + ("." + h2);
    var h := a + ("." + h1);
    PlainGroup(d, x);
    PlainGroup(c, h3);
    PlainGroup(c, "." + h3);
    PlainGroup(b, h2);
    PlainGroup(b, "." + h2);
    PlainGroup(a, h1);
    PlainGroup(a, "." + h1);
    ReadLast(d, x);
    ReadGroup(c, h3, 2);
    ReadGroup(b, h2, 1);
    ReadGroup(a, h1, 0);
    PlainUriOf(h, port, force);
  }

  /** A group of digits and a dot before a name lose the dot, as in `mysqlx://10.example:33060`. */
  lemma DotIsLostInUri(ds: string, name: string, port: nat, force: bool)
    requires Group(ds) && PlainHost(name) && '@' !in name && !StartsWithDigit(name) && port < Short
    ensures ParseUri(PlainUri(ds + ("." + name), port), force) == Some([HostPort(0, ds + name, port)])
  {
    hide ParseUri, PlainHost, PlainUri, UriHosts.Run;
    GroupHead(ds, "." + name);
    assert ("." + name)[1..] == name;
    PlainGroup(ds, name);
    PlainGroup(ds, "." + name);
    PlainUriOf(ds + ("." + name), port, force);
  }

  // What can stand where as it is

  predicate Alphanumeric(c: char) { 'a' <= c <= 'z' || 'A' <= c <= 'Z' || '0' <= c <= '9' }

  /** The characters of each part that need no percent sign. */
  predicate Allowed(c: char, s: Set) {
    match s
    case UserChars => Alphanumeric(c) || c in "!$&'()*+,-.;=\\_~"
    case PasswordChars => Alphanumeric(c) || c in "!$&'()*+,-.:;=\\_~"
    case HostChars => Alphanumeric(c) || c in "!$&'()*+-.;=@\\_~"
    case DbChars => Alphanumeric(c) || c in "!$&'()*+,-.:;=@[]\\_~"
    case NpChars => Alphanumeric(c) || c in "!$&'*+,-./:;=?@[]\\_~"
    case Digits => c in "0123456789"
    case UntilEq => c !in "=&"
    case UntilAmp => c != '&'
    case UntilComma => c !in ",]"
  }

  /** All characters that can stand in a URI without a percent sign. */
  predicate Valid(c: char) { Alphanumeric(c) || c in "!$&'()*+,-./:;=?@[]\\_~" }

  lemma CharactersOf(c: char, s: Set)
    ensures KindOf(Tok(c, false)) != Invalid <==> Valid(c)
    ensures Valid(c) ==> (In(Tok(c, false), s) <==> Allowed(c, s))
    ensures In(Tok(c, true), s) <==> s != Digits
  {
    hide KindOf, Valid;
    KindIs(c);
    match s {
      case UserChars =>
      case PasswordChars =>
      case HostChars =>
      case DbChars =>
      case NpChars => PathChars(c);
      case Digits =>
      case UntilEq =>
      case UntilAmp =>
      case UntilComma =>
    }
  }

  lemma KindIs(c: char)
    ensures KindOf(Tok(c, true)) == Letter
    ensures KindOf(Tok(c, false)) != Invalid <==> Valid(c)
    ensures Valid(c) && Alphanumeric(c) ==> KindOf(Tok(c, false)) == if '0' <= c <= '9' then Digit else Letter
    ensures Valid(c) && !Alphanumeric(c) ==> KindOf(Tok(c, false)) == Punct(c)
  {
  }

  lemma PathChars(c: char)
    ensures Valid(c) ==> (In(Tok(c, false), NpChars) <==> Allowed(c, NpChars))
  {
  }

  /** A text of allowed characters is read as far as it goes. */
  lemma {:induction false} AllowedIsRead(t: string, s: Set, rest: seq<Tok>)
    requires (forall i :: 0 <= i < |t| ==> Valid(t[i]) && Allowed(t[i], s)) && Ends(rest, s)
    ensures Many(Lit(t) + rest, s) == Ok(t, rest)
    decreases |t|
  {
    hide In, Many, Valid, Allowed;
    var ts := Lit(t) + rest;
    if t == "" {
      assert ts == rest;
      ManyEnd(rest, s);
    } else {
      assert ts[1..] == Lit(t[1..]) + rest;
      assert t[1..] != "" ==> ts[1..][0] == Tok(t[1], false);
      CharactersOf(t[0], s);
      AllowedIsRead(t[1..], s, rest);
      ManyStep(ts, s, t, rest);
    }
  }

  // Schemes

  predicate MarkAt(s: string, k: nat) { k + 3 <= |s| && s[k..k + 3] == "://" }

  /** A text with a scheme is read after its first `://`, and the scheme must be `mysqlx`. A text without
      one is read as a whole, unless a scheme is asked for or it starts with that word. */
  lemma SchemeOf(s: string, k: nat, force: bool)
    requires k <= |s| && (k < |s| ==> MarkAt(s, k)) && forall j: nat :: j < k ==> !MarkAt(s, j)
    ensures AfterScheme(s, force) ==
      if k < |s| then if s[..k] == "mysqlx" then Some(s[k + 3..]) else None
      else if force || StartsWith(s, "mysqlx") then None
      else Some(s)
  {
    FindIs(s, 0, k);
  }

  lemma {:induction false} FindIs(s: string, from: nat, k: nat)
    requires from <= k <= |s| && (k < |s| ==> MarkAt(s, k)) && forall j: nat :: from <= j < k ==> !MarkAt(s, j)
    ensures FindScheme(s, from) == k
    decreases |s| - from
  {
    if from < k {
      assert !MarkAt(s, from);
      FindIs(s, from + 1, k);
    }
  }

  // Paths in parentheses

  /** A path with parentheses inside. */
  datatype Nest = Flat(text: string) | Nested(before: string, inner: Nest, after: string)

  function Written(n: Nest): string {
    match n
    case Flat(t) => t
    case Nested(a, inner, b) => a + ("(" + (Written(inner) + (")" + b)))
  }

  predicate PathText(t: string) { forall i :: 0 <= i < |t| ==> Allowed(t[i], NpChars) }

  predicate PlainNest(n: Nest) {
    match n
    case Flat(t) => PathText(t)
    case Nested(a, inner, b) => PathText(a) && PlainNest(inner) && PathText(b)
  }

  lemma PathTextIsRead(t: string, rest: seq<Tok>)
    requires PathText(t) && Ends(rest, NpChars)
    ensures Many(Lit(t) + rest, NpChars) == Ok(t, rest)
  {
    hide Many, In;
    forall i | 0 <= i < |t|
      ensures Valid(t[i])
    {
      PathCharIsValid(t[i]);
    }
    AllowedIsRead(t, NpChars, rest);
  }

  lemma PathCharIsValid(c: char)
    requires Allowed(c, NpChars)
    ensures Valid(c)
  {
  }

  lemma ParenEnds(c: char, rest: seq<Tok>)
    requires c == '(' || c == ')'
    ensures Ends(Lit([c]) + rest, NpChars) && Sound(Lit([c]) + rest) && HeadIs(Lit([c]) + rest, c)
    ensures c == ')' ==> !HeadIs(Lit([c]) + rest, '(')
  {
    assert (Lit([c]) + rest)[0] == Tok(c, false);
  }

  lemma {:induction false} NestIsRead(n: Nest, rest: seq<Tok>)
    requires PlainNest(n) && HeadIs(rest, ')')
    ensures Inside(Lit(Written(n)) + rest) == Ok(Written(n), rest)
    decreases n
  {
    hide Many, In, Lit, PathText, Balanced;
    ClosingEnds(rest);
    match n {
      case Flat(t) =>
        PathTextIsRead(t, rest);
        NothingMore(rest);
        assert t + "" + "" == t;
      case Nested(a, inner, b) =>
        var tail := Lit(b) + rest;
        NestTokens(a, Written(inner), b, rest);
        ParenEnds(')', tail);
        NestIsRead(inner, Lit(")") + tail);
        var open := Lit("(") + (Lit(Written(inner)) + (Lit(")") + tail));
        ParenEnds('(', Lit(Written(inner)) + (Lit(")") + tail));
        PathTextIsRead(a, open);
        SoundText(b, rest);
        SoundText(Written(inner), Lit(")") + tail);
        BalancedStep(Written(inner), tail, true);
        PathTextIsRead(b, rest);
        var m := "(" + Written(inner) + ")";
        assert a + m + b == Written(n);
    }
  }

  lemma ClosingEnds(rest: seq<Tok>)
    requires HeadIs(rest, ')')
    ensures Ends(rest, NpChars) && Sound(rest) && !HeadIs(rest, '(')
  {
  }

  lemma NothingMore(rest: seq<Tok>)
    requires Ends(rest, NpChars)
    ensures Many(rest, NpChars) == Ok("", rest)
  {
    ManyEnd(rest, NpChars);
  }

  lemma SoundText(t: string, rest: seq<Tok>)
    requires Sound(rest)
    ensures Sound(Lit(t) + rest)
  {
    if t == "" {
      assert Lit(t) + rest == rest;
    } else {
      SoundLit(t, rest);
    }
  }

  lemma NestTokens(a: string, i: string, b: string, rest: seq<Tok>)
    ensures Lit(a + ("(" + (i + (")" + b)))) + rest == Lit(a) + (Lit("(") + (Lit(i) + (Lit(")") + (Lit(b) + rest))))
  {
    hide Lit;
    LitAppend(a, "(" + (i + (")" + b)));
    LitAppend("(", i + (")" + b));
    LitAppend(i, ")" + b);
    LitAppend(")", b);
  }

  lemma BalancedStep(i: string, tail: seq<Tok>, parens: bool)
    requires Sound(Lit(i) + (Lit(")") + tail)) && Sound(tail)
    requires Inside(Lit(i) + (Lit(")") + tail)) == Ok(i, Lit(")") + tail)
    ensures
      Balanced(Lit("(") + (Lit(i) + (Lit(")") + tail)), parens)
      == Ok((if parens then "(" else "") + i + (if parens then ")" else ""), tail)
  {
    hide Lit, Inside;
    OneLit('(', Lit(i) + (Lit(")") + tail));
    OneLit(')', tail);
  }

  /** A path in parentheses is reported as a socket or a pipe with that path, parentheses inside it
      included, and anything else in parentheses is an error. */
  lemma ParenthesisedPath(n: Nest, prio: nat, rest: seq<Tok>)
    requires PlainNest(n) && Sound(rest)
    ensures
      var r := Reported(Host(Lit("(") + (Lit(Written(n)) + (Lit(")") + rest))), prio);
      r == if IsSocket(Written(n)) then Ok(Socket(prio, Written(n)), rest)
           else if IsPipe(Written(n)) then Ok(Pipe(prio, Written(n)), rest)
           else Err
  {
    hide Lit, Balanced, Inside, Written, IsSocket, IsPipe, SocketPath, PipePath;
    var t := Written(n);
    ParenEnds(')', rest);
    NestIsRead(n, Lit(")") + rest);
    SoundText(t, Lit(")") + rest);
    ParenEnds('(', Lit(t) + (Lit(")") + rest));
    BalancedStep(t, rest, false);
    assert "" + t + "" == t;
    PathLooks(t);
  }

  // IPv6 addresses

  predicate V6Char(c: char) { c in "0123456789abcdefABCDEF:" }

  lemma V6CharIs(c: char)
    requires V6Char(c)
    ensures var t := Tok(c, false); InV6(t) && (KindOf(t) == Letter ==> IsHexLetter(c)) && KindOf(t) != Invalid
  {
  }

  lemma {:induction false} V6Text(h: string, rest: seq<Tok>, addr: string)
    requires (forall i :: 0 <= i < |h| ==> V6Char(h[i])) && addr + h != "" && Sound(rest)
    ensures V6(Lit(h) + (Lit("]") + rest), addr) == Ok(addr + h, rest)
    decreases |h|
  {
    hide KindOf, IsHexLetter, InV6, V6Char;
    var ts := Lit(h) + (Lit("]") + rest);
    if h == "" {
      assert ts == Lit("]") + rest && addr + h == addr;
      BracketCloses(rest);
    } else {
      V6CharIs(h[0]);
      assert ts[0] == Tok(h[0], false) && ts[1..] == Lit(h[1..]) + (Lit("]") + rest);
      assert addr + [h[0]] + h[1..] == addr + h;
      assert h[1..] != "" ==> ts[1..][0] == Tok(h[1], false);
      assert h[1..] == "" ==> ts[1..] == Lit("]") + rest;
      BracketCloses(rest);
      V6Text(h[1..], rest, addr + [h[0]]);
    }
  }

  lemma BracketCloses(rest: seq<Tok>)
    requires Sound(rest)
    ensures var ts := Lit("]") + rest; Sound(ts) && !InV6(ts[0]) && One(ts, ']') == Ok((), rest)
  {
    OneLit(']', rest);
    assert (Lit("]") + rest)[0] == Tok(']', false);
  }

  /** An address of hexadecimal digits and colons in square brackets, with a port, is reported as it is. */
  lemma V6IsRead(h: string, port: nat)
    requires h != "" && (forall i :: 0 <= i < |h| ==> V6Char(h[i]))
    ensures
      Target(Lit("[") + (Lit(h) + (Lit("]") + PortTokens(port)))) ==
        if port < Short then Ok([HostPort(0, h, port)], []) else Err
  {
    hide IpAddress, Lit, E.Digits, V6Char, Balanced, Many, Convert, PortTokens, One;
    PrintedDigits(port);
    V6Address(h, port);
    OpensBracket(h, PortTokens(port));
  }

  lemma V6Address(h: string, port: nat)
    requires h != "" && (forall i :: 0 <= i < |h| ==> V6Char(h[i]))
    ensures IpAddress(Lit("[") + (Lit(h) + (Lit("]") + PortTokens(port)))) == Ok(Addr(h, E.Digits(port)), [])
  {
    hide V6, Lit, E.Digits, V6Char, Groups, Many, One, PortTokens;
    var ds, t := E.Digits(port), PortTokens(port);
    PortStart(port);
    PrintedDigits(port);
    assert Lit(ds) + [] == Lit(ds);
    ManyDigits(ds, [], Digits);
    PortSound(port);
    V6Text(h, t, "");
    assert "" + h == h;
    OpensBracket(h, t);
  }

  lemma PortSound(port: nat)
    ensures Sound(PortTokens(port))
  {
    hide E.Digits;
    assert PortTokens(port)[0] == Tok(':', false);
  }

  lemma OpensBracket(h: string, t: seq<Tok>)
    requires h != "" && V6Char(h[0])
    ensures
      var r := Lit(h) + (Lit("]") + t);
      One(Lit("[") + r, '[') == Ok((), r) && !HeadIs(Lit("[") + r, '(')
  {
    V6CharIs(h[0]);
    var r := Lit(h) + (Lit("]") + t);
    assert r[0] == Tok(h[0], false) && (Lit("[") + r)[0] == Tok('[', false);
    OneLit('[', r);
  }
}
