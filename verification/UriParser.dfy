/** The parser of connection strings: a stack of states, of which the top one is advanced. */
module UriParser {

  import opened Wrappers
  import opened UriSyntax

  /** The current token, its position and the position after it. */
  datatype State = State(tok: Tok, pos: nat, next: nat)

  datatype Out<T> = Done(v: T) | NotThere | Threw

  function Prefixed(buf: string, r: Res<string>): Res<string> {
    match r
    case Ok(v, rest) => Ok(buf + v, rest)
    case No => No
    case Err => Err
  }

  function Consed<T>(xs: seq<T>, r: Res<seq<T>>): Res<seq<T>> {
    match r
    case Ok(v, rest) => Ok(xs + v, rest)
    case _ => Err
  }

  lemma {:induction false} ManyStep(buf: string, ts: seq<Tok>, cs: Set)
    requires ts != [] && ts[0] != Bad
    ensures In(ts[0], cs) && Broken(ts[1..]) ==> Many(ts, cs) == Err
    ensures In(ts[0], cs) && !Broken(ts[1..]) ==>
      Prefixed(buf, Many(ts, cs)) == Prefixed(buf + [ts[0].c], Many(ts[1..], cs))
    ensures !In(ts[0], cs) ==> Prefixed(buf, Many(ts, cs)) == Ok(buf, ts)
  {
    hide In, KindOf;
    if In(ts[0], cs) && !Broken(ts[1..]) {
      var r := Many(ts[1..], cs);
      if r.Ok? {
        assert buf + ([ts[0].c] + r.v) == buf + [ts[0].c] + r.v;
      }
    } else if !In(ts[0], cs) {
      assert buf + "" == buf;
    }
  }

  lemma LexStep(s: string, pos: nat)
    requires pos < |s|
    ensures
      var (t, n) := FirstTok(s[pos..]);
      && (t == Bad <==> Broken(Lex(s[pos..]))) && Lex(s[pos..]) != []
      && (t != Bad ==> pos + n <= |s| && Lex(s[pos..]) == [t] + Lex(s[pos + n..]))
  {
    hide FirstTok;
    var (t, n) := FirstTok(s[pos..]);
    if t != Bad {
      assert s[pos..][n..] == s[pos + n..];
    }
  }

  /** Only the top state has changed, and there may be states above it. */
  predicate Extends(was: seq<State>, now: seq<State>) {
    0 < |was| <= |now| && now[..|was| - 1] == was[..|was| - 1]
  }

  lemma ExtendsFurther(a: seq<State>, b: seq<State>, c: seq<State>)
    requires Extends(a, b) && Extends(b, c)
    ensures Extends(a, c)
  {
    assert c[..|a| - 1] == c[..|b| - 1][..|a| - 1];
    assert b[..|a| - 1] == b[..|b| - 1][..|a| - 1];
  }

  lemma SameExtends(a: seq<State>)
    requires a != []
    ensures Extends(a, a)
  {
  }

  lemma ExtendsMore(a: seq<State>, b: seq<State>)
    requires 0 < |a| < |b| && b[..|a|] == a
    ensures Extends(a, b)
  {
    assert b[..|a| - 1] == b[..|a|][..|a| - 1];
  }

  lemma ExtendsPopped(a: seq<State>, b: seq<State>)
    requires a != [] && |b| == |a| + 1 && Extends(a + [a[|a| - 1]], b)
    ensures b[..|a|] == a
  {
    assert (a + [a[|a| - 1]])[..|a|] == a;
  }

  class Parser {
    const uri: string
    var stack: seq<State>

    constructor (s: string)
      ensures uri == s && stack == [State(Tok('\0', false), 0, 0)]
    {
      uri := s;
      stack := [State(Tok('\0', false), 0, 0)];
    }

    ghost predicate Good(st: State) {
      && st.pos <= |uri|
      && (st.pos < |uri| ==> st.tok != Bad && st.pos < st.next && FirstTok(uri[st.pos..]) == (st.tok, st.next - st.pos))
    }

    ghost predicate Valid()
      reads this
    {
      stack != [] && forall i :: 0 <= i < |stack| ==> Good(stack[i])
    }

    function Top(): State
      reads this
      requires stack != []
    {
      stack[|stack| - 1]
    }

    /** The tokens that are left. */
    ghost function Left(): seq<Tok>
      reads this
      requires stack != [] && Top().pos <= |uri|
    {
      Lex(uri[Top().pos..])
    }

    ghost predicate Follows<T(!new)>(r: Res<T>, o: Out<T>)
      reads this
    {
      match r
      case Ok(v, rest) => o == Done(v) && Valid() && Left() == rest
      case No => o == NotThere && Valid()
      case Err => o == Threw
    }

    lemma Head()
      requires Valid()
      ensures Left() == [] <==> Top().pos == |uri|
      ensures Left() != [] ==>
        && Left()[0] == Top().tok && Left()[0] != Bad && Top().next <= |uri|
        && Left()[1..] == Lex(uri[Top().next..])
    {
      if Top().pos < |uri| {
        LexStep(uri, Top().pos);
      }
    }

    method Push()
      requires Valid()
      modifies this
      ensures Valid() && stack == old(stack) + [old(Top())] && Left() == old(Left())
    {
      stack := stack + [Top()];
    }

    method Pop()
      requires |stack| > 1 && forall i :: 0 <= i < |stack| - 1 ==> Good(stack[i])
      modifies this
      ensures Valid() && stack == old(stack)[..|old(stack)| - 1]
    {
      stack := stack[..|stack| - 1];
    }

    /** Reads the token at the next position. */
    method GetToken() returns (threw: bool)
      requires stack != [] && Top().next <= |uri| && forall i :: 0 <= i < |stack| - 1 ==> Good(stack[i])
      modifies this
      ensures |stack| == |old(stack)| && stack[..|stack| - 1] == old(stack)[..|stack| - 1]
      ensures threw <==> Broken(Lex(uri[old(Top()).next..]))
      ensures !threw ==> Valid() && Left() == Lex(uri[old(Top()).next..])
    {
      hide FirstTok, Lex;
      var pos := Top().next;
      var low := stack[..|stack| - 1];
      if pos >= |uri| {
        stack := low + [Top().(pos := pos)];
        AtEnd(uri, pos);
        return false;
      }
      LexStep(uri, pos);
      var (t, n) := FirstTok(uri[pos..]);
      if t == Bad {
        return true;
      }
      stack := low + [State(t, pos, pos + n)];
      FirstAdvances(uri[pos..]);
      return false;
    }

    method ConsumeToken() returns (t: Tok, threw: bool)
      requires Valid() && Left() != []
      modifies this
      ensures t == old(Left())[0]
      ensures threw <==> Broken(old(Left())[1..])
      ensures !threw ==> Valid() && Left() == old(Left())[1..] && |stack| == |old(stack)| && Extends(old(stack), stack)
    {
      Head();
      t := Top().tok;
      threw := GetToken();
    }

    /** Takes a token of the given kind. */
    method Consume(c: char) returns (o: Out<()>)
      requires Valid()
      modifies this
      ensures Follows(One(old(Left()), c), o)
      ensures o != Threw ==> |stack| == |old(stack)| && Extends(old(stack), stack)
      ensures o == NotThere ==> stack == old(stack)
    {
      Head();
      if Top().pos >= |uri| || KindOf(Top().tok) != Punct(c) {
        return NotThere;
      }
      var _, threw := ConsumeToken();
      return if threw then Threw else Done(());
    }

    method NextIs(c: char) returns (yes: bool)
      requires Valid()
      ensures yes == HeadIs(Left(), c)
    {
      Head();
      yes := Top().pos < |uri| && KindOf(Top().tok) == Punct(c);
    }

    /** Takes tokens while they are in a set. */
    method ConsumeWhile(cs: Set) returns (o: Out<string>)
      requires Valid()
      modifies this
      ensures Follows(Many(old(Left()), cs), o) && o != NotThere
      ensures o != Threw ==> |stack| == |old(stack)| && Extends(old(stack), stack)
    {
      hide In, Many, Lex, FirstTok;
      var buf := "";
      ghost var ts := Left();
      EmptyPrefix(Many(ts, cs));
      Head();
      while Top().pos < |uri| && In(Top().tok, cs)
        invariant Valid() && |stack| == |old(stack)| && Extends(old(stack), stack)
        invariant Many(ts, cs) == Prefixed(buf, Many(Left(), cs))
        decreases |Left()|
      {
        Head();
        ManyStep(buf, Left(), cs);
        var t, threw := ConsumeToken();
        if threw {
          return Threw;
        }
        buf := buf + [t.c];
      }
      Head();
      if Left() != [] {
        ManyStep(buf, Left(), cs);
      } else {
        ManyEnd(buf, cs);
      }
      return Done(buf);
    }

    /** Takes a word or nothing: a failure restores token, position and depth of the stack. */
    method ConsumeWord(word: string) returns (o: Out<()>)
      requires Valid()
      modifies this
      ensures Follows(Word(old(Left()), word), o)
      ensures o == NotThere ==> stack == old(stack)
      ensures o.Done? ==> |stack| == |old(stack)| + 1 && stack[..|old(stack)|] == old(stack)
    {
      hide SameLetter, Lex, Word;
      ghost var ts := Left();
      Push();
      for k := 0 to |word|
        invariant Valid() && |stack| == |old(stack)| + 1 && stack[..|old(stack)|] == old(stack)
        invariant Word(ts, word) == Word(Left(), word[k..])
      {
        Head();
        WordStep(Left(), word, k);
        if Top().pos >= |uri| || !SameLetter(Top().tok, word[k]) {
          Pop();
          return NotThere;
        }
        var _, threw := ConsumeToken();
        if threw {
          return Threw;
        }
      }
      WordEnd(Left(), word);
      return Done(());
    }

    /** Credentials or nothing: a failure restores token, position and depth of the stack. */
    method ParseUserInfo() returns (o: Out<Cred>)
      requires Valid()
      modifies this
      ensures Follows(UserInfo(old(Left())), o)
      ensures o == NotThere ==> stack == old(stack)
      ensures o.Done? ==> |stack| == |old(stack)| + 1 && stack[..|old(stack)|] == old(stack)
    {
      hide Many, One, Lex;
      Push();
      var user := ConsumeWhile(UserChars);
      if user == Threw {
        return Threw;
      }
      if user.v == "" {
        Pop();
        return NotThere;
      }
      var password: Option<string> := None;
      var colon := Consume(':');
      if colon == Threw {
        return Threw;
      } else if colon.Done? {
        var p := ConsumeWhile(PasswordChars);
        if p == Threw {
          return Threw;
        }
        password := Some(p.v);
      }
      var at := Consume('@');
      if at == Threw {
        return Threw;
      } else if at == NotThere {
        Pop();
        return NotThere;
      }
      return Done(Cred(user.v, password));
    }

    /** The inside of an IPv6 literal and the closing bracket. */
    method ParseV6() returns (o: Out<string>)
      requires Valid()
      modifies this
      ensures Follows(V6(old(Left()), ""), o)
      ensures o != Threw ==> |stack| == |old(stack)| && Extends(old(stack), stack)
    {
      hide Lex, KindOf, One;
      var addr := "";
      ghost var ts := Left();
      Head();
      while Top().pos < |uri| && InV6(Top().tok)
        invariant Valid() && |stack| == |old(stack)| && Extends(old(stack), stack)
        invariant V6(ts, "") == V6(Left(), addr)
        decreases |Left()|
      {
        Head();
        var t, threw := ConsumeToken();
        if threw {
          return Threw;
        }
        if t.pct || (KindOf(t) == Letter && !IsHexLetter(t.c)) {
          return NotThere;
        }
        addr := addr + [t.c];
      }
      Head();
      if addr == "" {
        return NotThere;
      }
      var close := Consume(']');
      match close {
        case Done(_) => return Done(addr);
        case NotThere => return NotThere;
        case Threw => return Threw;
      }
    }

    /** Up to four groups of digits with dots between them. */
    method ParseGroups() returns (o: Out<(nat, string)>)
      requires Valid()
      modifies this
      ensures Follows(Groups(old(Left()), 0, ""), o) && o != NotThere
      ensures o != Threw ==> |stack| == |old(stack)| && Extends(old(stack), stack)
    {
      hide Lex, Many, One;
      var addr, count := "", 0;
      ghost var ts := Left();
      while true
        invariant Valid() && |stack| == |old(stack)| && Extends(old(stack), stack) && count < 4
        invariant Groups(ts, 0, "") == Groups(Left(), count, addr)
        decreases 4 - count
      {
        Head();
        if Top().pos >= |uri| || KindOf(Top().tok) != Digit {
          return Done((count, addr));
        }
        if count > 0 {
          addr := addr + ".";
        } else {
          assert addr + "" == addr;
        }
        var ds := ConsumeWhile(Digits);
        if ds == Threw {
          return Threw;
        }
        addr := addr + ds.v;
        count := count + 1;
        if count == 4 {
          return Done((count, addr));
        }
        var dot := Consume('.');
        if dot == Threw {
          return Threw;
        } else if dot == NotThere {
          return Done((count, addr));
        }
      }
    }

    method ParsePlain() returns (o: Out<string>)
      requires Valid()
      modifies this
      ensures Follows(Plain(old(Left())), o)
      ensures o != Threw ==> |stack| == |old(stack)| && Extends(old(stack), stack)
    {
      hide Lex, Many, Groups;
      var groups := ParseGroups();
      if groups == Threw {
        return Threw;
      }
      var (count, addr) := groups.v;
      if count < 4 {
        var more := ConsumeWhile(HostChars);
        if more == Threw {
          return Threw;
        }
        addr := addr + more.v;
        var colon := NextIs(':');
        if !colon {
          return NotThere;
        }
      }
      return Done(addr);
    }

    /** An address or nothing: a failure restores token, position and depth of the stack. */
    method ParseIpAddress() returns (o: Out<Addr>)
      requires Valid()
      modifies this
      ensures Follows(IpAddress(old(Left())), o)
      ensures o == NotThere ==> stack == old(stack)
      ensures o.Done? ==> |stack| == |old(stack)| + 1 && stack[..|old(stack)|] == old(stack)
    {
      hide Lex, Many, One, V6, Plain;
      Push();
      var open := Consume('[');
      var addr;
      if open == Threw {
        return Threw;
      } else if open == NotThere {
        addr := ParsePlain();
      } else {
        addr := ParseV6();
      }
      if addr == Threw {
        return Threw;
      } else if addr == NotThere {
        Pop();
        return NotThere;
      }
      o := ParsePort(addr.v);
    }

    method ParsePort(host: string) returns (o: Out<Addr>)
      requires Valid()
      modifies this
      ensures Follows(Port(host, old(Left())), o) && o != NotThere
      ensures o != Threw ==> |stack| == |old(stack)| && Extends(old(stack), stack)
    {
      hide Lex, Many, One;
      var colon := Consume(':');
      if colon == Threw {
        return Threw;
      } else if colon == NotThere {
        return Done(Addr(host, ""));
      }
      var port := ConsumeWhile(Digits);
      return if port == Threw then Threw else Done(Addr(host, port.v));
    }

    method ParseBalanced(parens: bool) returns (o: Out<string>)
      requires Valid()
      modifies this
      ensures Follows(Balanced(old(Left()), parens), o) && o != NotThere
      ensures o != Threw ==> |stack| == |old(stack)| && Extends(old(stack), stack)
      decreases |Left()|, 0
    {
      hide Lex, Inside, Extends;
      ghost var s0 := stack;
      var open := Consume('(');
      if !open.Done? {
        return Threw;
      }
      ghost var s1 := stack;
      var a := ParseInside();
      if a == Threw {
        return Threw;
      }
      ghost var s2 := stack;
      ExtendsFurther(s0, s1, s2);
      var close := Consume(')');
      if !close.Done? {
        return Threw;
      }
      ExtendsFurther(s0, s2, stack);
      return Done((if parens then "(" else "") + a.v + (if parens then ")" else ""));
    }

    method ParseInside() returns (o: Out<string>)
      requires Valid()
      modifies this
      ensures Follows(Inside(old(Left())), o) && o != NotThere
      ensures o != Threw ==> |stack| == |old(stack)| && Extends(old(stack), stack)
      decreases |Left()|, 1
    {
      hide Lex, Many, Balanced, Extends;
      ghost var s0 := stack;
      var a := ConsumeWhile(NpChars);
      if a == Threw {
        return Threw;
      }
      ghost var s1 := stack;
      var nested := NextIs('(');
      var b := Done("");
      if nested {
        b := ParseBalanced(true);
        if b == Threw {
          return Threw;
        }
        ExtendsFurther(s0, s1, stack);
      }
      ghost var s2 := stack;
      var c := ConsumeWhile(NpChars);
      if c == Threw {
        return Threw;
      }
      ExtendsFurther(s0, s2, stack);
      return Done(a.v + b.v + c.v);
    }

    method ParseHost() returns (o: Out<Found>)
      requires Valid()
      modifies this
      ensures Follows(Host(old(Left())), o) && o != NotThere
      ensures o != Threw ==> Extends(old(stack), stack)
      ensures o.Done? && o.v.other ==> |stack| == |old(stack)|
    {
      hide Lex, Many, Balanced, IpAddress;
      var paren := NextIs('(');
      if paren {
        var a := ParseBalanced(false);
        return if a == Threw then Threw else Done(Found(false, true, Addr(a.v, "")));
      }
      var ip := ParseIpAddress();
      if ip == Threw {
        return Threw;
      } else if ip.Done? {
        return Done(Found(true, false, ip.v));
      }
      var a := ConsumeWhile(HostChars);
      return if a == Threw then Threw else Done(Found(true, true, Addr(a.v, "")));
    }

    /** Whether `(address=` is there; if not, one state is taken from the stack. */
    method ParseOpening() returns (o: Out<bool>)
      requires Valid()
      modifies this
      ensures Follows(Opening(old(Left())), o) && o != NotThere
      ensures o != Threw ==> Extends(old(stack), stack)
    {
      hide Lex, Many, One, Word, Extends, FirstTok;
      ghost var s0 := stack;
      Push();
      ghost var s1 := stack;
      ExtendsMore(s0, s1);
      var open := Consume('(');
      if open == Threw {
        return Threw;
      }
      ghost var s2 := stack;
      ExtendsPopped(s0, s2);
      ExtendsMore(s0, s2);
      if open.Done? {
        var word := ConsumeWord("address");
        if word == Threw {
          return Threw;
        }
        if word.Done? {
          ExtendsMore(s2, stack);
          ghost var s3 := stack;
          var eq := Consume('=');
          if eq == Threw {
            return Threw;
          }
          if eq.Done? {
            ExtendsFurther(s2, s3, stack);
            ExtendsFurther(s0, s2, stack);
            return Done(true);
          }
        }
      }
      Pop();
      SameExtends(s0);
      return Done(false);
    }

    /** An entry of a host list. */
    method ParseListEntry() returns (o: Out<Event>)
      requires Valid()
      modifies this
      ensures Follows(ListEntry(old(Left())), o) && o != NotThere
      ensures o != Threw ==> Extends(old(stack), stack)
    {
      hide Lex, Opening, Host, HostPriority, Report, Extends;
      ghost var s0 := stack;
      var opening := ParseOpening();
      if opening == Threw {
        return Threw;
      }
      ghost var s1 := stack;
      if opening.v {
        o := ParseHostPriority();
      } else {
        o := ParseSingle();
      }
      if o != Threw {
        ExtendsFurther(s0, s1, stack);
      }
    }

    method ParseSingle() returns (o: Out<Event>)
      requires Valid()
      modifies this
      ensures Follows(Reported(Host(old(Left())), 0), o) && o != NotThere
      ensures o != Threw ==> Extends(old(stack), stack)
    {
      hide Lex, Host, Report;
      var host := ParseHost();
      if host == Threw {
        return Threw;
      }
      var e := Report(host.v, 0);
      return if e.None? then Threw else Done(e.value);
    }

    method ParseHostPriority() returns (o: Out<Event>)
      requires Valid()
      modifies this
      ensures Follows(HostPriority(old(Left())), o) && o != NotThere
      ensures o != Threw ==> Extends(old(stack), stack)
    {
      hide Lex, Host, Priority, Report, Extends;
      ghost var s0 := stack;
      var host := ParseHost();
      if host == Threw {
        return Threw;
      }
      ghost var s1 := stack;
      var prio := ParsePriority();
      if !prio.Done? {
        return Threw;
      }
      ExtendsFurther(s0, s1, stack);
      var e := Report(host.v, (1 + prio.v) % Short);
      return if e.None? then Threw else Done(e.value);
    }

    method ParsePriority() returns (o: Out<nat>)
      requires Valid()
      modifies this
      ensures Follows(Priority(old(Left())), o) && o != NotThere
      ensures o != Threw ==> Extends(old(stack), stack)
    {
      hide Lex, Many, One, Comma, Convert, Extends;
      ghost var s0 := stack;
      var comma := ParseComma();
      if !comma.Done? {
        return Threw;
      }
      ghost var s1 := stack;
      var prio := ConsumeWhile(Digits);
      if prio == Threw {
        return Threw;
      }
      ghost var s2 := stack;
      ExtendsFurther(s0, s1, s2);
      if prio.v == "" {
        return Threw;
      }
      var close := Consume(')');
      if !close.Done? {
        return Threw;
      }
      ExtendsFurther(s0, s2, stack);
      var p := Convert(prio.v);
      return if p.None? then Threw else Done(p.value);
    }

    method ParseComma() returns (o: Out<()>)
      requires Valid()
      modifies this
      ensures Follows(Comma(old(Left())), o)
      ensures o.Done? ==> Extends(old(stack), stack)
    {
      hide Lex, One, Word, Extends;
      ghost var s0 := stack;
      o := Consume(',');
      if o.Done? {
        ghost var s1 := stack;
        o := ConsumeWord("priority");
        if o.Done? {
          ghost var s2 := stack;
          ExtendsMore(s1, s2);
          ExtendsFurther(s0, s1, s2);
          o := Consume('=');
          if o.Done? {
            ExtendsFurther(s0, s2, stack);
          }
        }
      }
    }

    // Lists and the whole string

    method ParseEntries() returns (o: Out<seq<Event>>)
      requires Valid()
      modifies this
      ensures Follows(Entries(old(Left())), o) && o != NotThere
      ensures o != Threw ==> Extends(old(stack), stack)
    {
      hide Lex, One, ListEntry, Extends;
      ghost var s0, ts := stack, Left();
      var es: seq<Event> := [];
      SameExtends(s0);
      NoneYet(Entries(ts));
      while true
        invariant Valid() && Extends(s0, stack)
        invariant Entries(ts) == Consed(es, Entries(Left()))
        decreases |Left()|
      {
        EntriesStep(es, Left());
        ghost var s1 := stack;
        var e := ParseListEntry();
        if !e.Done? {
          return Threw;
        }
        ghost var s2 := stack;
        ExtendsFurther(s0, s1, s2);
        es := es + [e.v];
        var comma := Consume(',');
        if comma == Threw {
          return Threw;
        }
        ExtendsFurther(s0, s2, stack);
        if comma == NotThere {
          return Done(es);
        }
      }
    }

    method ParseHostList() returns (o: Out<seq<Event>>)
      requires Valid() && HeadIs(Left(), '[')
      modifies this
      ensures Follows(HostList(old(Left())), o) && o != NotThere
    {
      hide Lex, Entries, Extends;
      var open := Consume('[');
      if !open.Done? {
        return Threw;
      }
      var es := ParseEntries();
      if !es.Done? {
        return Threw;
      }
      var close := Consume(']');
      if !close.Done? {
        return Threw;
      }
      return es;
    }

    /** A host, or a list of hosts for which the state before the host is restored. */
    method ParseTarget() returns (o: Out<seq<Event>>)
      requires Valid()
      modifies this
      ensures Follows(Target(old(Left())), o) && o != NotThere
    {
      hide Lex, Host, HostList, Report;
      ghost var s0 := stack;
      Push();
      var bracket := NextIs('[');
      var host := ParseHost();
      if host == Threw {
        return Threw;
      }
      if bracket && host.v.other {
        ExtendsPopped(s0, stack);
        Pop();
        o := ParseHostList();
        return;
      }
      var e := Report(host.v, 0);
      return if e.None? then Threw else Done([e.value]);
    }

    method ParseConnection() returns (o: Out<seq<Event>>)
      requires Valid()
      modifies this
      ensures Follows(Connection(old(Left())), o) && o != NotThere
    {
      hide Lex, UserInfo, Target;
      var at := NextIs('@');
      if at {
        return Threw;
      }
      var cred := ParseUserInfo();
      if cred == Threw {
        return Threw;
      }
      o := ParseTarget();
      if o.Done? && cred.Done? {
        o := Done(CredEvents(cred.v) + o.v);
      }
    }

    method ParsePath() returns (o: Out<seq<Event>>)
      requires Valid()
      modifies this
      ensures Follows(Path(old(Left())), o) && o != NotThere
    {
      hide Lex, Many, One;
      var slash := Consume('/');
      if slash == Threw {
        return Threw;
      } else if slash == NotThere {
        return Done([]);
      }
      var db := ConsumeWhile(DbChars);
      return if db == Threw then Threw else Done([Schema(db.v)]);
    }

    method ParseValues() returns (o: Out<seq<string>>)
      requires Valid()
      modifies this
      ensures Follows(Values(old(Left())), o) && o != NotThere
    {
      hide Lex, One, Many;
      ghost var ts := Left();
      var vs: seq<string> := [];
      NoneYet(Values(ts));
      while true
        invariant Valid()
        invariant Values(ts) == Consed(vs, Values(Left()))
        decreases |Left()|
      {
        ValuesStep(vs, Left());
        var v := ConsumeWhile(UntilComma);
        if v == Threw {
          return Threw;
        }
        vs := vs + [v.v];
        var comma := Consume(',');
        if comma == Threw {
          return Threw;
        } else if comma == NotThere {
          return Done(vs);
        }
      }
    }

    method ParseValue(key: string) returns (o: Out<Event>)
      requires Valid()
      modifies this
      ensures Follows(Value(old(Left()), key), o) && o != NotThere
    {
      hide Lex, One, Many, Values;
      var open := Consume('[');
      if open == Threw {
        return Threw;
      } else if open == NotThere {
        var v := ConsumeWhile(UntilAmp);
        return if v == Threw then Threw else Done(KeyVal(key, v.v));
      }
      var vs := ParseValues();
      if !vs.Done? {
        return Threw;
      }
      var close := Consume(']');
      return if close.Done? then Done(KeyList(key, vs.v)) else Threw;
    }

    method ParseItem() returns (o: Out<Event>)
      requires Valid()
      modifies this
      ensures Follows(Item(old(Left())), o) && o != NotThere
    {
      hide Lex, One, Many, Value;
      var key := ConsumeWhile(UntilEq);
      if key == Threw {
        return Threw;
      }
      var eq := Consume('=');
      if eq == Threw {
        return Threw;
      } else if eq == NotThere {
        return Done(Key(key.v));
      }
      o := ParseValue(key.v);
    }

    method ParseQuery() returns (o: Out<seq<Event>>)
      requires Valid()
      modifies this
      ensures Follows(QueryPart(old(Left())), o) && o != NotThere
    {
      hide Lex, One, Item;
      var question := Consume('?');
      if question == Threw {
        return Threw;
      } else if question == NotThere {
        return Done([]);
      }
      ghost var ts := Left();
      var es: seq<Event> := [];
      NoneYet(Items(ts));
      while true
        invariant Valid()
        invariant Items(ts) == Consed(es, Items(Left()))
        decreases |Left()|
      {
        ItemsStep(es, Left());
        var e := ParseItem();
        if !e.Done? {
          return Threw;
        }
        es := es + [e.v];
        var amp := Consume('&');
        if amp == Threw {
          return Threw;
        } else if amp == NotThere {
          return Done(es);
        }
      }
    }

    /** The whole string; None stands for an exception. */
    method Parse(force: bool) returns (r: Option<seq<Event>>)
      requires stack == [State(Tok('\0', false), 0, 0)]
      modifies this
      ensures r == ParseUri(uri, force)
    {
      hide Lex, Connection, Path, QueryPart, AfterScheme;
      var body := AfterScheme(uri, force);
      if body.None? {
        return None;
      }
      var start := |uri| - |body.value|;
      SchemeLeaves(uri, force);
      stack := [State(Tok('\0', false), 0, start)];
      var threw := GetToken();
      if threw {
        return None;
      }
      var a := ParseConnection();
      if !a.Done? {
        return None;
      }
      var b := ParsePath();
      if !b.Done? {
        return None;
      }
      var c := ParseQuery();
      if !c.Done? {
        return None;
      }
      Head();
      return if Top().pos < |uri| then None else Some(a.v + b.v + c.v);
    }
  }

  lemma WordStep(ts: seq<Tok>, w: string, k: nat)
    requires k < |w|
    ensures ts == [] || !SameLetter(ts[0], w[k]) ==> Word(ts, w[k..]) == No
    ensures ts != [] && SameLetter(ts[0], w[k]) ==>
      Word(ts, w[k..]) == if Broken(ts[1..]) then Err else Word(ts[1..], w[k + 1..])
  {
    hide SameLetter;
    assert w[k..][1..] == w[k + 1..];
  }

  lemma WordEnd(ts: seq<Tok>, w: string)
    ensures Word(ts, w[|w|..]) == Ok((), ts)
  {
  }

  lemma AtEnd(s: string, pos: nat)
    requires pos == |s|
    ensures Lex(s[pos..]) == []
  {
  }

  lemma FirstAdvances(s: string)
    requires s != ""
    ensures FirstTok(s).0 != Bad ==> FirstTok(s).1 > 0
  {
  }

  lemma EmptyPrefix(r: Res<string>)
    ensures Prefixed("", r) == r
  {
    if r.Ok? {
      assert "" + r.v == r.v;
    }
  }

  lemma ManyEnd(buf: string, cs: Set)
    ensures Prefixed(buf, Many([], cs)) == Ok(buf, [])
  {
    assert buf + "" == buf;
  }

  lemma NoneYet<T>(r: Res<seq<T>>)
    ensures !r.No? ==> Consed([], r) == r
  {
    if r.Ok? {
      assert [] + r.v == r.v;
    }
  }

  lemma EntriesStep(xs: seq<Event>, ts: seq<Tok>)
    ensures
      var a := ListEntry(ts);
      if !a.Ok? then Entries(ts) == Err
      else
        var c := One(a.rest, ',');
        if c.Err? then Entries(ts) == Err
        else if c.No? then Consed(xs, Entries(ts)) == Ok(xs + [a.v], a.rest)
        else Consed(xs, Entries(ts)) == Consed(xs + [a.v], Entries(c.rest))
  {
    hide ListEntry, One;
    var a := ListEntry(ts);
    if a.Ok? {
      var c := One(a.rest, ',');
      if c.Ok? && Entries(c.rest).Ok? {
        assert xs + ([a.v] + Entries(c.rest).v) == xs + [a.v] + Entries(c.rest).v;
      }
    }
  }

  lemma ValuesStep(xs: seq<string>, ts: seq<Tok>)
    ensures
      var a := Many(ts, UntilComma);
      if !a.Ok? then Values(ts) == Err
      else
        var c := One(a.rest, ',');
        if c.Err? then Values(ts) == Err
        else if c.No? then Consed(xs, Values(ts)) == Ok(xs + [a.v], a.rest)
        else Consed(xs, Values(ts)) == Consed(xs + [a.v], Values(c.rest))
  {
    hide Many, One;
    var a := Many(ts, UntilComma);
    if a.Ok? {
      var c := One(a.rest, ',');
      if c.Ok? && Values(c.rest).Ok? {
        assert xs + ([a.v] + Values(c.rest).v) == xs + [a.v] + Values(c.rest).v;
      }
    }
  }

  lemma ItemsStep(xs: seq<Event>, ts: seq<Tok>)
    ensures
      var a := Item(ts);
      if !a.Ok? then Items(ts) == Err
      else
        var c := One(a.rest, '&');
        if c.Err? then Items(ts) == Err
        else if c.No? then Consed(xs, Items(ts)) == Ok(xs + [a.v], a.rest)
        else Consed(xs, Items(ts)) == Consed(xs + [a.v], Items(c.rest))
  {
    hide Item, One;
    var a := Item(ts);
    if a.Ok? {
      var c := One(a.rest, '&');
      if c.Ok? && Items(c.rest).Ok? {
        assert xs + ([a.v] + Items(c.rest).v) == xs + [a.v] + Items(c.rest).v;
      }
    }
  }

  lemma SchemeLeaves(s: string, force: bool)
    ensures
      var body := AfterScheme(s, force);
      body.Some? ==> |body.value| <= |s| && s[|s| - |body.value|..] == body.value
  {
  }

  /** Parsing a connection string, whose scheme is required if `force`. */
  method ParseString(s: string, force: bool) returns (r: Option<seq<Event>>)
    ensures r == ParseUri(s, force)
  {
    hide ParseUri;
    var p := new Parser(s);
    r := p.Parse(force);
  }
}
