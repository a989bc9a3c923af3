/** The URI parser only moves forward, and never over a character that it cannot read. */
module UriProgress {

  import opened Wrappers
  import opened UriSyntax

  /** What is left is an end of the tokens, and all that was taken could be read. */
  ghost predicate Clean<T>(r: Res<T>, ts: seq<Tok>) { r.Ok? ==> CleanEnd(r.rest, ts) }

  predicate CleanEnd(rest: seq<Tok>, ts: seq<Tok>) {
    && |rest| <= |ts| && rest == ts[|ts| - |rest|..]
    && forall i :: 0 <= i < |ts| - |rest| ==> ts[i] != Bad
  }

  lemma CleanAll(ts: seq<Tok>)
    ensures CleanEnd(ts, ts)
  {
  }

  lemma CleanTail(ts: seq<Tok>)
    requires ts != [] && ts[0] != Bad
    ensures CleanEnd(ts[1..], ts)
  {
  }

  lemma CleanTwice(a: seq<Tok>, b: seq<Tok>, ts: seq<Tok>)
    requires CleanEnd(a, b) && CleanEnd(b, ts)
    ensures CleanEnd(a, ts)
  {
    var n, k := |ts| - |b|, |b| - |a|;
    assert ts[n..][k..] == ts[n + k..];
    forall i | 0 <= i < n + k
      ensures ts[i] != Bad
    {
      assert i >= n ==> ts[i] == b[i - n];
    }
  }

  /** All ways of going from a middle place to an end. */
  lemma CleanFrom(b: seq<Tok>, ts: seq<Tok>)
    requires CleanEnd(b, ts)
    ensures forall a :: CleanEnd(a, b) ==> CleanEnd(a, ts)
  {
    hide CleanEnd;
    forall a | CleanEnd(a, b)
      ensures CleanEnd(a, ts)
    {
      CleanTwice(a, b, ts);
    }
  }

  lemma OneClean(ts: seq<Tok>, c: char)
    ensures Clean(One(ts, c), ts)
  {
    hide CleanEnd;
    if HeadIs(ts, c) {
      CleanTail(ts);
    }
  }

  lemma {:induction false} ManyClean(ts: seq<Tok>, s: Set)
    ensures Clean(Many(ts, s), ts)
    decreases |ts|
  {
    hide CleanEnd, In;
    CleanAll(ts);
    if ts != [] && ts[0] != Bad {
      CleanTail(ts);
      CleanFrom(ts[1..], ts);
      ManyClean(ts[1..], s);
    }
  }

  lemma {:induction false} WordClean(ts: seq<Tok>, w: string)
    ensures Clean(Word(ts, w), ts)
    decreases |w|
  {
    hide CleanEnd;
    CleanAll(ts);
    if w != "" && ts != [] && SameLetter(ts[0], w[0]) {
      CleanTail(ts);
      CleanFrom(ts[1..], ts);
      WordClean(ts[1..], w[1..]);
    }
  }

  /** After one token, a run of a set. */
  lemma OneManyClean(ts: seq<Tok>, c: char, s: Set)
    ensures Clean(One(ts, c), ts) && (One(ts, c).Ok? ==> Clean(Many(One(ts, c).rest, s), ts))
  {
    hide CleanEnd, One, Many;
    OneClean(ts, c);
    var r := One(ts, c);
    if r.Ok? {
      ManyClean(r.rest, s);
      CleanFrom(r.rest, ts);
    }
  }

  lemma PasswordClean(ts: seq<Tok>)
    ensures Clean(Password(ts), ts)
  {
    hide CleanEnd, One, Many;
    CleanAll(ts);
    OneManyClean(ts, ':', PasswordChars);
  }

  lemma UserInfoClean(ts: seq<Tok>)
    ensures Clean(UserInfo(ts), ts)
  {
    hide CleanEnd, One, Many, Password;
    ManyClean(ts, UserChars);
    var m := Many(ts, UserChars);
    if m.Ok? {
      PasswordClean(m.rest);
      CleanFrom(m.rest, ts);
      var p := Password(m.rest);
      if p.Ok? {
        OneClean(p.rest, '@');
        CleanFrom(p.rest, ts);
      }
    }
  }

  lemma {:induction false} V6Clean(ts: seq<Tok>, addr: string)
    ensures Clean(V6(ts, addr), ts)
    decreases |ts|
  {
    hide CleanEnd;
    if ts != [] && InV6(ts[0]) {
      CleanTail(ts);
      CleanFrom(ts[1..], ts);
      V6Clean(ts[1..], addr + (if ts[0].Tok? then [ts[0].c] else []));
    } else {
      OneClean(ts, ']');
    }
  }

  lemma {:induction false} GroupsClean(ts: seq<Tok>, count: nat, addr: string)
    requires count < 4
    ensures Clean(Groups(ts, count, addr), ts)
    decreases 4 - count
  {
    hide CleanEnd, One, Many;
    CleanAll(ts);
    ManyClean(ts, Digits);
    var m := Many(ts, Digits);
    if m.Ok? && count < 3 {
      OneClean(m.rest, '.');
      CleanFrom(m.rest, ts);
      var o := One(m.rest, '.');
      if o.Ok? {
        CleanFrom(o.rest, ts);
        GroupsClean(o.rest, count + 1, addr + (if count > 0 then "." else "") + m.v);
      }
    }
  }

  lemma IpAddressClean(ts: seq<Tok>)
    ensures Clean(IpAddress(ts), ts)
  {
    hide CleanEnd, One, Many, Literal;
    LiteralClean(ts);
    var l := Literal(ts);
    if l.Ok? {
      CleanAll(l.rest);
      OneManyClean(l.rest, ':', Digits);
      CleanFrom(l.rest, ts);
    }
  }

  lemma LiteralClean(ts: seq<Tok>)
    ensures Clean(Literal(ts), ts)
  {
    hide CleanEnd, One, Many, Groups, V6;
    OneClean(ts, '[');
    var o := One(ts, '[');
    if o.Ok? {
      V6Clean(o.rest, "");
      CleanFrom(o.rest, ts);
    } else {
      GroupsClean(ts, 0, "");
      var g := Groups(ts, 0, "");
      if g.Ok? {
        ManyClean(g.rest, HostChars);
        CleanFrom(g.rest, ts);
      }
    }
  }

  lemma {:induction false} BalancedClean(ts: seq<Tok>, parens: bool)
    ensures Clean(Balanced(ts, parens), ts)
    decreases |ts|, 0
  {
    hide CleanEnd, One, Inside;
    OneClean(ts, '(');
    var o := One(ts, '(');
    if o.Ok? {
      CleanFrom(o.rest, ts);
      InsideClean(o.rest);
      var i := Inside(o.rest);
      if i.Ok? {
        CleanFrom(i.rest, ts);
        OneClean(i.rest, ')');
      }
    }
  }

  lemma {:induction false} InsideClean(ts: seq<Tok>)
    ensures Clean(Inside(ts), ts)
    decreases |ts|, 1
  {
    hide CleanEnd, Many, Balanced;
    ManyClean(ts, NpChars);
    var a := Many(ts, NpChars);
    if a.Ok? {
      CleanFrom(a.rest, ts);
      CleanAll(a.rest);
      BalancedClean(a.rest, true);
      var b: Res<string> := if HeadIs(a.rest, '(') then Balanced(a.rest, true) else Ok("", a.rest);
      if b.Ok? {
        CleanFrom(b.rest, ts);
        ManyClean(b.rest, NpChars);
      }
    }
  }

  lemma HostClean(ts: seq<Tok>)
    ensures Clean(Host(ts), ts)
  {
    hide CleanEnd, Many, Balanced, IpAddress;
    BalancedClean(ts, false);
    IpAddressClean(ts);
    ManyClean(ts, HostChars);
  }

  lemma PriorityClean(ts: seq<Tok>)
    ensures Clean(Priority(ts), ts)
  {
    hide CleanEnd, One, Many, Comma;
    CommaClean(ts);
    var c := Comma(ts);
    if c.Ok? {
      CleanFrom(c.rest, ts);
      ManyClean(c.rest, Digits);
      var m := Many(c.rest, Digits);
      if m.Ok? {
        CleanFrom(m.rest, ts);
        OneClean(m.rest, ')');
      }
    }
  }

  lemma CommaClean(ts: seq<Tok>)
    ensures Clean(Comma(ts), ts)
  {
    hide CleanEnd, One, Word;
    OneClean(ts, ',');
    var o := One(ts, ',');
    if o.Ok? {
      CleanFrom(o.rest, ts);
      WordClean(o.rest, "priority");
      var w := Word(o.rest, "priority");
      if w.Ok? {
        CleanFrom(w.rest, ts);
        OneClean(w.rest, '=');
      }
    }
  }

  lemma OpeningClean(ts: seq<Tok>)
    ensures Clean(Opening(ts), ts)
  {
    hide CleanEnd, One, Word;
    CleanAll(ts);
    OneClean(ts, '(');
    var o := One(ts, '(');
    if o.Ok? {
      CleanFrom(o.rest, ts);
      WordClean(o.rest, "address");
      var w := Word(o.rest, "address");
      if w.Ok? {
        CleanFrom(w.rest, ts);
        OneClean(w.rest, '=');
      }
    }
  }

  lemma ListEntryClean(ts: seq<Tok>)
    ensures Clean(ListEntry(ts), ts)
  {
    hide CleanEnd, Opening, Host, Priority, Report;
    OpeningClean(ts);
    var o := Opening(ts);
    if o.Ok? {
      CleanFrom(o.rest, ts);
      HostClean(o.rest);
      var h := Host(o.rest);
      if h.Ok? {
        CleanFrom(h.rest, ts);
        PriorityClean(h.rest);
      }
    }
  }

  lemma {:induction false} EntriesClean(ts: seq<Tok>)
    ensures Clean(Entries(ts), ts)
    decreases |ts|
  {
    hide CleanEnd, ListEntry, One;
    ListEntryClean(ts);
    var e := ListEntry(ts);
    if e.Ok? {
      CleanFrom(e.rest, ts);
      OneClean(e.rest, ',');
      var o := One(e.rest, ',');
      if o.Ok? {
        CleanFrom(o.rest, ts);
        EntriesClean(o.rest);
      }
    }
  }

  lemma TargetClean(ts: seq<Tok>)
    ensures Clean(Target(ts), ts)
  {
    hide CleanEnd, Host, Report, Entries, One;
    HostClean(ts);
    OneClean(ts, '[');
    var o := One(ts, '[');
    if o.Ok? {
      CleanFrom(o.rest, ts);
      EntriesClean(o.rest);
      var e := Entries(o.rest);
      if e.Ok? {
        CleanFrom(e.rest, ts);
        OneClean(e.rest, ']');
      }
    }
  }

  lemma ConnectionClean(ts: seq<Tok>)
    ensures Clean(Connection(ts), ts)
  {
    hide CleanEnd, UserInfo, Target;
    UserInfoClean(ts);
    TargetClean(ts);
    var u := UserInfo(ts);
    if u.Ok? {
      CleanFrom(u.rest, ts);
      TargetClean(u.rest);
    }
  }

  lemma PathClean(ts: seq<Tok>)
    ensures Clean(Path(ts), ts)
  {
    hide CleanEnd, One, Many;
    CleanAll(ts);
    OneManyClean(ts, '/', DbChars);
  }

  lemma {:induction false} ValuesClean(ts: seq<Tok>)
    ensures Clean(Values(ts), ts)
    decreases |ts|
  {
    hide CleanEnd, One, Many;
    ManyClean(ts, UntilComma);
    var m := Many(ts, UntilComma);
    if m.Ok? {
      CleanFrom(m.rest, ts);
      OneClean(m.rest, ',');
      var o := One(m.rest, ',');
      if o.Ok? {
        CleanFrom(o.rest, ts);
        ValuesClean(o.rest);
      }
    }
  }

  lemma ItemClean(ts: seq<Tok>)
    ensures Clean(Item(ts), ts)
  {
    hide CleanEnd, One, Many, Value;
    ManyClean(ts, UntilEq);
    var m := Many(ts, UntilEq);
    if m.Ok? {
      CleanFrom(m.rest, ts);
      OneClean(m.rest, '=');
      var o := One(m.rest, '=');
      if o.Ok? {
        CleanFrom(o.rest, ts);
        ValueClean(o.rest, m.v);
      }
    }
  }

  lemma ValueClean(ts: seq<Tok>, key: string)
    ensures Clean(Value(ts, key), ts)
  {
    hide CleanEnd, One, Many, Values;
    OneClean(ts, '[');
    ManyClean(ts, UntilAmp);
    var o := One(ts, '[');
    if o.Ok? {
      CleanFrom(o.rest, ts);
      ValuesClean(o.rest);
      var v := Values(o.rest);
      if v.Ok? {
        CleanFrom(v.rest, ts);
        OneClean(v.rest, ']');
      }
    }
  }

  lemma {:induction false} ItemsClean(ts: seq<Tok>)
    ensures Clean(Items(ts), ts)
    decreases |ts|
  {
    hide CleanEnd, One, Item;
    ItemClean(ts);
    var i := Item(ts);
    if i.Ok? {
      CleanFrom(i.rest, ts);
      OneClean(i.rest, '&');
      var o := One(i.rest, '&');
      if o.Ok? {
        CleanFrom(o.rest, ts);
        ItemsClean(o.rest);
      }
    }
  }

  lemma QueryClean(ts: seq<Tok>)
    ensures Clean(QueryPart(ts), ts)
  {
    hide CleanEnd, One, Items;
    CleanAll(ts);
    OneClean(ts, '?');
    var o := One(ts, '?');
    if o.Ok? {
      CleanFrom(o.rest, ts);
      ItemsClean(o.rest);
    }
  }

  /** Only URIs all of whose characters can be read are accepted. */
  lemma AcceptedIsClean(ts: seq<Tok>)
    ensures Body(ts).Some? ==> Bad !in ts
  {
    hide CleanEnd, Connection, Path, QueryPart;
    ConnectionClean(ts);
    var c := Connection(ts);
    if c.Ok? {
      CleanFrom(c.rest, ts);
      PathClean(c.rest);
      var p := Path(c.rest);
      if p.Ok? {
        CleanFrom(p.rest, ts);
        QueryClean(p.rest);
        AllTaken(ts);
      }
    }
  }

  lemma AllTaken(ts: seq<Tok>)
    ensures CleanEnd([], ts) ==> Bad !in ts
  {
  }

  // Texts

  predicate HexChar(c: char) { c in "0123456789abcdefABCDEF" }

  /** Two characters that can follow a percent sign: hexadecimal digits, or a blank or a sign before one,
      as the C library reads them. */
  predicate AfterPercent(a: char, b: char) {
    HexChar(b) && (HexChar(a) || a in " +\t\n\r" || a as int in {11, 12} || (a == '-' && b == '0'))
  }

  predicate ReadableChar(c: char) {
    'a' <= c <= 'z' || 'A' <= c <= 'Z' || '0' <= c <= '9' || c in "!$&'()*+,-./:;=?@[]\\_~"
  }

  /** A text of characters that can stand in a URI, and of percent signs with two such characters. */
  predicate Readable(s: string) {
    s == "" || if s[0] == '%' then |s| >= 3 && AfterPercent(s[1], s[2]) && Readable(s[3..])
               else ReadableChar(s[0]) && Readable(s[1..])
  }

  lemma {:induction false} ReadableIs(s: string)
    ensures Bad !in Lex(s) <==> Readable(s)
    decreases |s|
  {
    hide AfterPercent, ReadableChar, PctValue, KindOf;
    if s != "" {
      CharIs(s[0]);
      if |s| >= 3 {
        PercentIs(s[1], s[2]);
      }
      var (t, n) := FirstTok(s);
      if t != Bad {
        ReadableIs(s[n..]);
      }
    }
  }

  lemma CharIs(c: char)
    ensures KindOf(Tok(c, false)) != Invalid <==> ReadableChar(c)
    ensures !ReadableChar('%')
  {
  }

  lemma PercentIs(a: char, b: char)
    ensures PctValue(a, b).Some? <==> AfterPercent(a, b)
  {
    HexIs(a);
    HexIs(b);
  }

  lemma HexIs(c: char)
    ensures HexDigit(c).Some? <==> HexChar(c)
    ensures HexDigit(c).Some? ==> (HexDigit(c).value == 0 <==> c == '0')
  {
  }

  /** Every accepted URI is readable after its scheme. */
  lemma AcceptedIsReadable(s: string, force: bool)
    ensures ParseUri(s, force).Some? ==> AfterScheme(s, force).Some? && Readable(AfterScheme(s, force).value)
  {
    hide Body, Lex, Readable;
    if AfterScheme(s, force).Some? {
      var body := AfterScheme(s, force).value;
      AcceptedIsClean(Lex(body));
      ReadableIs(body);
    }
  }
}
