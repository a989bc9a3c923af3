/** Hosts written in plain characters: which of them the parser reads as they are. */
module UriHosts {

  import opened Wrappers
  import E = ExprSyntax
  import opened UriSyntax
  import opened UriRoundTrip

  predicate HostChar(c: char) { In(Tok(c, false), HostChars) }

  /** Characters that can stand in a host as they are. */
  predicate PlainHost(h: string) { forall i :: 0 <= i < |h| ==> HostChar(h[i]) }

  predicate IsDigit(c: char) { '0' <= c <= '9' }

  /** Length of the digits that a text starts with. */
  function Run(h: string): (n: nat)
    ensures n <= |h| && (forall i :: 0 <= i < n ==> IsDigit(h[i])) && (n < |h| ==> !IsDigit(h[n]))
  {
    if h == "" || !IsDigit(h[0]) then 0 else 1 + Run(h[1..])
  }

  predicate StartsWithDigit(h: string) { h != "" && IsDigit(h[0]) }

  /** A host is kept if its leading groups of digits, of which `count` have been seen, are not followed
      by a dot without a digit after it, and if nothing follows a fourth group. */
  predicate Kept(h: string, count: nat)
    requires count < 4
    decreases 4 - count
  {
    if !StartsWithDigit(h) then true
    else
      var r := h[Run(h)..];
      if count == 3 then r == ""
      else if r == "" || r[0] != '.' then true
      else StartsWithDigit(r[1..]) && Kept(r[1..], count + 1)
  }

  /** The host that is read, and what is left of the text. */
  function Read(h: string, count: nat): (r: (string, string))
    requires count < 4
    decreases 4 - count
  {
    if !StartsWithDigit(h) then (h, "")
    else
      var ds, r := h[..Run(h)], h[Run(h)..];
      if count == 3 then (ds, r)
      else if r == "" || r[0] != '.' then (h, "")
      else if !StartsWithDigit(r[1..]) then (ds + r[1..], "")
      else
        var more := Read(r[1..], count + 1);
        (ds + "." + more.0, more.1)
  }

  lemma {:induction false} ReadIsKept(h: string, count: nat)
    requires count < 4
    ensures Read(h, count) == (h, "") <==> Kept(h, count)
    decreases 4 - count
  {
    if StartsWithDigit(h) {
      var n := Run(h);
      var ds, r := h[..n], h[n..];
      assert h == ds + r && (r == "" ==> ds == h);
      if count < 3 && r != "" && r[0] == '.' {
        assert r == "." + r[1..];
        if StartsWithDigit(r[1..]) {
          ReadIsKept(r[1..], count + 1);
          var more := Read(r[1..], count + 1);
          assert h == ds + "." + r[1..];
          if Read(h, count) == (h, "") {
            SameEnd(ds + ".", more.0, r[1..]);
          }
        } else {
          assert |ds + r[1..]| < |h|;
        }
      }
    }
  }

  lemma SameEnd(a: string, b: string, c: string)
    requires a + b == a + c
    ensures b == c
  {
    assert (a + b)[|a|..] == b && (a + c)[|a|..] == c;
  }

  // Reading

  lemma ManyStep(ts: seq<Tok>, s: Set, h: string, t: seq<Tok>)
    requires ts != [] && h != "" && ts[0] == Tok(h[0], false) && In(ts[0], s)
    requires Sound(ts[1..]) && Many(ts[1..], s) == Ok(h[1..], t)
    ensures Many(ts, s) == Ok(h, t)
  {
    hide In;
    assert h == [h[0]] + h[1..];
  }

  lemma ManyEnd(t: seq<Tok>, s: Set)
    requires Ends(t, s)
    ensures Many(t, s) == Ok("", t)
  {
  }

  lemma {:induction false} ManyPlain(h: string, t: seq<Tok>)
    requires PlainHost(h) && Ends(t, HostChars)
    ensures Many(Lit(h) + t, HostChars) == Ok(h, t)
    decreases |h|
  {
    hide In, Many;
    var ts := Lit(h) + t;
    if h == "" {
      assert ts == t;
      ManyEnd(t, HostChars);
    } else {
      assert ts[1..] == Lit(h[1..]) + t;
      assert h[1..] != "" ==> ts[1..][0] == Tok(h[1], false);
      assert HostChar(h[0]);
      ManyPlain(h[1..], t);
      ManyStep(ts, HostChars, h, t);
    }
  }

  lemma HeadKind(h: string, t: seq<Tok>)
    requires PlainHost(h) && HeadIs(t, ':')
    ensures
      var ts := Lit(h) + t;
      && ts != [] && Sound(ts)
      && (KindOf(ts[0]) == Digit <==> StartsWithDigit(h))
      && (HeadIs(ts, '.') <==> h != "" && h[0] == '.')
      && (HeadIs(ts, ':') <==> h == "")
      && !HeadIs(ts, '[')
  {
    var ts := Lit(h) + t;
    if h == "" {
      assert ts == t;
    } else {
      assert ts[0] == Tok(h[0], false) && HostChar(h[0]);
    }
  }

  lemma PlainParts(h: string, n: nat)
    requires PlainHost(h) && n <= |h|
    ensures PlainHost(h[n..])
  {
    hide In;
  }

  lemma LitParts(h: string, n: nat, t: seq<Tok>)
    requires n <= |h|
    ensures Lit(h) + t == Lit(h[..n]) + (Lit(h[n..]) + t)
  {
    hide Lit;
    LitSplit(h, h[..n], h[n..], t);
  }

  lemma LitSplit(h: string, a: string, b: string, t: seq<Tok>)
    requires h == a + b
    ensures Lit(h) + t == Lit(a) + (Lit(b) + t)
  {
    hide Lit;
    assert Lit(h) == Lit(a) + Lit(b) by { LitAppend(a, b); }
    AssocToks(Lit(a), Lit(b), t);
  }

  /** What follows the digits at the start of a host. */
  lemma AfterDigits(h: string, t: seq<Tok>)
    requires PlainHost(h) && StartsWithDigit(h) && HeadIs(t, ':')
    ensures
      var ds, r := h[..Run(h)], h[Run(h)..];
      && Many(Lit(h) + t, Digits) == Ok(ds, Lit(r) + t)
      && PlainHost(r) && (r != "" ==> !IsDigit(r[0]))
  {
    hide In, Many;
    var n := Run(h);
    var r := h[n..];
    LitParts(h, n, t);
    PlainParts(h, n);
    HeadKind(r, t);
    NotDigits(Lit(r) + t);
    ManyDigits(h[..n], Lit(r) + t, Digits);
  }

  lemma NotDigits(ts: seq<Tok>)
    requires Sound(ts) && (ts != [] ==> KindOf(ts[0]) != Digit)
    ensures Ends(ts, Digits)
  {
  }

  /** The number of groups that are read. */
  function Seen(h: string, count: nat): (n: nat)
    requires count < 4
    ensures n <= 4
    decreases 4 - count
  {
    if !StartsWithDigit(h) then count
    else
      var r := h[Run(h)..];
      if count == 3 then 4
      else if r == "" || r[0] != '.' then count + 1
      else Seen(r[1..], count + 1)
  }

  /** The groups that are read, with the dots between them, and what follows them. */
  function GroupsOf(h: string, count: nat, addr: string): (string, string)
    requires count < 4
    decreases 4 - count
  {
    if !StartsWithDigit(h) then (addr, h)
    else
      var addr1, r := addr + (if count > 0 then "." else "") + h[..Run(h)], h[Run(h)..];
      if count == 3 || r == "" || r[0] != '.' then (addr1, r) else GroupsOf(r[1..], count + 1, addr1)
  }

  lemma {:induction false} GroupsAreRead(h: string, t: seq<Tok>, count: nat, addr: string)
    requires PlainHost(h) && HeadIs(t, ':') && count < 4
    ensures
      var g := GroupsOf(h, count, addr);
      Groups(Lit(h) + t, count, addr) == Ok((Seen(h, count), g.0), Lit(g.1) + t) && PlainHost(g.1)
    decreases 4 - count
  {
    hide In, Many, Lit;
    HeadKind(h, t);
    if StartsWithDigit(h) {
      AfterDigits(h, t);
      var r := h[Run(h)..];
      HeadKind(r, t);
      if count < 3 && r != "" && r[0] == '.' {
        PlainParts(r, 1);
        HeadKind(r[1..], t);
        LitParts(r, 1, t);
        assert r[..1] == ".";
        OneLit('.', Lit(r[1..]) + t);
        GroupsAreRead(r[1..], t, count + 1, addr + (if count > 0 then "." else "") + h[..Run(h)]);
      } else if count < 3 {
        OneNo(Lit(r) + t, '.');
      }
    }
  }

  lemma Assoc(a: string, b: string, c: string, d: string)
    ensures a + b + c + d == a + b + (c + d)
  {
  }

  predicate Dotted(h: string, count: nat) {
    count < 3 && var r := h[Run(h)..]; r != "" && r[0] == '.'
  }

  /** One group, as the three functions see it. */
  lemma OneGroup(h: string, count: nat, addr: string)
    requires count < 4
    ensures !StartsWithDigit(h) ==>
      GroupsOf(h, count, addr) == (addr, h) && Read(h, count) == (h, "") && Seen(h, count) == count
    ensures StartsWithDigit(h) ==>
      var ds, r := h[..Run(h)], h[Run(h)..];
      var addr1 := addr + (if count > 0 then "." else "") + ds;
      if Dotted(h, count) then
        && GroupsOf(h, count, addr) == GroupsOf(r[1..], count + 1, addr1) && Seen(h, count) == Seen(r[1..], count + 1)
        && (StartsWithDigit(r[1..]) ==>
              Read(h, count) == (ds + "." + Read(r[1..], count + 1).0, Read(r[1..], count + 1).1))
        && (!StartsWithDigit(r[1..]) ==> Read(h, count) == (ds + r[1..], ""))
      else
        && GroupsOf(h, count, addr) == (addr1, r) && Seen(h, count) == count + 1
        && Read(h, count) == if count == 3 then (ds, r) else (h, "")
  {
    hide Run;
  }

  /** The groups and what follows them are the host that is read. */
  lemma {:induction false} GroupsAreHost(h: string, count: nat, addr: string)
    requires count < 4
    ensures
      var g, r := GroupsOf(h, count, addr), Read(h, count);
      var glue := if count > 0 && StartsWithDigit(h) then "." else "";
      if Seen(h, count) == 4 then g.0 == addr + glue + r.0 && g.1 == r.1
      else g.0 + g.1 == addr + glue + r.0 && r.1 == ""
    decreases 4 - count
  {
    hide Run, GroupsOf, Read, Seen;
    OneGroup(h, count, addr);
    if !StartsWithDigit(h) {
      assert addr + "" == addr;
    } else {
      var n, glue := Run(h), if count > 0 then "." else "";
      var ds, r := h[..n], h[n..];
      if Dotted(h, count) {
        GroupsAreHost(r[1..], count + 1, addr + glue + ds);
        if StartsWithDigit(r[1..]) {
          Glued(addr, glue, ds, Read(r[1..], count + 1).0);
        } else {
          OneGroup(r[1..], count + 1, addr + glue + ds);
          Assoc(addr, glue, ds, r[1..]);
        }
      } else {
        Assoc(addr, glue, ds, r);
        assert ds + r == h;
      }
    }
  }

  lemma Glued(addr: string, glue: string, ds: string, more: string)
    ensures addr + glue + ds + "." + more == addr + glue + (ds + "." + more)
  {
    assert ds + "." + more == ds + ("." + more);
    Assoc(addr, glue, ds, "." + more);
  }

  /** What is read of every plain host that a port follows. */
  lemma AddressOf(h: string, port: nat, rest: seq<Tok>)
    requires PlainHost(h) && Ends(rest, Digits)
    ensures
      var r, t := Read(h, 0), Lit(":") + (Lit(E.Digits(port)) + rest);
      IpAddress(Lit(h) + t) ==
        if r.1 == "" then Ok(Addr(r.0, E.Digits(port)), rest)
        else Ok(Addr(r.0, ""), Lit(r.1) + t)
  {
    hide In, Many, Lit, E.Digits, Groups, Read, GroupsOf, Seen;
    var ds := E.Digits(port);
    PrintedDigits(port);
    SoundLit(ds, rest);
    var t := Lit(":") + (Lit(ds) + rest);
    OneLit(':', Lit(ds) + rest);
    assert HeadIs(t, ':');
    HeadKind(h, t);
    GroupsAreRead(h, t, 0, "");
    GroupsAreHost(h, 0, "");
    var g, r := GroupsOf(h, 0, ""), Read(h, 0);
    assert "" + "" + r.0 == r.0;
    ManyDigits(ds, rest, Digits);
    if Seen(h, 0) < 4 {
      ColonEnds(t);
      ManyPlain(g.1, t);
    } else {
      HeadKind(r.1, t);
      assert r.1 == "" ==> Lit(r.1) + t == t by { NothingLit(t); }
    }
  }

  lemma ColonEnds(t: seq<Tok>)
    requires HeadIs(t, ':')
    ensures Ends(t, HostChars)
  {
  }

  /** A plain host with a port is read as it is if and only if it is kept. */
  lemma PlainHostIsRead(h: string, port: nat, rest: seq<Tok>)
    requires PlainHost(h) && Ends(rest, Digits)
    ensures
      IpAddress(Lit(h) + (Lit(":") + (Lit(E.Digits(port)) + rest))) == Ok(Addr(h, E.Digits(port)), rest) <==> Kept(h, 0)
  {
    hide IpAddress, Lit, E.Digits, Read, Kept, PlainHost;
    AddressOf(h, port, rest);
    ReadIsKept(h, 0);
    PrintedDigits(port);
  }

  /** A family that is not: one group of digits and a dot before a name lose the dot. */
  lemma DotIsLost(ds: string, name: string, port: nat, rest: seq<Tok>)
    requires ds != "" && AllDigitChars(ds) && PlainHost(name) && !StartsWithDigit(name) && Ends(rest, Digits)
    ensures
      IpAddress(Lit(ds + "." + name) + (Lit(":") + (Lit(E.Digits(port)) + rest))) ==
        Ok(Addr(ds + name, E.Digits(port)), rest)
  {
    hide IpAddress, Lit, E.Digits, In;
    var h := ds + "." + name;
    RunOfDigits(ds, "." + name);
    assert h == ds + ("." + name);
    assert h[..|ds|] == ds && h[|ds|..] == "." + name && ("." + name)[1..] == name;
    DigitsArePlain(ds, name);
    AddressOf(h, port, rest);
  }

  lemma {:induction false} RunOfDigits(ds: string, t: string)
    requires AllDigitChars(ds) && !StartsWithDigit(t)
    ensures Run(ds + t) == |ds|
    decreases |ds|
  {
    if ds == "" {
      assert ds + t == t;
    } else {
      assert (ds + t)[1..] == ds[1..] + t;
      RunOfDigits(ds[1..], t);
    }
  }

  lemma DigitsArePlain(ds: string, name: string)
    requires AllDigitChars(ds) && PlainHost(name)
    ensures PlainHost(ds + "." + name)
  {
    hide In;
    forall i | 0 <= i < |ds|
      ensures HostChar(ds[i])
    {
      DigitChar(ds[i], HostChars);
    }
    DotIsPlain();
  }

  lemma DotIsPlain()
    ensures HostChar('.')
  {
  }

  // Entries of a host list that are no host-priority pair

  /** The entry starts with `(address` in any spelling, and no `=` follows. */
  predicate Stray(ts: seq<Tok>) {
    && HeadIs(ts, '(') && |ts| >= 8
    && (forall k :: 0 <= k < 7 ==> SameLetter(ts[1 + k], "address"[k]))
    && !HeadIs(ts[8..], '=')
  }

  lemma {:induction false} WordSpelled(ts: seq<Tok>, w: string)
    ensures Word(ts, w).Ok? ==>
      |ts| >= |w| && Word(ts, w).rest == ts[|w|..] && forall k :: 0 <= k < |w| ==> SameLetter(ts[k], w[k])
    ensures Word(ts, w).No? ==> |ts| < |w| || exists k :: 0 <= k < |w| && !SameLetter(ts[k], w[k])
    decreases |w|
  {
    hide SameLetter;
    if w != "" && ts != [] && SameLetter(ts[0], w[0]) && !Broken(ts[1..]) {
      WordSpelled(ts[1..], w[1..]);
      assert forall k :: 0 < k < |w| ==> w[k] == w[1..][k - 1];
      if Word(ts, w).Ok? {
        assert ts[1..][|w| - 1..] == ts[|w|..];
        forall k | 0 <= k < |w|
          ensures SameLetter(ts[k], w[k])
        {
          assert k > 0 ==> ts[k] == ts[1..][k - 1];
        }
      } else if Word(ts, w).No? && |ts| >= |w| {
        var k :| 0 <= k < |w[1..]| && !SameLetter(ts[1..][k], w[1..][k]);
        assert !SameLetter(ts[k + 1], w[k + 1]);
      }
    }
  }

  /** Read from its first character such an entry is an error: what is in the parentheses starts with a
      letter, so it is no path. */
  lemma StrayIsNoAddress(ts: seq<Tok>)
    requires Stray(ts)
    ensures Reported(Host(ts), 0) == Err
  {
    hide Inside, SameLetter, In;
    var r := ts[1..];
    assert SameLetter(ts[1], "address"[0]);
    LetterA(ts[1]);
    InsideLetter(r);
  }

  lemma LetterA(t: Tok)
    requires SameLetter(t, 'a')
    ensures t.Tok? && IsAlpha(t.c) && forall s :: s != Digits ==> In(t, s)
  {
    var c := t.c;
    assert E.Lower([c]) == [if 'A' <= c <= 'Z' then ((c as int) + 32) as char else c] + E.Lower([c][1..]);
    assert E.Lower(['a']) == ['a'] + E.Lower(['a'][1..]);
    assert E.Lower([c])[0] == E.Lower(['a'])[0];
  }

  lemma InsideLetter(r: seq<Tok>)
    requires r != [] && r[0].Tok? && IsAlpha(r[0].c) && In(r[0], NpChars)
    ensures Inside(r).Ok? ==> Inside(r).v != "" && Inside(r).v[0] == r[0].c
  {
    hide In, Balanced;
    var m := Many(r, NpChars);
    assert m.Ok? ==> m.v != "" && m.v[0] == r[0].c;
  }

  /** An entry that is no host-priority pair is read as a host, from its first character if and only if
      it is not of that form; otherwise from its second. */
  lemma EntryResumes(ts: seq<Tok>)
    requires Opening(ts).Ok? && !Opening(ts).v
    ensures Opening(ts).rest == (if Stray(ts) then ts[1..] else ts)
    ensures ListEntry(ts) == Reported(Host(if Stray(ts) then ts[1..] else ts), 0)
    ensures Stray(ts) ==> Reported(Host(ts), 0) == Err
  {
    hide Word, SameLetter, Host, Report;
    if Stray(ts) {
      StrayIsNoAddress(ts);
    }
    if HeadIs(ts, '(') {
      var r := ts[1..];
      WordSpelled(r, "address");
      assert forall k :: 0 <= k < |r| ==> r[k] == ts[1 + k];
      if Word(r, "address").Ok? {
        assert r[7..] == ts[8..];
        assert forall k :: 0 <= k < 7 ==> SameLetter(ts[1 + k], "address"[k]);
      } else if |ts| >= 8 {
        var k :| 0 <= k < 7 && !SameLetter(r[k], "address"[k]);
        assert !SameLetter(ts[1 + k], "address"[k]);
      }
    }
  }

  /** A family that is read wrongly: for `(address` and any plain characters after it that do not
      start with `=`, what follows the parenthesis is reported as a host, while the whole entry would
      be an error. */
  lemma StrayIsHost(more: string, rest: seq<Tok>)
    requires PlainHost(more) && (more == "" || more[0] != '=') && EndsHost(rest)
    ensures
      var ts := Lit("(") + (Lit("address") + (Lit(more) + rest));
      ListEntry(ts) == Ok(HostIs(0, "address" + more), rest) && Reported(Host(ts), 0) == Err
  {
    hide Lit, Word, Host, In, Many, Opening, Reported, One, PlainHost, EndsHost, HostPriority;
    var t := Lit(more) + rest;
    var r := Lit("address") + t;
    SoundPlain(more, rest);
    SoundLit("address", t);
    OneLit('(', r);
    WordLit("address", t);
    NoEquals(more, rest);
    OpensStray(Lit("(") + r, r, t);
    StrayHost(more, rest);
    EntryResumes(Lit("(") + r);
    StrayTokens(more, rest);
  }

  /** One such entry: in the list `[(address)]` the entry is reported as the host `address)`. */
  lemma StrayEntry()
    ensures
      var ts := Lit("(") + (Lit("address") + (Lit(")") + Lit("]")));
      ListEntry(ts) == Ok(HostIs(0, "address)"), Lit("]")) && Reported(Host(ts), 0) == Err
  {
    assert PlainHost(")") && EndsHost(Lit("]"));
    StrayIsHost(")", Lit("]"));
    assert "address" + ")" == "address)";
  }

  lemma StrayHost(more: string, rest: seq<Tok>)
    requires PlainHost(more) && EndsHost(rest)
    ensures Reported(Host(Lit("address") + (Lit(more) + rest)), 0) == Ok(HostIs(0, "address" + more), rest)
  {
    hide Lit, Host, In, Report, PlainHost;
    var w := "address";
    var h := w + more;
    LitAppend(w, more);
    AssocToks(Lit(w), Lit(more), rest);
    AddressIsPlain(more);
    assert h[0] == 'a';
    PlainIsHost(h, rest);
    NameIsHost(h);
  }

  lemma NameIsHost(h: string)
    requires h != "" && IsAlpha(h[0])
    ensures Report(Found(true, true, Addr(h, "")), 0) == Some(HostIs(0, h))
  {
    assert |h| >= 4 ==> h[..4][0] == h[0];
  }

  lemma StrayTokens(more: string, rest: seq<Tok>)
    requires One(Lit(more) + rest, '=') == No
    ensures Stray(Lit("(") + (Lit("address") + (Lit(more) + rest)))
  {
    hide SameLetter, Lit;
    var t := Lit(more) + rest;
    var ts := Lit("(") + (Lit("address") + t);
    assert |Lit("(")| == 1 && |Lit("address")| == 7;
    assert ts[0] == Tok('(', false) && ts[8..] == t;
    forall k | 0 <= k < 7
      ensures SameLetter(ts[1 + k], "address"[k])
    {
      assert ts[1 + k] == Tok("address"[k], false);
      SameAsWritten("address"[k]);
    }
  }

  lemma SameAsWritten(c: char)
    ensures SameLetter(Tok(c, false), c)
  {
  }

  lemma OpensStray(ts: seq<Tok>, r: seq<Tok>, t: seq<Tok>)
    requires One(ts, '(') == Ok((), r) && Word(r, "address") == Ok((), t) && One(t, '=') == No
    ensures Opening(ts) == Ok(false, r)
  {
  }

  lemma SoundPlain(h: string, rest: seq<Tok>)
    requires EndsHost(rest)
    ensures Sound(Lit(h) + rest) && Sound(rest)
  {
    assert h == "" ==> Lit(h) + rest == rest;
    assert h != "" ==> (Lit(h) + rest)[0] == Tok(h[0], false);
  }

  lemma NoEquals(more: string, rest: seq<Tok>)
    requires (more == "" || more[0] != '=') && EndsHost(rest)
    ensures One(Lit(more) + rest, '=') == No
  {
    assert more == "" ==> Lit(more) + rest == rest;
    assert more != "" ==> (Lit(more) + rest)[0] == Tok(more[0], false);
  }

  lemma AddressIsPlain(more: string)
    requires PlainHost(more)
    ensures PlainHost("address" + more)
  {
    hide In;
    LettersArePlain();
  }

  lemma LettersArePlain()
    ensures HostChar('a') && HostChar('d') && HostChar('r') && HostChar('e') && HostChar('s')
  {
  }

  /** A plain host that starts with a letter and has no port. */
  lemma PlainIsHost(h: string, rest: seq<Tok>)
    requires PlainHost(h) && h != "" && IsAlpha(h[0]) && EndsHost(rest)
    ensures Host(Lit(h) + rest) == Ok(Found(true, true, Addr(h, "")), rest)
  {
    hide Lit, Many, In, V6;
    var ts := Lit(h) + rest;
    LetterFirst(h, rest);
    HostEnds(rest);
    ManyPlain(h, rest);
    assert Groups(ts, 0, "") == Ok((0, ""), ts);
    assert Plain(ts) == No;
  }

  lemma LetterFirst(h: string, rest: seq<Tok>)
    requires h != "" && IsAlpha(h[0])
    ensures (Lit(h) + rest)[0] == Tok(h[0], false) && KindOf((Lit(h) + rest)[0]) == Letter
  {
  }

  lemma HostEnds(rest: seq<Tok>)
    requires EndsHost(rest)
    ensures Ends(rest, HostChars) && !HeadIs(rest, ':')
  {
  }
}
