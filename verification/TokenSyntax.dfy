/** What the tokenizer makes of a text. */
module TokenSyntax {

  import opened Wrappers

  datatype Kind = Word | QWord | QString | QQString | Number | Integer | Hex | Symbol

  /** A token, its characters and its range in the input. */
  datatype Token = Token(kind: Kind, text: string, begin: nat, end: nat)

  predicate IsSpace(c: char) { c == ' ' || '\t' <= c <= '\r' }

  predicate IsDigit(c: char) { '0' <= c <= '9' }

  predicate IsHexDigit(c: char) { IsDigit(c) || 'A' <= c <= 'F' || 'a' <= c <= 'f' }

  predicate IsWordChar(c: char) { c == '_' || IsDigit(c) || 'a' <= c <= 'z' || 'A' <= c <= 'Z' }

  /** Symbols of several characters, in the order in which they are tried. */
  const Longer: seq<string> := ["!=", "<>", ">=", "<=", "<<", ">>", "**", "->>", "->", "&&", "||", "=="]

  const Single: string := "(){}[].,=><&|^+-*/%!~?:$"

  datatype Class = Space | Digits | HexDigits | WordChars

  predicate In(c: char, k: Class) {
    match k
    case Space => IsSpace(c)
    case Digits => IsDigit(c)
    case HexDigits => IsHexDigit(c)
    case WordChars => IsWordChar(c)
  }

  predicate CharIs(s: string, p: nat, c: char) { p < |s| && s[p] == c }

  predicate CharIn(s: string, p: nat, k: Class) { p < |s| && In(s[p], k) }

  /** End of the run of characters of a class. */
  function RunEnd(s: string, p: nat, k: Class): (e: nat)
    requires p <= |s|
    ensures p <= e <= |s| && !CharIn(s, e, k)
    ensures forall i :: p <= i < e ==> In(s[i], k)
    decreases |s| - p
  {
    if CharIn(s, p, k) then RunEnd(s, p + 1, k) else p
  }

  /** `Fail` is an error, `Not` that another kind of token must be tried. */
  datatype Lexeme = Found(kind: Kind, text: string, end: nat) | Not | Fail

  // Quoted strings

  /** Characters up to the closing quote. A backslash takes any character as it is, and a quote
      that is repeated stands for itself. */
  function Unquoted(q: char, s: string, p: nat): (r: Option<(string, nat)>)
    ensures r.Some? ==> p < r.value.1 <= |s|
    decreases |s| - p
  {
    if p >= |s| then None
    else if s[p] == '\\' && q != '\\' then
      if p + 1 >= |s| then None else Put(s[p + 1], Unquoted(q, s, p + 2))
    else if s[p] == q then
      if CharIs(s, p + 1, q) then Put(q, Unquoted(q, s, p + 2)) else Some(("", p + 1))
    else Put(s[p], Unquoted(q, s, p + 1))
  }

  function Put(c: char, r: Option<(string, nat)>): Option<(string, nat)> {
    match r
    case None => None
    case Some((t, e)) => Some(([c] + t, e))
  }

  function QuotedAt(kind: Kind, q: char, s: string, p: nat): Lexeme {
    match Unquoted(q, s, p + 1)
    case None => Fail
    case Some((t, e)) => Found(kind, t, e)
  }

  function StringAt(s: string, p: nat): Lexeme
    requires p < |s|
  {
    if s[p] == '"' then QuotedAt(QQString, '"', s, p)
    else if s[p] == '\'' then QuotedAt(QString, '\'', s, p)
    else Not
  }

  // Numbers

  function HexAt(s: string, p: nat): (l: Lexeme)
    requires p < |s|
    ensures l.Found? ==> p < l.end <= |s|
  {
    if (s[p] == 'X' || s[p] == 'x') && CharIs(s, p + 1, '\'') then
      var e := RunEnd(s, p + 2, HexDigits);
      if e == p + 2 || !CharIs(s, e, '\'') then Fail else Found(Hex, s[p + 2..e], e + 1)
    else if s[p] == '0' && (CharIs(s, p + 1, 'X') || CharIs(s, p + 1, 'x')) then
      var e := RunEnd(s, p + 2, HexDigits);
      if e == p + 2 then Fail else Found(Hex, s[p + 2..e], e)
    else Not
  }

  function Exponent(s: string, p: nat, e: nat, float: bool): (l: Lexeme)
    requires p < e <= |s|
    ensures l.Found? ==> e <= l.end <= |s| && l.text == s[p..l.end]
    ensures !l.Not?
  {
    if CharIs(s, e, 'E') || CharIs(s, e, 'e') then
      var e1 := if CharIs(s, e + 1, '+') || CharIs(s, e + 1, '-') then e + 2 else e + 1;
      var e2 := RunEnd(s, e1, Digits);
      if e2 == e1 then Fail else Found(Number, s[p..e2], e2)
    else Found(if float then Number else Integer, s[p..e], e)
  }

  /** A dot starts a number only if a digit follows; a dot inside must be followed by a digit. */
  function NumberAt(s: string, p: nat): (l: Lexeme)
    requires p < |s|
    ensures l.Found? ==> p < l.end <= |s| && l.text == s[p..l.end]
  {
    if s[p] == '.' && !CharIn(s, p + 1, Digits) then Not
    else
      var e := RunEnd(s, p, Digits);
      if e == p && s[p] != '.' then Not
      else if CharIs(s, e, '.') then
        var e1 := RunEnd(s, e + 1, Digits);
        if e1 == e + 1 then Fail else Exponent(s, p, e1, true)
      else Exponent(s, p, e, false)
  }

  // Symbols and words

  predicate Starts(w: string, s: string, p: nat) { p + |w| <= |s| && s[p..p + |w|] == w }

  /** The first of `ws` that is at position `p`. */
  function FirstOf(ws: seq<string>, s: string, p: nat): Option<string> {
    if ws == [] then None else if Starts(ws[0], s, p) then Some(ws[0]) else FirstOf(ws[1..], s, p)
  }

  function SymbolAt(s: string, p: nat): Lexeme
    requires p < |s|
  {
    var w := FirstOf(Longer, s, p);
    if w.Some? then Found(Symbol, w.value, p + |w.value|)
    else if s[p] in Single then Found(Symbol, [s[p]], p + 1)
    else Not
  }

  function WordAt(s: string, p: nat): Lexeme
    requires p < |s|
  {
    if s[p] == '`' then QuotedAt(QWord, '`', s, p)
    else
      var e := RunEnd(s, p, WordChars);
      if e == p then Not else Found(Word, s[p..e], e)
  }

  /** The token at a position that is not a space. */
  function TokenAt(s: string, p: nat): Lexeme
    requires p < |s|
  {
    if !StringAt(s, p).Not? then StringAt(s, p)
    else if !HexAt(s, p).Not? then HexAt(s, p)
    else if !NumberAt(s, p).Not? then NumberAt(s, p)
    else if !SymbolAt(s, p).Not? then SymbolAt(s, p)
    else if WordAt(s, p).Not? then Fail
    else WordAt(s, p)
  }

  /** All tokens, and where tokenizing stopped: at the end, or at a zero character that follows a
      token directly. A zero character after a space is an error. */
  datatype Tokens = Tokens(ts: seq<Token>, stop: nat) | Error

  function AllFrom(s: string, p: nat): (r: Tokens)
    requires p <= |s|
    decreases |s| - p
  {
    if p == |s| || s[p] == '\0' then Tokens([], p)
    else
      var b := RunEnd(s, p, Space);
      if b == |s| then Tokens([], b)
      else
        match TokenAt(s, b)
        case Found(kind, text, e) =>
          if b < e <= |s| then
            match AllFrom(s, e)
            case Tokens(ts, stop) => Tokens([Token(kind, text, b, e)] + ts, stop)
            case Error => Error
          else Error
        case _ => Error
  }

  // What holds of every tokenized text

  lemma FoundAdvances(s: string, p: nat)
    requires p < |s|
    ensures TokenAt(s, p).Found? ==> p < TokenAt(s, p).end <= |s|
    ensures !TokenAt(s, p).Not?
  {
    hide Unquoted, RunEnd, HexAt, NumberAt;
    FirstIsIn(Longer, s, p);
    LongerNonEmpty();
  }

  lemma LongerNonEmpty()
    ensures forall w :: w in Longer ==> w != ""
  {
  }

  lemma {:induction false} FirstIsIn(ws: seq<string>, s: string, p: nat)
    ensures
      var w := FirstOf(ws, s, p);
      if w.Some? then
        w.value in ws && Starts(w.value, s, p)
      else
        forall v :: v in ws ==> !Starts(v, s, p)
    decreases |ws|
  {
    if ws != [] {
      FirstIsIn(ws[1..], s, p);
      assert forall v :: v in ws ==> v == ws[0] || v in ws[1..];
    }
  }

  /** No two symbols are in a wrong order: an earlier one is not the start of a later one. */
  lemma LongerOrdered()
    ensures forall i, j :: 0 <= i < j < |Longer| && |Longer[i]| < |Longer[j]| ==> Longer[j][..|Longer[i]|] != Longer[i]
  {
    assert Longer[7] == "->>" && forall k :: 0 <= k < |Longer| && k != 7 ==> |Longer[k]| == 2;
    assert forall i :: 0 <= i < 7 ==> Longer[i][0] != '-';
    forall i, j | 0 <= i < j < |Longer| && |Longer[i]| < |Longer[j]|
      ensures Longer[j][..|Longer[i]|] != Longer[i]
    {
      assert Longer[j][..2][0] == '-';
    }
  }

  lemma {:induction false} FirstIsLongest(ws: seq<string>, s: string, p: nat)
    requires forall i, j :: 0 <= i < j < |ws| && |ws[i]| < |ws[j]| ==> ws[j][..|ws[i]|] != ws[i]
    ensures
      var w := FirstOf(ws, s, p);
      w.Some? ==> forall v :: v in ws && Starts(v, s, p) ==> |v| <= |w.value|
    decreases |ws|
  {
    if ws != [] {
      if Starts(ws[0], s, p) {
        forall j | 0 <= j < |ws| && Starts(ws[j], s, p)
          ensures |ws[j]| <= |ws[0]|
        {
          if |ws[0]| <= |ws[j]| {
            assert ws[j][..|ws[0]|] == s[p..p + |ws[0]|];
          }
        }
      } else {
        FirstIsLongest(ws[1..], s, p);
      }
    }
  }

  predicate IsSymbol(w: string) { w in Longer || (|w| == 1 && w[0] in Single) }

  /** A symbol is the longest one that is there, and it is missed only if there is none. */
  lemma LongestSymbol(s: string, p: nat, v: string)
    requires p < |s| && IsSymbol(v) && Starts(v, s, p)
    ensures SymbolAt(s, p).Found? && IsSymbol(SymbolAt(s, p).text) && Starts(SymbolAt(s, p).text, s, p)
    ensures |v| <= |SymbolAt(s, p).text|
  {
    FirstIsIn(Longer, s, p);
    LongerOrdered();
    FirstIsLongest(Longer, s, p);
    LongerNonEmpty();
    assert v !in Longer ==> v == [s[p]];
    assert FirstOf(Longer, s, p).None? ==> Starts([s[p]], s, p);
  }

  predicate InToken(ts: seq<Token>, i: nat) { exists k :: 0 <= k < |ts| && ts[k].begin <= i < ts[k].end }

  /** The ranges are not empty, do not overlap, increase, and are inside the input. */
  predicate Placed(ts: seq<Token>, from: nat, to: nat) {
    && (forall k :: 0 <= k < |ts| ==> from <= ts[k].begin < ts[k].end <= to)
    && (forall k, l :: 0 <= k < l < |ts| ==> ts[k].end <= ts[l].begin)
  }

  /** Every character that is not in a token is a space. */
  ghost predicate Covers(s: string, ts: seq<Token>, from: nat, to: nat)
    requires to <= |s|
  {
    forall i: nat :: from <= i < to && !IsSpace(s[i]) ==> InToken(ts, i)
  }

  lemma {:induction false} TokensCover(s: string, p: nat)
    requires p <= |s|
    ensures
      AllFrom(s, p).Tokens? ==>
        var (ts, stop) := (AllFrom(s, p).ts, AllFrom(s, p).stop);
        && p <= stop <= |s| && (stop == |s| || s[stop] == '\0')
        && Placed(ts, p, stop) && Covers(s, ts, p, stop)
    decreases |s| - p
  {
    hide TokenAt, InToken, IsSpace;
    if p < |s| && s[p] != '\0' {
      var b := RunEnd(s, p, Space);
      SpacesAre(s, p, b);
      if b < |s| {
        var l := TokenAt(s, b);
        if l.Found? && b < l.end <= |s| {
          TokensCover(s, l.end);
          var r := AllFrom(s, l.end);
          if r.Tokens? {
            CoverStep(s, p, Token(l.kind, l.text, b, l.end), r.ts, r.stop);
          }
        }
      }
    }
  }

  lemma SpacesAre(s: string, p: nat, e: nat)
    requires p <= e <= |s| && forall i :: p <= i < e ==> In(s[i], Space)
    ensures forall i :: p <= i < e ==> IsSpace(s[i])
  {
  }

  lemma CoverStep(s: string, p: nat, t: Token, ts: seq<Token>, stop: nat)
    requires p <= t.begin < t.end <= stop <= |s| && (forall i :: p <= i < t.begin ==> IsSpace(s[i]))
    requires Placed(ts, t.end, stop) && Covers(s, ts, t.end, stop)
    ensures Placed([t] + ts, p, stop) && Covers(s, [t] + ts, p, stop)
  {
    hide IsSpace;
    var all := [t] + ts;
    assert forall k :: 1 <= k < |all| ==> all[k] == ts[k - 1];
    forall i: nat | p <= i < stop && !IsSpace(s[i])
      ensures InToken(all, i)
    {
      if i < t.end {
        assert all[0].begin <= i < all[0].end;
      } else {
        var k :| 0 <= k < |ts| && ts[k].begin <= i < ts[k].end;
        assert all[k + 1] == ts[k];
      }
    }
  }

  // Quoting and unquoting

  /** Quotes and backslashes escaped with a backslash. */
  function Escaped(q: char, t: string): string {
    if t == "" then [q]
    else (if t[0] == q || t[0] == '\\' then ['\\', t[0]] else [t[0]]) + Escaped(q, t[1..])
  }

  /** Quotes doubled and backslashes escaped. */
  function Doubled(q: char, t: string): string {
    if t == "" then [q]
    else (if t[0] == q then [q, q] else if t[0] == '\\' then ['\\', '\\'] else [t[0]]) + Doubled(q, t[1..])
  }

  /** One step of reading, by the characters at hand. */
  function Step(q: char, s: string, p: nat): nat
    requires p < |s|
  {
    if s[p] == '\\' && q != '\\' then (if p + 1 < |s| then 1 else 0)
    else if s[p] == q then (if CharIs(s, p + 1, q) then 2 else 3)
    else 4
  }

  lemma UnquotedStep(q: char, s: string, p: nat)
    requires p < |s|
    ensures Step(q, s, p) == 0 ==> Unquoted(q, s, p) == None
    ensures Step(q, s, p) == 1 ==> p + 1 < |s| && Unquoted(q, s, p) == Put(s[p + 1], Unquoted(q, s, p + 2))
    ensures Step(q, s, p) == 2 ==> Unquoted(q, s, p) == Put(q, Unquoted(q, s, p + 2))
    ensures Step(q, s, p) == 3 ==> Unquoted(q, s, p) == Some(("", p + 1))
    ensures Step(q, s, p) == 4 ==> Unquoted(q, s, p) == Put(s[p], Unquoted(q, s, p + 1))
  {
  }

  lemma UnquotedEnd(q: char, s: string, p: nat)
    requires p >= |s|
    ensures Unquoted(q, s, p) == None
  {
  }

  function Moved(r: Option<(string, nat)>, n: nat): Option<(string, nat)> {
    match r
    case None => None
    case Some((t, e)) => Some((t, n + e))
  }

  /** What is read does not depend on what is before it. */
  lemma {:induction false} UnquotedShift(q: char, a: string, s: string, p: nat)
    ensures Unquoted(q, a + s, |a| + p) == Moved(Unquoted(q, s, p), |a|)
    decreases |s| - p
  {
    hide Unquoted;
    if p < |s| {
      assert (a + s)[|a| + p] == s[p];
      assert p + 1 < |s| ==> (a + s)[|a| + p + 1] == s[p + 1];
      assert Step(q, a + s, |a| + p) == Step(q, s, p);
      UnquotedStep(q, s, p);
      UnquotedStep(q, a + s, |a| + p);
      if Step(q, s, p) == 4 {
        UnquotedShift(q, a, s, p + 1);
      } else if Step(q, s, p) == 1 || Step(q, s, p) == 2 {
        UnquotedShift(q, a, s, p + 2);
      }
    } else {
      UnquotedEnd(q, s, p);
      UnquotedEnd(q, a + s, |a| + p);
    }
  }

  lemma {:induction false} UnquoteEscaped(q: char, t: string, rest: string)
    requires q != '\\' && !CharIs(rest, 0, q)
    ensures Unquoted(q, Escaped(q, t) + rest, 0) == Some((t, |Escaped(q, t)|))
    decreases |t|
  {
    if t == "" {
      assert ([q] + rest)[0] == q && (rest != "" ==> ([q] + rest)[1] == rest[0]);
    } else {
      UnquoteEscaped(q, t[1..], rest);
      var head := if t[0] == q || t[0] == '\\' then ['\\', t[0]] else [t[0]];
      UnquoteHead(q, head, t, Escaped(q, t[1..]), rest);
    }
  }

  lemma {:induction false} UnquoteDoubled(q: char, t: string, rest: string)
    requires q != '\\' && !CharIs(rest, 0, q)
    ensures Unquoted(q, Doubled(q, t) + rest, 0) == Some((t, |Doubled(q, t)|))
    decreases |t|
  {
    if t == "" {
      assert ([q] + rest)[0] == q && (rest != "" ==> ([q] + rest)[1] == rest[0]);
    } else {
      UnquoteDoubled(q, t[1..], rest);
      var head := if t[0] == q then [q, q] else if t[0] == '\\' then ['\\', '\\'] else [t[0]];
      UnquoteHead(q, head, t, Doubled(q, t[1..]), rest);
    }
  }

  lemma UnquoteHead(q: char, head: string, t: string, more: string, rest: string)
    requires q != '\\' && t != ""
    requires head == ['\\', t[0]] || (t[0] == q && head == [q, q]) || (t[0] != q && t[0] != '\\' && head == [t[0]])
    requires Unquoted(q, more + rest, 0) == Some((t[1..], |more|))
    ensures Unquoted(q, head + more + rest, 0) == Some((t, |head + more|))
  {
    hide Unquoted;
    UnquotedShift(q, head, more + rest, 0);
    var s := head + (more + rest);
    assert head + more + rest == s;
    assert t == [t[0]] + t[1..];
    assert s[0] == head[0] && (|head| > 1 ==> s[1] == head[1]);
    UnquotedStep(q, s, 0);
  }
}
