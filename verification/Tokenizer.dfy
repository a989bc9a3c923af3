/** The tokenizer: a position in the input, the start of the current token, and the tokens so far. */
module Tokenizer {

  import opened Wrappers
  import opened TokenSyntax
  import opened TokenGrammar

  datatype Outcome = Yes | No | Threw

  class Tokenizer {
    const input: string
    var pos: nat
    var start: nat
    var tokens: seq<Token>

    constructor (s: string)
      ensures input == s && pos == 0 && start == 0 && tokens == []
    {
      input, pos, start, tokens := s, 0, 0, [];
    }

    /** What a method that recognises one kind of token does. */
    twostate predicate Does(l: Lexeme, o: Outcome)
      reads this
    {
      match l
      case Found(kind, text, end) => o == Yes && pos == end
        && tokens == old(tokens) + [Token(kind, text, old(pos), end)]
      case Not => o == No && pos == old(pos) && tokens == old(tokens)
      case Fail => o == Threw
    }

    method SkipRun(k: Class)
      requires pos <= |input|
      modifies this`pos
      ensures pos == RunEnd(input, old(pos), k)
    {
      while pos < |input| && In(input[pos], k)
        invariant pos <= |input|
        invariant RunEnd(input, old(pos), k) == RunEnd(input, pos, k)
      {
        pos := pos + 1;
      }
    }

    method ConsumeChar(c: char) returns (yes: bool)
      modifies this`pos
      ensures yes == CharIs(input, old(pos), c)
      ensures pos == if yes then old(pos) + 1 else old(pos)
    {
      yes := pos < |input| && input[pos] == c;
      if yes {
        pos := pos + 1;
      }
    }

    /** The characters after an opening quote, up to the closing one. */
    method ParseQuoted(q: char) returns (r: Option<string>)
      requires pos <= |input| && q != '\\'
      modifies this`pos
      ensures
        var u := Unquoted(q, input, old(pos));
        if u.Some? then r == Some(u.value.0) && pos == u.value.1 else r == None
    {
      hide Unquoted;
      var val := "";
      NothingBefore(Unquoted(q, input, pos));
      while pos < |input|
        invariant pos <= |input|
        invariant Unquoted(q, input, old(pos)) == Before(val, Unquoted(q, input, pos))
        decreases |input| - pos
      {
        UnquotedStep(q, input, pos);
        ghost var p := pos;
        var escaped := ConsumeChar('\\');
        if !escaped {
          var quote := ConsumeChar(q);
          if quote && !(pos < |input| && input[pos] == q) {
            assert val + "" == val;
            return Some(val);
          }
        }
        if pos >= |input| {
          return None;
        }
        var c := input[pos];
        pos := pos + 1;
        BeforeStep(val, c, Unquoted(q, input, pos));
        val := val + [c];
      }
      UnquotedEnd(q, input, pos);
      return None;
    }

    method AddToken(kind: Kind, text: string)
      modifies this`tokens
      ensures tokens == old(tokens) + [Token(kind, text, start, pos)]
    {
      tokens := tokens + [Token(kind, text, start, pos)];
    }

    method ParseString() returns (o: Outcome)
      requires pos < |input|
      modifies this
      ensures Does(StringAt(input, old(pos)), o)
      ensures o != Threw ==> start == old(pos)
    {
      hide Unquoted;
      start := pos;
      var quote := input[pos];
      if quote != '"' && quote != '\'' {
        return No;
      }
      pos := pos + 1;
      var val := ParseQuoted(quote);
      if val.None? {
        return Threw;
      }
      AddToken(if quote == '"' then QQString else QString, val.value);
      return Yes;
    }

    method ParseHex() returns (o: Outcome)
      requires pos < |input| && start == pos
      modifies this
      ensures Does(HexAt(input, old(pos)), o)
      ensures o == No ==> start == old(start)
    {
      hide RunEnd;
      var c := input[pos];
      if c == 'X' || c == 'x' {
        if !(pos + 1 < |input| && input[pos + 1] == '\'') {
          return No;
        }
        pos := pos + 2;
        var from := pos;
        SkipRun(HexDigits);
        if pos == from {
          return Threw;
        }
        var digits := input[from..pos];
        var quote := ConsumeChar('\'');
        if !quote {
          return Threw;
        }
        AddToken(Hex, digits);
        return Yes;
      }
      if c != '0' || !(pos + 1 < |input| && (input[pos + 1] == 'X' || input[pos + 1] == 'x')) {
        return No;
      }
      pos := pos + 2;
      var from := pos;
      SkipRun(HexDigits);
      if pos == from {
        return Threw;
      }
      AddToken(Hex, input[from..pos]);
      return Yes;
    }

    method ParseNumber() returns (o: Outcome)
      requires pos < |input|
      modifies this
      ensures Does(NumberAt(input, old(pos)), o)
      ensures o == No ==> start == old(pos)
    {
      hide RunEnd;
      start := pos;
      if input[pos] == '.' && !(pos + 1 < |input| && IsDigit(input[pos + 1])) {
        return No;
      }
      SkipRun(Digits);
      if pos == start && input[pos] != '.' {
        return No;
      }
      var float := ConsumeChar('.');
      if float {
        var from := pos;
        SkipRun(Digits);
        if pos == from {
          return Threw;
        }
      }
      o := ParseExponent(float);
    }

    method ParseExponent(float: bool) returns (o: Outcome)
      requires start < pos <= |input|
      modifies this
      ensures
        var l := Exponent(input, old(start), old(pos), float);
        if l.Found? then o == Yes && pos == l.end && tokens == old(tokens) + [Token(l.kind, l.text, old(start), l.end)]
        else o == Threw
    {
      hide RunEnd;
      var exponent := pos < |input| && (input[pos] == 'E' || input[pos] == 'e');
      if exponent {
        pos := pos + 1;
      }
      if !float && !exponent {
        AddToken(Integer, input[start..pos]);
        start := pos;
        return Yes;
      }
      if exponent {
        if pos < |input| && (input[pos] == '+' || input[pos] == '-') {
          pos := pos + 1;
        }
        var from := pos;
        SkipRun(Digits);
        if pos == from {
          return Threw;
        }
      }
      AddToken(Number, input[start..pos]);
      start := pos;
      return Yes;
    }

    /** Symbols, longer ones first. */
    method ParseSymbol() returns (o: Outcome)
      requires pos < |input| && start == pos
      modifies this
      ensures Does(SymbolAt(input, old(pos)), o)
      ensures o == No ==> start == old(start)
    {
      for k := 0 to |Longer|
        invariant pos == old(pos) && start == old(start) && tokens == old(tokens)
        invariant FirstOf(Longer, input, pos) == FirstOf(Longer[k..], input, pos)
      {
        assert Longer[k..][0] == Longer[k] && Longer[k..][1..] == Longer[k + 1..];
        if pos + |Longer[k]| <= |input| && input[pos..pos + |Longer[k]|] == Longer[k] {
          pos := pos + |Longer[k]|;
          AddToken(Symbol, Longer[k]);
          return Yes;
        }
      }
      var c := input[pos];
      if c in Single {
        pos := pos + 1;
        AddToken(Symbol, [c]);
        return Yes;
      }
      return No;
    }

    method ParseWord() returns (o: Outcome)
      requires pos < |input|
      modifies this
      ensures Does(WordAt(input, old(pos)), o)
    {
      hide Unquoted, RunEnd;
      start := pos;
      if input[pos] == '`' {
        pos := pos + 1;
        var word := ParseQuoted('`');
        if word.None? {
          return Threw;
        }
        AddToken(QWord, word.value);
        return Yes;
      }
      SkipRun(WordChars);
      if pos == start {
        return No;
      }
      AddToken(Word, input[start..pos]);
      start := pos;
      return Yes;
    }

    method ParseToken() returns (o: Outcome)
      requires pos < |input|
      modifies this
      ensures Does(TokenAt(input, old(pos)), o)
    {
      hide StringAt, HexAt, NumberAt, SymbolAt, WordAt;
      o := ParseString();
      if o == No {
        o := ParseHex();
      }
      if o == No {
        o := ParseNumber();
      }
      if o == No {
        o := ParseSymbol();
      }
      if o == No {
        o := ParseWord();
        if o == No {
          o := Threw;
        }
      }
    }

    /** Splits the whole input. */
    method GetTokens() returns (threw: bool)
      requires pos == 0 && tokens == []
      modifies this
      ensures threw <==> AllFrom(input, 0).Error?
      ensures !threw ==> tokens == AllFrom(input, 0).ts && pos == AllFrom(input, 0).stop
    {
      hide AllFrom, TokenAt, RunEnd;
      NoneBefore(AllFrom(input, 0));
      while pos < |input|
        invariant pos <= |input|
        invariant AllFrom(input, 0) == After(tokens, AllFrom(input, pos))
        decreases |input| - pos
      {
        AllStep(input, pos);
        if input[pos] == '\0' {
          assert tokens + [] == tokens;
          return false;
        }
        SkipRun(Space);
        if pos == |input| {
          assert tokens + [] == tokens;
          return false;
        }
        FoundAdvances(input, pos);
        ghost var l, was := TokenAt(input, pos), tokens;
        ghost var b := pos;
        var o := ParseToken();
        if o == Threw {
          return true;
        }
        AfterStep(was, Token(l.kind, l.text, b, l.end), AllFrom(input, l.end));
      }
      AllStep(input, pos);
      assert tokens + [] == tokens;
      return false;
    }
  }

  /** Tokenizing any text gives exactly its tokens by the lexical grammar, and fails if it has none. Their
      ranges cover all of the text but spaces, up to the stop. */
  method Tokenize(s: string) returns (threw: bool, tokens: seq<Token>, stop: nat)
    ensures threw <==> forall ts, e :: !Lexed(s, 0, ts, e)
    ensures !threw ==> forall ts, e :: Lexed(s, 0, ts, e) <==> ts == tokens && e == stop
    ensures !threw ==> stop <= |s| && (stop == |s| || s[stop] == '\0')
    ensures !threw ==> Placed(tokens, 0, stop) && Covers(s, tokens, 0, stop)
  {
    hide AllFrom, Placed, Covers, Lexed;
    forall ts, e
      ensures AllFrom(s, 0) == Tokens(ts, e) <==> Lexed(s, 0, ts, e)
    {
      TokensAreLexed(s, 0, ts, e);
    }
    var t := new Tokenizer(s);
    threw := t.GetTokens();
    TokensCover(s, 0);
    tokens, stop := t.tokens, t.pos;
    assert !threw ==> Lexed(s, 0, tokens, stop);
  }

  function Before(val: string, r: Option<(string, nat)>): Option<(string, nat)> {
    match r
    case None => None
    case Some((t, e)) => Some((val + t, e))
  }

  lemma NothingBefore(r: Option<(string, nat)>)
    ensures Before("", r) == r
  {
    if r.Some? {
      assert "" + r.value.0 == r.value.0;
    }
  }

  lemma BeforeStep(val: string, c: char, r: Option<(string, nat)>)
    ensures Before(val, Put(c, r)) == Before(val + [c], r)
  {
    if r.Some? {
      assert val + ([c] + r.value.0) == val + [c] + r.value.0;
    }
  }

  function After(ts: seq<Token>, r: Tokens): Tokens {
    match r
    case Tokens(us, stop) => Tokens(ts + us, stop)
    case Error => Error
  }

  lemma NoneBefore(r: Tokens)
    ensures After([], r) == r
  {
    if r.Tokens? {
      assert [] + r.ts == r.ts;
    }
  }

  lemma AfterStep(ts: seq<Token>, t: Token, r: Tokens)
    ensures After(ts, After([t], r)) == After(ts + [t], r)
  {
    if r.Tokens? {
      assert ts + ([t] + r.ts) == ts + [t] + r.ts;
    }
  }

  lemma AllStep(s: string, p: nat)
    requires p <= |s|
    ensures p == |s| || s[p] == '\0' ==> AllFrom(s, p) == Tokens([], p)
    ensures p < |s| && s[p] != '\0' ==>
      var b := RunEnd(s, p, Space);
      if b == |s| then AllFrom(s, p) == Tokens([], b)
      else
        var l := TokenAt(s, b);
        if l.Found? then b < l.end <= |s|
          && AllFrom(s, p) == After([Token(l.kind, l.text, b, l.end)], AllFrom(s, l.end))
        else AllFrom(s, p) == Error
  {
    hide TokenAt, RunEnd;
    if p < |s| {
      var b := RunEnd(s, p, Space);
      if b < |s| {
        FoundAdvances(s, b);
      }
    }
  }

  /** Quoting any text with any of the three quotes and tokenizing it gives that text back. */
  lemma QuotedIsOneToken(q: char, t: string, double: bool)
    requires q in "\"'`"
    ensures
      var body := if double then Doubled(q, t) else Escaped(q, t);
      var kind := if q == '"' then QQString else if q == '\'' then QString else QWord;
      AllFrom([q] + body, 0) == Tokens([Token(kind, t, 0, 1 + |body|)], 1 + |body|)
  {
    hide Unquoted, RunEnd;
    var body := if double then Doubled(q, t) else Escaped(q, t);
    var s := [q] + body;
    if double {
      UnquoteDoubled(q, t, "");
    } else {
      UnquoteEscaped(q, t, "");
    }
    assert body + "" == body;
    UnquotedShift(q, [q], body, 0);
    assert Unquoted(q, s, 1) == Some((t, 1 + |body|));
    assert s[0] == q && |s| == 1 + |body|;
    RunStops(s);
    QuoteToken(s, t);
    AllStep(s, 0);
    AllStep(s, |s|);
  }

  lemma RunStops(s: string)
    requires s != "" && s[0] in "\"'`"
    ensures RunEnd(s, 0, Space) == 0 && RunEnd(s, 0, Digits) == 0
  {
  }

  lemma BacktickIsNoSymbol(s: string)
    requires s != "" && s[0] == '`'
    ensures SymbolAt(s, 0).Not?
  {
    FirstIsIn(Longer, s, 0);
    LongerStarts();
    forall w | w in Longer
      ensures !Starts(w, s, 0)
    {
      assert w[0] != '`';
    }
  }

  lemma LongerStarts()
    ensures forall w :: w in Longer ==> w != "" && w[0] != '`'
  {
  }

  lemma BacktickIsNoNumber(s: string)
    requires s != "" && s[0] == '`'
    ensures StringAt(s, 0).Not? && HexAt(s, 0).Not? && NumberAt(s, 0).Not?
  {
    RunStops(s);
  }

  lemma QuoteToken(s: string, t: string)
    requires s != "" && s[0] in "\"'`" && Unquoted(s[0], s, 1) == Some((t, |s|))
    ensures
      TokenAt(s, 0) == Found(if s[0] == '"' then QQString else if s[0] == '\'' then QString else QWord, t, |s|)
  {
    hide Unquoted, RunEnd, HexAt, NumberAt, SymbolAt;
    if s[0] == '`' {
      BacktickIsNoNumber(s);
      BacktickIsNoSymbol(s);
    }
  }
}
