/** The lexical grammar, stated without the way in which the tokenizer reads: which ranges of a text are
    tokens, of which kind and with which text. */
module TokenGrammar {

  import opened Wrappers
  import opened TokenSyntax

  predicate Digit(c: char) { c in "0123456789" }

  predicate Hexadecimal(c: char) { c in "0123456789abcdefABCDEF" }

  predicate Blank(c: char) { c in " \t\n\r" || c as int == 11 || c as int == 12 }

  predicate WordPart(c: char) { c == '_' || Digit(c) || 'a' <= c <= 'z' || 'A' <= c <= 'Z' }

  predicate AllDigits(t: string) { forall i :: 0 <= i < |t| ==> Digit(t[i]) }

  predicate Next(s: string, e: nat, cs: string) { e < |s| && s[e] in cs }

  // Numbers

  /** A dot and digits, or nothing. */
  predicate IsFraction(t: string) { t == "" || (|t| > 1 && t[0] == '.' && AllDigits(t[1..])) }

  /** The letter E, a sign or none, and digits, or nothing. */
  predicate IsExponent(t: string) {
    t == "" || (|t| > 1 && t[0] in "eE" && (WholeNumber(t[1..]) || (t[1] in "+-" && WholeNumber(t[2..]))))
  }

  predicate WholeNumber(t: string) { t != "" && AllDigits(t) }

  /** Digits up to `a`, a fraction up to `f`, and an exponent, not all of them missing. */
  predicate IsFloatAt(s: string, b: nat, a: nat, f: nat, e: nat) {
    && b <= a <= f <= e <= |s| && AllDigits(s[b..a]) && IsFraction(s[a..f]) && IsExponent(s[f..e])
    && (a < f || (b < a && f < e)) && (f == e ==> !Next(s, e, "eE"))
  }

  predicate Range(s: string, b: nat, e: nat) { b < e <= |s| }

  predicate IsInteger(s: string, b: nat, e: nat) {
    && Range(s, b, e) && AllDigits(s[b..e]) && !Next(s, e, "0123456789.eE")
    && !(s[b..e] == "0" && Next(s, e, "xX"))
  }

  ghost predicate IsFloat(s: string, b: nat, e: nat) {
    Range(s, b, e) && !Next(s, e, "0123456789") && exists a: nat, f: nat :: IsFloatAt(s, b, a, f, e)
  }

  predicate IsHex(s: string, b: nat, e: nat, t: string) {
    && Range(s, b, e) && t != "" && (forall i :: 0 <= i < |t| ==> Hexadecimal(t[i]))
    && (((s[b..e] == "0x" + t || s[b..e] == "0X" + t) && !Next(s, e, "0123456789abcdefABCDEF"))
        || s[b..e] == "x'" + t + "'" || s[b..e] == "X'" + t + "'")
  }

  // Words and symbols

  /** A maximal run of word characters that starts neither a number nor a hexadecimal text. */
  predicate IsWord(s: string, b: nat, e: nat) {
    && Range(s, b, e) && (forall i :: b <= i < e ==> WordPart(s[i])) && (e < |s| ==> !WordPart(s[e]))
    && !Digit(s[b]) && !(s[b] in "xX" && Next(s, b + 1, "'"))
  }

  /** The symbols: comparisons, arithmetic, logic, brackets and separators, and those of paths. */
  predicate SymbolText(w: string) {
    || w in ["=", "==", "!=", "<>", "<", "<=", ">", ">="]
    || w in ["+", "-", "*", "/", "%", "<<", ">>", "&", "|", "^", "~"]
    || w in ["!", "&&", "||"]
    || w in ["(", ")", "[", "]", "{", "}", ",", ":"]
    || w in [".", "**", "->", "->>", "$", "?"]
  }

  predicate StandsAt(w: string, s: string, b: nat) { b + |w| <= |s| && s[b..b + |w|] == w }

  /** The longest symbol at a place; a dot before a digit starts a number. */
  ghost predicate IsSymbolAt(s: string, b: nat, w: string) {
    && SymbolText(w) && StandsAt(w, s, b)
    && (forall v :: SymbolText(v) && StandsAt(v, s, b) ==> |v| <= |w|)
    && !(w == "." && Next(s, b + 1, "0123456789"))
  }

  // Quoted texts

  /** A way to write a text between quotes: every character as it is, unless it is the quote or a
      backslash, or after a backslash, and the quote also by two quotes. */
  predicate Writes(q: char, body: string, t: string) {
    if body == "" then t == ""
    else if t == "" then false
    else if body[0] == '\\' then |body| > 1 && body[1] == t[0] && Writes(q, body[2..], t[1..])
    else if body[0] == q then |body| > 1 && body[1] == q == t[0] && Writes(q, body[2..], t[1..])
    else body[0] == t[0] && Writes(q, body[1..], t[1..])
  }

  predicate IsQuoted(q: char, s: string, b: nat, e: nat, t: string) {
    b + 2 <= e <= |s| && s[b] == s[e - 1] == q && Writes(q, s[b + 1..e - 1], t) && !Next(s, e, [q])
  }

  // Tokens

  ghost predicate IsToken(s: string, t: Token) {
    match t.kind
    case Integer => IsInteger(s, t.begin, t.end) && t.text == s[t.begin..t.end]
    case Number => IsFloat(s, t.begin, t.end) && t.text == s[t.begin..t.end]
    case Hex => IsHex(s, t.begin, t.end, t.text)
    case Word => IsWord(s, t.begin, t.end) && t.text == s[t.begin..t.end]
    case Symbol => t.end == t.begin + |t.text| && IsSymbolAt(s, t.begin, t.text)
    case QQString => IsQuoted('"', s, t.begin, t.end, t.text)
    case QString => IsQuoted('\'', s, t.begin, t.end, t.text)
    case QWord => IsQuoted('`', s, t.begin, t.end, t.text)
  }

  // Characters

  lemma SameClasses(c: char)
    ensures IsDigit(c) <==> Digit(c)
    ensures IsHexDigit(c) <==> Hexadecimal(c)
    ensures IsWordChar(c) <==> WordPart(c)
    ensures IsSpace(c) <==> Blank(c)
  {
  }

  /** The end of a run is determined by what it is. */
  lemma RunIs(s: string, p: nat, k: Class, e: nat)
    requires p <= e <= |s| && (forall i :: p <= i < e ==> In(s[i], k)) && !CharIn(s, e, k)
    ensures RunEnd(s, p, k) == e
  {
  }

  lemma ClassOf(c: char)
    ensures In(c, Digits) <==> Digit(c)
    ensures In(c, HexDigits) <==> Hexadecimal(c)
    ensures In(c, WordChars) <==> WordPart(c)
    ensures In(c, Space) <==> Blank(c)
  {
    SameClasses(c);
  }

  lemma ClassesOf(s: string)
    ensures forall i :: 0 <= i < |s| ==> (In(s[i], Digits) <==> Digit(s[i]))
    ensures forall i :: 0 <= i < |s| ==> (In(s[i], HexDigits) <==> Hexadecimal(s[i]))
    ensures forall i :: 0 <= i < |s| ==> (In(s[i], WordChars) <==> WordPart(s[i]))
    ensures forall i :: 0 <= i < |s| ==> (In(s[i], Space) <==> Blank(s[i]))
  {
    hide In, Digit, Hexadecimal, WordPart, Blank;
    forall i | 0 <= i < |s|
      ensures In(s[i], Digits) <==> Digit(s[i])
      ensures In(s[i], HexDigits) <==> Hexadecimal(s[i])
      ensures In(s[i], WordChars) <==> WordPart(s[i])
      ensures In(s[i], Space) <==> Blank(s[i])
    {
      ClassOf(s[i]);
    }
  }

  lemma DigitNext(s: string, e: nat)
    ensures Next(s, e, "0123456789") <==> CharIn(s, e, Digits)
    ensures Next(s, e, "0123456789abcdefABCDEF") <==> CharIn(s, e, HexDigits)
    ensures Next(s, e, "eE") <==> CharIs(s, e, 'E') || CharIs(s, e, 'e')
    ensures Next(s, e, "xX") <==> CharIs(s, e, 'X') || CharIs(s, e, 'x')
  {
  }

  lemma QuoteIsNoDigit()
    ensures !In('\'', HexDigits)
  {
  }

  // Hexadecimal texts

  predicate HexText(t: string) { t != "" && forall i :: 0 <= i < |t| ==> Hexadecimal(t[i]) }

  lemma HexRun(s: string, p: nat, e: nat)
    requires p <= e <= |s|
    ensures RunEnd(s, p, HexDigits) == e && p < e <==> HexText(s[p..e]) && !CharIn(s, e, HexDigits)
  {
    hide Hexadecimal, In, RunEnd;
    ClassesOf(s);
    if HexText(s[p..e]) && !CharIn(s, e, HexDigits) {
      forall i | p <= i < e
        ensures In(s[i], HexDigits)
      {
        assert s[i] == s[p..e][i - p];
      }
      RunIs(s, p, HexDigits, e);
    }
  }

  lemma HexFound(s: string, b: nat)
    requires b < |s| && HexAt(s, b).Found?
    ensures var l := HexAt(s, b); l.kind == Hex && IsHex(s, b, l.end, l.text)
  {
    hide RunEnd, HexText, Hexadecimal, In;
    var l := HexAt(s, b);
    var e := RunEnd(s, b + 2, HexDigits);
    HexRun(s, b + 2, e);
    assert HexText(l.text) && l.text != "" by { HexTextIs(l.text); }
    HexTextIs(l.text);
    DigitNext(s, e);
    if s[b] == '0' {
      assert s[b..l.end] == [s[b], s[b + 1]] + l.text;
      TwoChars(s[b], s[b + 1]);
    } else {
      assert s[b..l.end] == [s[b], s[b + 1]] + l.text + [s[e]];
    }
  }

  lemma HexTextIs(t: string)
    ensures HexText(t) <==> t != "" && forall i :: 0 <= i < |t| ==> Hexadecimal(t[i])
  {
  }

  lemma TwoChars(a: char, b: char)
    ensures [a, b] == "0x" <==> a == '0' && b == 'x'
    ensures [a, b] == "0X" <==> a == '0' && b == 'X'
  {
  }

  lemma SubRange(s: string, b: nat, e: nat, i: nat, j: nat)
    requires b <= e <= |s| && i <= j <= e - b
    ensures s[b..e][i..j] == s[b + i..b + j]
  {
    var x, y := s[b..e][i..j], s[b + i..b + j];
    assert |x| == |y|;
    assert forall k :: 0 <= k < |x| ==> x[k] == s[b + i + k] == y[k];
  }

  lemma HexRead(s: string, b: nat, e: nat, t: string)
    requires IsHex(s, b, e, t)
    ensures HexAt(s, b) == Found(Hex, t, e)
  {
    hide RunEnd, HexText, Hexadecimal, In;
    var raw, h := s[b..e], b + 2 + |t|;
    HexTextIs(t);
    DigitNext(s, e);
    QuoteIsNoDigit();
    assert raw[0] == s[b] && raw[1] == s[b + 1] && raw[|raw| - 1] == s[e - 1];
    assert raw[2..2 + |t|] == t;
    SubRange(s, b, e, 2, 2 + |t|);
    HexRun(s, b + 2, h);
  }

  // Numbers

  lemma DigitRun(s: string, p: nat)
    requires p <= |s|
    ensures var e := RunEnd(s, p, Digits); AllDigits(s[p..e]) && !Next(s, e, "0123456789")
  {
    hide Digit, In, RunEnd;
    ClassesOf(s);
    DigitNext(s, RunEnd(s, p, Digits));
  }

  lemma DigitRunIs(s: string, p: nat, e: nat)
    requires p <= e <= |s| && AllDigits(s[p..e]) && !Next(s, e, "0123456789")
    ensures RunEnd(s, p, Digits) == e
  {
    hide Digit, In, RunEnd;
    ClassesOf(s);
    DigitNext(s, e);
    forall i | p <= i < e
      ensures In(s[i], Digits)
    {
      assert s[i] == s[p..e][i - p];
    }
    RunIs(s, p, Digits, e);
  }

  /** What the exponent rule finds after the digits and the fraction. */
  lemma ExponentFound(s: string, b: nat, a: nat, f: nat)
    requires b <= a <= f <= |s| && b < f && AllDigits(s[b..a]) && IsFraction(s[a..f]) && !Next(s, f, "0123456789")
    requires Exponent(s, b, f, a < f).Found?
    ensures
      var l := Exponent(s, b, f, a < f);
      if l.kind == Integer then a == f == l.end && !Next(s, f, "eE")
      else l.kind == Number && IsFloatAt(s, b, a, f, l.end) && !Next(s, l.end, "0123456789")
  {
    hide Digit, RunEnd, AllDigits, IsFraction;
    DigitNext(s, f);
    var l := Exponent(s, b, f, a < f);
    assert s[f..f] == "";
    if Next(s, f, "eE") {
      var e1 := if CharIs(s, f + 1, '+') || CharIs(s, f + 1, '-') then f + 2 else f + 1;
      DigitRun(s, e1);
      var x := s[f..l.end];
      assert x[1..] == s[f + 1..l.end] && (e1 == f + 2 ==> x[2..] == s[e1..l.end] && x[1] == s[f + 1]);
      assert x[0] == s[f];
    }
  }

  lemma NumberFound(s: string, b: nat)
    requires b < |s| && HexAt(s, b).Not? && NumberAt(s, b).Found?
    ensures
      var l := NumberAt(s, b);
      && l.text == s[b..l.end]
      && if l.kind == Integer then IsInteger(s, b, l.end) else l.kind == Number && IsFloat(s, b, l.end)
  {
    hide Digit, RunEnd, AllDigits, Exponent, IsFloatAt;
    var a := RunEnd(s, b, Digits);
    DigitRun(s, b);
    if CharIs(s, a, '.') {
      var f := RunEnd(s, a + 1, Digits);
      DigitRun(s, a + 1);
      assert s[a..f][0] == '.' && s[a..f][1..] == s[a + 1..f];
      ExponentFound(s, b, a, f);
    } else {
      assert s[a..a] == "";
      ExponentFound(s, b, a, a);
      ZeroIsNoHex(s, b, a);
    }
  }

  lemma ZeroIsNoHex(s: string, b: nat, e: nat)
    requires b < e <= |s| && HexAt(s, b).Not?
    ensures !(s[b..e] == "0" && Next(s, e, "xX"))
  {
    hide RunEnd;
  }

  lemma IntegerRead(s: string, b: nat, e: nat)
    requires IsInteger(s, b, e)
    ensures HexAt(s, b).Not? && NumberAt(s, b) == Found(Integer, s[b..e], e)
  {
    hide RunEnd;
    FirstDigit(s, b, e);
    DigitRunIs(s, b, e);
    DigitNext(s, e);
    if s[b] == '0' && e == b + 1 {
      assert s[b..e] == "0";
    }
  }

  /** The first of some digits, and the second. */
  lemma FirstDigit(s: string, b: nat, e: nat)
    requires b < e <= |s| && AllDigits(s[b..e])
    ensures '0' <= s[b] <= '9' && (b + 1 < e ==> '0' <= s[b + 1] <= '9')
  {
    assert Digit(s[b..e][0]);
    if b + 1 < e {
      assert Digit(s[b..e][1]);
    }
  }

  lemma FloatRead(s: string, b: nat, e: nat)
    requires IsFloat(s, b, e)
    ensures HexAt(s, b).Not? && NumberAt(s, b) == Found(Number, s[b..e], e)
  {
    hide RunEnd, Exponent, Digit, AllDigits;
    var a: nat, f: nat :| IsFloatAt(s, b, a, f, e);
    FloatIsNoHex(s, b, a, f, e);
    ExponentRead(s, b, a, f, e);
    NotDigits(s, a, f, e);
    DigitRunIs(s, b, a);
    if a < f {
      assert s[a..f][0] == s[a] && s[a..f][1..] == s[a + 1..f];
      DigitRunIs(s, a + 1, f);
      FirstDigit(s, a + 1, f);
      DigitNext(s, a + 1);
    } else {
      FirstDigit(s, b, a);
      assert s[f..e][0] == s[f];
    }
  }

  /** The letter of an exponent and the dot end a run of digits. */
  lemma NotDigits(s: string, a: nat, f: nat, e: nat)
    requires a <= f <= e <= |s| && IsFraction(s[a..f]) && IsExponent(s[f..e]) && !Next(s, e, "0123456789")
    ensures !Next(s, a, "0123456789") && !Next(s, f, "0123456789")
  {
    if f < e {
      assert s[f..e][0] == s[f];
    }
    if a < f {
      assert s[a..f][0] == s[a];
    }
  }

  lemma FloatIsNoHex(s: string, b: nat, a: nat, f: nat, e: nat)
    requires IsFloatAt(s, b, a, f, e)
    ensures b < |s| && HexAt(s, b).Not?
  {
    hide RunEnd;
    if b < a {
      FirstDigit(s, b, a);
    }
    if a < f {
      assert s[a..f][0] == s[a];
    }
    if f < e {
      assert s[f..e][0] == s[f];
    }
  }

  lemma FirstChars(s: string, b: nat, e: nat)
    requires b + 1 < e <= |s|
    ensures s[b..e][0] == s[b] && s[b..e][1] == s[b + 1]
  {
  }

  lemma ExponentRead(s: string, b: nat, a: nat, f: nat, e: nat)
    requires IsFloatAt(s, b, a, f, e) && !Next(s, e, "0123456789") && b < f
    ensures Exponent(s, b, f, a < f) == Found(Number, s[b..e], e)
  {
    hide RunEnd, Digit, AllDigits;
    DigitNext(s, f);
    if f < e {
      var x := s[f..e];
      assert |x| > 1;
      FirstChars(s, f, e);
      SubRange(s, f, e, 1, |x|);
      SubRange(s, f, e, 2, |x|);
      if WholeNumber(x[1..]) {
        FirstDigit(s, f + 1, e);
        DigitRunIs(s, f + 1, e);
      } else {
        DigitRunIs(s, f + 2, e);
      }
    }
  }

  // Words

  lemma WordRead(s: string, b: nat, e: nat)
    requires IsWord(s, b, e)
    ensures TokenAt(s, b) == Found(Word, s[b..e], e)
  {
    hide RunEnd, WordPart, In, FirstOf;
    ClassesOf(s);
    RunIs(s, b, WordChars, e);
    WordStart(s[b]);
    NoDigitRun(s, b);
    NoSymbolHere(s, b);
  }

  lemma StartsHead(w: string, s: string, b: nat)
    requires w != "" && Starts(w, s, b)
    ensures b < |s| && s[b] == w[0]
  {
    assert w[0] == s[b..b + |w|][0];
  }

  lemma NoSymbolHere(s: string, b: nat)
    requires b < |s| && s[b] !in Single && s[b] !in "!<>*-&|="
    ensures SymbolAt(s, b).Not?
  {
    hide FirstOf, Starts;
    FirstIsIn(Longer, s, b);
    SymbolStarts();
    var w := FirstOf(Longer, s, b);
    if w.Some? {
      StartsHead(w.value, s, b);
    }
  }

  lemma WordStart(c: char)
    requires WordPart(c) && !Digit(c)
    ensures c !in Single && c != '"' && c != '\'' && c != '`' && c != '.' && !In(c, Digits) && c != '0'
    ensures !(c in "!<>*-&|=")
  {
  }

  lemma SymbolStarts()
    ensures forall w :: w in Longer ==> w != "" && w[0] in "!<>*-&|="
  {
  }

  lemma NoDigitRun(s: string, b: nat)
    requires b < |s| && !In(s[b], Digits)
    ensures RunEnd(s, b, Digits) == b
  {
  }

  lemma DotIsNoDigit()
    ensures !In('.', Digits)
  {
  }

  lemma WordFound(s: string, b: nat)
    requires b < |s| && s[b] != '`' && WordAt(s, b).Found? && HexAt(s, b).Not? && NumberAt(s, b).Not?
    ensures var l := WordAt(s, b); l.kind == Word && IsWord(s, b, l.end) && l.text == s[b..l.end]
  {
    hide RunEnd, WordPart, In, Digit, Exponent;
    ClassesOf(s);
    var e := RunEnd(s, b, WordChars);
    assert e < |s| ==> !In(s[e], WordChars);
    DotIsNoDigit();
    assert !In(s[b], Digits);
  }

  // Symbols

  lemma SymbolTexts(w: string)
    ensures SymbolText(w) <==> IsSymbol(w)
  {
    if |w| == 1 {
      assert w == [w[0]];
    } else if |w| == 2 {
      assert w == [w[0], w[1]];
    } else if |w| == 3 {
      assert w == [w[0], w[1], w[2]];
    }
  }

  lemma SymbolFound(s: string, b: nat)
    requires b < |s| && SymbolAt(s, b).Found? && NumberAt(s, b).Not?
    ensures var l := SymbolAt(s, b); l.kind == Symbol && l.end == b + |l.text| && IsSymbolAt(s, b, l.text)
  {
    hide SymbolAt, RunEnd, Exponent, IsSymbol, SymbolText;
    var l := SymbolAt(s, b);
    SymbolEnd(s, b);
    SymbolTexts(l.text);
    forall v | SymbolText(v) && StandsAt(v, s, b)
      ensures |v| <= |l.text|
    {
      SymbolTexts(v);
      LongestSymbol(s, b, v);
    }
    DigitNext(s, b + 1);
    if l.text == "." {
      StartsHead(l.text, s, b);
    }
  }

  lemma SymbolRead(s: string, b: nat, w: string)
    requires IsSymbolAt(s, b, w)
    ensures b < |s| && TokenAt(s, b) == Found(Symbol, w, b + |w|)
  {
    hide SymbolAt, RunEnd, Exponent, IsSymbol, StringAt, HexAt, NumberAt, SymbolText;
    SymbolTexts(w);
    SymbolIsSome(w);
    StartsHead(w, s, b);
    LongestSymbol(s, b, w);
    SymbolEnd(s, b);
    SymbolTexts(SymbolAt(s, b).text);
    SymbolIsNoOther(s, b, w);
    SameLength(SymbolAt(s, b).text, w, s, b);
  }

  lemma SymbolIsSome(w: string)
    requires IsSymbol(w)
    ensures w != ""
  {
    LongerNonEmpty();
  }

  lemma SameLength(v: string, w: string, s: string, b: nat)
    requires Starts(v, s, b) && Starts(w, s, b) && |v| == |w|
    ensures v == w
  {
  }

  lemma SymbolEnd(s: string, b: nat)
    requires b < |s| && SymbolAt(s, b).Found?
    ensures
      var l := SymbolAt(s, b);
      l.kind == Symbol && l.end == b + |l.text| && IsSymbol(l.text) && Starts(l.text, s, b)
  {
    hide FirstOf;
    FirstIsIn(Longer, s, b);
  }

  lemma SymbolIsNoOther(s: string, b: nat, w: string)
    requires b < |s| && IsSymbol(w) && Starts(w, s, b) && !(w == "." && Next(s, b + 1, "0123456789"))
    requires w != ""
    ensures StringAt(s, b).Not? && HexAt(s, b).Not? && NumberAt(s, b).Not?
  {
    hide RunEnd, Exponent;
    SymbolStarts();
    StartsHead(w, s, b);
    NoSymbolChar(s[b], w);
    NoDigitRun(s, b);
    DigitNext(s, b + 1);
    if s[b] == '.' {
      DotAlone(w);
    }
  }

  lemma NoSymbolChar(c: char, w: string)
    requires IsSymbol(w) && w != "" && w[0] == c && (w in Longer ==> c in "!<>*-&|=")
    ensures !In(c, Digits) && c != '"' && c != '\'' && c != 'x' && c != 'X' && c != '0'
  {
  }

  lemma DotAlone(w: string)
    requires IsSymbol(w) && w != "" && w[0] == '.'
    ensures w == "."
  {
    SymbolStarts();
  }

  // Quoted texts

  ghost predicate ReadsTo(q: char, s: string, p: nat, e: nat, t: string) {
    p < e <= |s| && s[e - 1] == q && Writes(q, s[p..e - 1], t) && !Next(s, e, [q])
  }

  /** One step of writing, by the characters at hand. */
  lemma ReadsStep(q: char, s: string, p: nat, e: nat, t: string)
    requires q != '\\' && p < |s|
    ensures
      var step := Step(q, s, p);
      ReadsTo(q, s, p, e, t) <==>
        if step == 0 then false
        else if step == 1 then t != "" && t[0] == s[p + 1] && ReadsTo(q, s, p + 2, e, t[1..])
        else if step == 2 then t != "" && t[0] == q && ReadsTo(q, s, p + 2, e, t[1..])
        else if step == 3 then t == "" && e == p + 1
        else t != "" && t[0] == s[p] && ReadsTo(q, s, p + 1, e, t[1..])
  {
    if p < e <= |s| {
      var body := s[p..e - 1];
      if body != "" {
        assert body[0] == s[p] && body[1..] == s[p + 1..e - 1];
        if |body| > 1 {
          assert body[1] == s[p + 1] && body[2..] == s[p + 2..e - 1];
        }
      }
    }
  }

  lemma {:induction false} QuotedIs(q: char, s: string, p: nat, e: nat, t: string)
    requires q != '\\'
    ensures Unquoted(q, s, p) == Some((t, e)) <==> ReadsTo(q, s, p, e, t)
    decreases |s| - p
  {
    hide Unquoted, ReadsTo;
    if p >= |s| {
      UnquotedEnd(q, s, p);
      NothingToRead(q, s, p, e, t);
    } else {
      UnquotedStep(q, s, p);
      ReadsStep(q, s, p, e, t);
      var step := Step(q, s, p);
      if t != "" {
        assert t == [t[0]] + t[1..];
        QuotedIs(q, s, p + (if step == 4 then 1 else 2), e, t[1..]);
      }
    }
  }

  lemma NothingToRead(q: char, s: string, p: nat, e: nat, t: string)
    requires p >= |s|
    ensures !ReadsTo(q, s, p, e, t)
  {
  }

  lemma StringIs(s: string, b: nat, e: nat, t: string)
    requires b < |s|
    ensures s[b] == '"' ==> (StringAt(s, b) == Found(QQString, t, e) <==> IsQuoted('"', s, b, e, t))
    ensures s[b] == '\'' ==> (StringAt(s, b) == Found(QString, t, e) <==> IsQuoted('\'', s, b, e, t))
    ensures s[b] == '`' ==> (WordAt(s, b) == Found(QWord, t, e) <==> IsQuoted('`', s, b, e, t))
  {
    hide Unquoted, Writes;
    if s[b] in "\"'`" {
      QuotedIs(s[b], s, b + 1, e, t);
    }
  }

  // The token at a place

  /** What is found at a place is a token there, by the grammar. */
  lemma TokenFound(s: string, b: nat)
    requires b < |s| && TokenAt(s, b).Found?
    ensures var l := TokenAt(s, b); IsToken(s, Token(l.kind, l.text, b, l.end))
  {
    hide StringAt, HexAt, NumberAt, SymbolAt, WordAt, IsInteger, IsFloat, IsHex, IsWord, IsSymbolAt, IsQuoted;
    var l := TokenAt(s, b);
    if !StringAt(s, b).Not? {
      StringKind(s, b);
      StringIs(s, b, l.end, l.text);
    } else if !HexAt(s, b).Not? {
      HexFound(s, b);
    } else if !NumberAt(s, b).Not? {
      NumberFound(s, b);
    } else if !SymbolAt(s, b).Not? {
      SymbolFound(s, b);
    } else if s[b] == '`' {
      WordKind(s, b);
      StringIs(s, b, l.end, l.text);
    } else {
      WordFound(s, b);
    }
  }

  lemma StringKind(s: string, b: nat)
    requires b < |s| && StringAt(s, b).Found?
    ensures
      var k := StringAt(s, b).kind;
      (s[b] == '"' && k == QQString) || (s[b] == '\'' && k == QString)
  {
    hide Unquoted;
  }

  lemma WordKind(s: string, b: nat)
    requires b < |s| && WordAt(s, b).Found? && s[b] == '`'
    ensures WordAt(s, b).kind == QWord
  {
    hide Unquoted;
  }

  lemma NumberToken(s: string, b: nat)
    requires b < |s| && HexAt(s, b).Not? && NumberAt(s, b).Found?
    ensures TokenAt(s, b) == NumberAt(s, b)
  {
    hide HexAt, NumberAt, SymbolAt, WordAt, Unquoted;
    if s[b] in "\"'`" {
      QuoteIsNoNumber(s, b);
    }
  }

  lemma QuoteIsNoNumber(s: string, b: nat)
    requires b < |s| && s[b] in "\"'`"
    ensures HexAt(s, b).Not? && NumberAt(s, b).Not?
  {
    hide RunEnd, Exponent;
    assert !In(s[b], Digits);
    NoDigitRun(s, b);
  }

  lemma HexToken(s: string, b: nat)
    requires b < |s| && HexAt(s, b).Found?
    ensures TokenAt(s, b) == HexAt(s, b)
  {
    hide HexAt, NumberAt, SymbolAt, WordAt, Unquoted;
    if s[b] in "\"'`" {
      QuoteIsNoNumber(s, b);
    }
  }

  lemma QuoteToken(s: string, b: nat)
    requires b < |s| && s[b] in "\"'`"
    ensures s[b] != '`' && StringAt(s, b).Found? ==> TokenAt(s, b) == StringAt(s, b)
    ensures s[b] == '`' && WordAt(s, b).Found? ==> TokenAt(s, b) == WordAt(s, b)
  {
    hide HexAt, NumberAt, SymbolAt, Unquoted;
    if s[b] == '`' {
      QuoteIsNoNumber(s, b);
      NoSymbolHere(s, b);
    }
  }

  lemma Ranged(s: string, t: Token)
    requires IsToken(s, t)
    ensures t.begin < t.end <= |s|
    ensures t.kind in {QString, QQString, QWord} ==> s[t.begin] in "\"'`"
  {
    hide AllDigits, IsFloatAt, Writes, Next;
    if t.kind == Symbol {
      SymbolTexts(t.text);
      SymbolIsSome(t.text);
    }
  }

  /** What is a token by the grammar is found. */
  lemma TokenRead(s: string, t: Token)
    requires IsToken(s, t)
    ensures t.begin < t.end <= |s| && TokenAt(s, t.begin) == Found(t.kind, t.text, t.end)
  {
    hide StringAt, HexAt, NumberAt, SymbolAt, WordAt, TokenAt, IsWord, IsSymbolAt, IsHex, IsFloat, IsInteger;
    var b, e := t.begin, t.end;
    Ranged(s, t);
    if t.kind == Integer {
      IntegerRead(s, b, e);
      NumberToken(s, b);
    } else if t.kind == Number {
      FloatRead(s, b, e);
      NumberToken(s, b);
    } else if t.kind == Hex {
      HexRead(s, b, e, t.text);
      HexToken(s, b);
    } else if t.kind == Word {
      WordRead(s, b, e);
    } else if t.kind == Symbol {
      SymbolRead(s, b, t.text);
    } else {
      StringIs(s, b, e, t.text);
      QuoteToken(s, b);
    }
  }

  // All tokens

  predicate Blanks(s: string, p: nat, b: nat) { p <= b <= |s| && forall i :: p <= i < b ==> Blank(s[i]) }

  /** The first token after blanks or none. */
  ghost predicate IsNext(s: string, p: nat, t: Token) {
    p <= t.begin < t.end <= |s| && Blanks(s, p, t.begin) && !Blank(s[t.begin]) && IsToken(s, t)
  }

  /** The tokens of a text from a place on: each comes after blanks or none, and after the last one there
      are only blanks, or a zero character stops the reading directly after a token. */
  ghost predicate Lexed(s: string, p: nat, ts: seq<Token>, stop: nat)
    decreases |ts|
  {
    if ts == [] then if stop < |s| then p == stop && s[p] == '\0' else stop == |s| && Blanks(s, p, stop)
    else IsNext(s, p, ts[0]) && Lexed(s, ts[0].end, ts[1..], stop)
  }

  lemma SpaceRun(s: string, p: nat)
    requires p <= |s|
    ensures var b := RunEnd(s, p, Space); Blanks(s, p, b) && (b < |s| ==> !Blank(s[b]))
  {
    hide Blank, In, RunEnd;
    ClassesOf(s);
  }

  lemma ZeroIsNothing(s: string, p: nat)
    requires p < |s| && s[p] == '\0'
    ensures !Blank(s[p]) && !TokenAt(s, p).Found?
  {
    hide Exponent, RunEnd;
    NoSymbolHere(s, p);
    NoDigitRun(s, p);
    assert !In(s[p], WordChars);
    RunIs(s, p, WordChars, p);
  }

  /** The next token is at the end of the blanks, and it is the one that is found there. */
  lemma NextIs(s: string, p: nat, t: Token)
    requires p <= |s|
    ensures
      var b := RunEnd(s, p, Space);
      IsNext(s, p, t) <==> b < |s| && t.begin == b && TokenAt(s, b) == Found(t.kind, t.text, t.end)
  {
    hide RunEnd, TokenAt, IsToken, Blank;
    SpaceRun(s, p);
    var b := RunEnd(s, p, Space);
    if IsNext(s, p, t) {
      TokenRead(s, t);
    }
    if b < |s| && t.begin == b && TokenAt(s, b) == Found(t.kind, t.text, t.end) {
      TokenFound(s, b);
      FoundAdvances(s, b);
    }
  }

  lemma FirstStep(s: string, p: nat, ts: seq<Token>, stop: nat)
    requires p < |s| && s[p] != '\0'
    ensures
      var b := RunEnd(s, p, Space);
      AllFrom(s, p) == Tokens(ts, stop) <==>
        if b == |s| then ts == [] && stop == b
        else
          var l := TokenAt(s, b);
          && l.Found? && b < l.end <= |s| && ts != [] && ts[0] == Token(l.kind, l.text, b, l.end)
          && AllFrom(s, l.end) == Tokens(ts[1..], stop)
  {
    hide RunEnd, TokenAt;
    var b := RunEnd(s, p, Space);
    if b < |s| {
      FoundAdvances(s, b);
      var l := TokenAt(s, b);
      if l.Found? && AllFrom(s, l.end).Tokens? && ts != [] {
        assert ts == [ts[0]] + ts[1..];
      }
    }
  }

  /** The tokenizer finds exactly the tokens of the grammar, with their kinds, texts and ranges, or it
      fails because there are none. */
  lemma {:induction false} TokensAreLexed(s: string, p: nat, ts: seq<Token>, stop: nat)
    requires p <= |s|
    ensures AllFrom(s, p) == Tokens(ts, stop) <==> Lexed(s, p, ts, stop)
    decreases |s| - p
  {
    hide RunEnd, TokenAt, IsNext, Blank, AllFrom;
    SpaceRun(s, p);
    var b := RunEnd(s, p, Space);
    if ts != [] {
      NextIs(s, p, ts[0]);
    }
    if p == |s| || s[p] == '\0' {
      StopStep(s, p);
      if p < |s| {
        ZeroIsNothing(s, p);
      }
    } else {
      FirstStep(s, p, ts, stop);
      if b < |s| && TokenAt(s, b).Found? && ts != [] {
        FoundAdvances(s, b);
        TokensAreLexed(s, TokenAt(s, b).end, ts[1..], stop);
      }
    }
  }

  lemma StopStep(s: string, p: nat)
    requires p == |s| || (p < |s| && s[p] == '\0')
    ensures AllFrom(s, p) == Tokens([], p)
  {
  }
}
