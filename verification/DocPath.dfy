/** Document paths: grammar, printing and the parser's event protocol. */
module DocPath {
  import opened Wrappers
  import opened ExprSyntax

  /** Array indexes are 32-bit. */
  predicate InRange(el: PathEl) { el.Index? ==> el.i <= UINT32_MAX }

  predicate StartsStep(s: seq<Token>) { HeadIs(s, DoubleStar) || HeadIs(s, Dot) || HeadIs(s, LSq) }

  /** documentPathMember: `*`, a word or a string. */
  function MemberOf(t: Token): Option<PathEl> {
    match t.ty
    case Star => Some(AnyMember)
    case Word => Some(Member(t.text))
    case QQString => Some(Member(t.text))
    case QString => Some(Member(t.text))
    case _ => None
  }

  function DotMember(s: seq<Token>): (r: Parsed<PathEl>)
    requires HeadIs(s, Dot)
    ensures r.Ok? ==> InRange(r.val)
    ensures r.Ok? ==> |r.rest| < |s|
  {
    if |s| > 1 && MemberOf(s[1]).Some? then Ok(MemberOf(s[1]).value, s[2..]) else Err(|s| - 1)
  }

  function ArrayStep(s: seq<Token>): (r: Parsed<PathEl>)
    requires HeadIs(s, LSq)
    ensures r.Ok? ==> InRange(r.val)
    ensures r.Ok? ==> |r.rest| < |s|
  {
    if |s| > 1 && s[1].ty.Star? then
      var (_, r) :- Expect(s[2..], RSq);
      Ok(AnyIndex, r)
    else if |s| > 1 && s[1].ty.Integer? then
      match ToNat(s[1].text, false, UINT64_MAX)
      case None => Err(|s| - 2)
      case Some(n) =>
        if n > UINT32_MAX then Err(|s| - 2)
        else
          var (_, r) :- Expect(s[2..], RSq);
          Ok(Index(n), r)
    else Err(|s| - 1)
  }

  function Step(s: seq<Token>): (r: Parsed<PathEl>)
    requires StartsStep(s)
    ensures r.Ok? ==> InRange(r.val)
    ensures r.Ok? ==> |r.rest| < |s|
  {
    if HeadIs(s, DoubleStar) then Ok(AnyPath, s[1..])
    else if HeadIs(s, Dot) then DotMember(s)
    else ArrayStep(s)
  }

  /** The steps after the first one; a final `**` is an error. */
  function MoreSteps(s: seq<Token>): (r: Parsed<seq<PathEl>>)
    ensures r.Ok? ==> |r.rest| <= |s|
    ensures r.Ok? && r.val != [] ==> |r.rest| < |s|
    decreases |s|
  {
    if !StartsStep(s) then Ok([], s)
    else
      var (el, r) :- Step(s);
      var (els, r1) :- MoreSteps(r);
      if els == [] && el == AnyPath then Err(|r1|) else Ok([el] + els, r1)
  }

  /** A whole path, or None when the tokens do not start one. */
  function PathFrom(s: seq<Token>, requireDot: bool): (r: Parsed<Option<seq<PathEl>>>)
    ensures r.Ok? ==> |r.rest| <= |s|
    ensures r.Ok? && r.val.None? ==> r.rest == s
    ensures r.Ok? && r.val.Some? ==> |r.rest| < |s|
  {
    if HeadIs(s, DoubleStar) then
      var (els, r) :- MoreSteps(s[1..]);
      if els == [] then Err(|r|) else Ok(Some([AnyPath] + els), r)
    else if HeadIs(s, Dot) then
      var (el, r) :- DotMember(s);
      var (els, r1) :- MoreSteps(r);
      Ok(Some([el] + els), r1)
    else if requireDot || s == [] || MemberOf(s[0]).None? then Ok(None, s)
    else
      var (els, r) :- MoreSteps(s[1..]);
      Ok(Some([MemberOf(s[0]).value] + els), r)
  }

  /** documentField: `$` with an optional path, or a path. */
  function FieldFrom(s: seq<Token>, prefix: bool): (r: Parsed<Path>)
    ensures r.Ok? ==> |r.rest| < |s|
  {
    if HeadIs(s, Dollar) then
      var (els, r) :- PathFrom(s[1..], true);
      Ok(if els.None? then WholeDocument else Steps(els.value), r)
    else if prefix then Err(|s|)
    else
      var (els, r) :- PathFrom(s, false);
      if els.None? then Err(|r|) else Ok(Steps(els.value), r)
  }

  // Printing

  /** How members are written: as words or in either kind of quotes. */
  type Manner = string -> nat

  function MemberTok(w: Manner, name: string): Token { Token([Word, QString, QQString][w(name) % 3], KwNone, name) }

  function PrintStep(w: Manner, el: PathEl): seq<Token> {
    match el
    case Member(name) => [Sym(Dot), MemberTok(w, name)]
    case AnyMember => [Sym(Dot), Sym(Star)]
    case Index(i) => [Sym(LSq), Token(Integer, KwNone, Digits(i)), Sym(RSq)]
    case AnyIndex => [Sym(LSq), Sym(Star), Sym(RSq)]
    case AnyPath => [Sym(DoubleStar)]
  }

  function PrintSteps(w: Manner, els: seq<PathEl>): seq<Token> {
    if els == [] then [] else PrintStep(w, els[0]) + PrintSteps(w, els[1..])
  }

  function PrintPath(w: Manner, p: Path): seq<Token> {
    match p
    case WholeDocument => [Sym(Dollar)]
    case Steps(els) => [Sym(Dollar)] + PrintSteps(w, els)
  }

  /** Steps that can follow a first step: indexes in range and no `**` at the end. */
  predicate ValidSteps(els: seq<PathEl>) {
    && (forall i :: 0 <= i < |els| ==> InRange(els[i]))
    && (els != [] ==> els[|els| - 1] != AnyPath)
  }

  /** A path never starts with an array step and never ends in `**`. */
  predicate ValidPath(els: seq<PathEl>) {
    els != [] && !els[0].Index? && !els[0].AnyIndex? && ValidSteps(els)
  }

  predicate Valid(p: Path) { p.Steps? ==> ValidPath(p.els) }

  lemma {:induction false} MoreStepsValid(s: seq<Token>)
    ensures MoreSteps(s).Ok? ==> ValidSteps(MoreSteps(s).val)
    decreases |s|
  {
    hide Step;
    if StartsStep(s) && Step(s).Ok? {
      MoreStepsValid(Step(s).rest);
    }
  }

  /** Every accepted document field is a valid path. */
  lemma AcceptedIsValid(s: seq<Token>, prefix: bool)
    ensures FieldFrom(s, prefix).Ok? ==> Valid(FieldFrom(s, prefix).val)
  {
    if HeadIs(s, Dollar) {
      PathValid(s[1..], true);
    } else {
      PathValid(s, false);
    }
  }

  lemma PathValid(s: seq<Token>, requireDot: bool)
    ensures
      var r := PathFrom(s, requireDot);
      r.Ok? && r.val.Some? ==> ValidPath(r.val.value)
  {
    hide MoreSteps;
    if HeadIs(s, Dot) && DotMember(s).Ok? {
      MoreStepsValid(DotMember(s).rest);
    } else if s != [] {
      MoreStepsValid(s[1..]);
    }
  }

  lemma StepRoundTrip(w: Manner, el: PathEl, rest: seq<Token>)
    requires InRange(el)
    ensures StartsStep(PrintStep(w, el) + rest) && Step(PrintStep(w, el) + rest) == Ok(el, rest)
    ensures HeadIs(PrintStep(w, el) + rest, LSq) <==> el.Index? || el.AnyIndex?
  {
    hide Digits, ToNat;
    var s := PrintStep(w, el) + rest;
    if el.Index? {
      IndexRoundTrip(w, el.i, rest);
    } else if el.AnyIndex? {
      assert s[1] == Sym(Star);
      assert s[2..] == [Sym(RSq)] + rest;
    } else if el.AnyPath? {
      assert s[1..] == rest;
    } else {
      assert s[1] == PrintStep(w, el)[1];
      assert s[2..] == rest;
    }
  }

  lemma IndexRoundTrip(w: Manner, i: nat, rest: seq<Token>)
    requires i <= UINT32_MAX
    ensures ArrayStep(PrintStep(w, Index(i)) + rest) == Ok(Index(i), rest)
  {
    hide ArrayStep, Digits, ToNat;
    DigitsConvert(i, UINT64_MAX);
    IndexStep(Digits(i), i, rest);
  }

  lemma IndexStep(digits: string, i: nat, rest: seq<Token>)
    requires ToNat(digits, false, UINT64_MAX) == Some(i) && i <= UINT32_MAX
    ensures ArrayStep([Sym(LSq), Token(Integer, KwNone, digits), Sym(RSq)] + rest) == Ok(Index(i), rest)
  {
    var s := [Sym(LSq), Token(Integer, KwNone, digits), Sym(RSq)] + rest;
    assert s[1] == Token(Integer, KwNone, digits);
    assert s[2..] == [Sym(RSq)] + rest;
  }

  lemma {:induction false} MoreStepsRoundTrip(w: Manner, els: seq<PathEl>, rest: seq<Token>)
    requires ValidSteps(els) && !StartsStep(rest)
    ensures MoreSteps(PrintSteps(w, els) + rest) == Ok(els, rest)
    decreases |els|
  {
    hide Step, PrintStep, MoreSteps, StartsStep;
    if els == [] {
      assert PrintSteps(w, els) + rest == rest;
      NoMoreSteps(rest);
    } else {
      var tail := PrintSteps(w, els[1..]) + rest;
      assert PrintSteps(w, els) + rest == PrintStep(w, els[0]) + tail;
      StepRoundTrip(w, els[0], tail);
      MoreStepsRoundTrip(w, els[1..], rest);
      OneMoreStep(PrintStep(w, els[0]) + tail, els[0], tail, els[1..], rest);
      assert [els[0]] + els[1..] == els;
    }
  }

  lemma NoMoreSteps(s: seq<Token>)
    requires !StartsStep(s)
    ensures MoreSteps(s) == Ok([], s)
  {
  }

  lemma OneMoreStep(s: seq<Token>, el: PathEl, r: seq<Token>, els: seq<PathEl>, rest: seq<Token>)
    requires StartsStep(s) && Step(s) == Ok(el, r) && MoreSteps(r) == Ok(els, rest) && (els == [] ==> el != AnyPath)
    ensures MoreSteps(s) == Ok([el] + els, rest)
  {
    hide Step, StartsStep;
  }

  lemma PathFromFirstStep(s: seq<Token>, requireDot: bool)
    requires StartsStep(s) && !HeadIs(s, LSq) && Step(s).Ok?
    requires MoreSteps(Step(s).rest).Ok?
    requires Step(s).val == AnyPath ==> MoreSteps(Step(s).rest).val != []
    ensures PathFrom(s, requireDot) ==
      Ok(Some([Step(s).val] + MoreSteps(Step(s).rest).val), MoreSteps(Step(s).rest).rest)
  {
  }

  lemma StepsRoundTrip(w: Manner, els: seq<PathEl>, rest: seq<Token>)
    requires ValidPath(els) && !StartsStep(rest)
    ensures PathFrom(PrintSteps(w, els) + rest, true) == Ok(Some(els), rest)
  {
    hide MoreSteps, PathFrom, Step, PrintStep;
    var first, more := els[0], els[1..];
    var tail := PrintSteps(w, more) + rest;
    assert PrintSteps(w, els) + rest == PrintStep(w, first) + tail;
    StepRoundTrip(w, first, tail);
    MoreStepsRoundTrip(w, more, rest);
    PathFromFirstStep(PrintStep(w, first) + tail, true);
    assert [first] + more == els;
  }

  /** Parsing inverts printing for every valid path. */
  lemma PathRoundTrip(w: Manner, p: Path, rest: seq<Token>)
    requires Valid(p) && !StartsStep(rest)
    ensures HeadIs(PrintPath(w, p) + rest, Dollar)
    ensures forall prefix :: FieldFrom(PrintPath(w, p) + rest, prefix) == Ok(p, rest)
  {
    hide MoreSteps, PrintSteps, PathFrom;
    if p.WholeDocument? {
      assert ([Sym(Dollar)] + rest)[1..] == rest;
      NoPath(rest);
    } else {
      var tail := PrintSteps(w, p.els) + rest;
      StepsRoundTrip(w, p.els, rest);
      assert PrintPath(w, p) + rest == [Sym(Dollar)] + tail;
      assert ([Sym(Dollar)] + tail)[1..] == tail;
    }
  }

  lemma NoPath(s: seq<Token>)
    requires !StartsStep(s)
    ensures PathFrom(s, true) == Ok(None, s)
  {
  }

  /** A path without `$`, and without a dot before the first member. */
  function PrintFree(w: Manner, els: seq<PathEl>): seq<Token>
    requires ValidPath(els)
  {
    (if els[0].AnyPath? then PrintStep(w, els[0]) else PrintStep(w, els[0])[1..]) + PrintSteps(w, els[1..])
  }

  /** Such a path is read back where no `$` is asked for. */
  lemma FreePathRoundTrip(w: Manner, els: seq<PathEl>, rest: seq<Token>)
    requires ValidPath(els) && !StartsStep(rest)
    ensures FieldFrom(PrintFree(w, els) + rest, false) == Ok(Steps(els), rest)
    ensures FieldFrom(PrintFree(w, els) + rest, true).Err?
  {
    hide MoreSteps, PrintSteps, Step, PathFrom, PrintStep;
    var s, tail := PrintFree(w, els) + rest, PrintSteps(w, els[1..]) + rest;
    MoreStepsRoundTrip(w, els[1..], rest);
    FirstFree(w, els[0]);
    assert s[1..] == tail;
    assert [els[0]] + els[1..] == els;
    FreePath(s, els[0], els[1..], rest);
  }

  lemma FirstFree(w: Manner, el: PathEl)
    requires !el.Index? && !el.AnyIndex?
    ensures el.AnyPath? ==> PrintStep(w, el) == [Sym(DoubleStar)]
    ensures !el.AnyPath? ==> |PrintStep(w, el)| == 2 && MemberOf(PrintStep(w, el)[1]) == Some(el)
  {
  }

  lemma FreePath(s: seq<Token>, el: PathEl, els: seq<PathEl>, rest: seq<Token>)
    requires s != [] && MoreSteps(s[1..]) == Ok(els, rest)
    requires if el.AnyPath? then s[0].ty.DoubleStar? && els != [] else MemberOf(s[0]) == Some(el)
    ensures PathFrom(s, false) == Ok(Some([el] + els), rest) && !HeadIs(s, Dollar)
  {
    hide MoreSteps;
  }
}
