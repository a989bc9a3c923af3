/** The document path methods of the parser and the callbacks they make. */
module DocPathParser {
  import opened Wrappers
  import opened ExprSyntax
  import opened DocPath

  datatype PathEvent = PListBegin | PElement(el: PathEl) | PListEnd | PWholeDocument

  datatype Out<+T> = Failed(at: nat) | Done(val: T)

  function ElementEvents(els: seq<PathEl>): (es: seq<PathEvent>)
    ensures |es| == |els|
  {
    if els == [] then [] else [PElement(els[0])] + ElementEvents(els[1..])
  }

  lemma {:induction false} ElementEventsAppend(els: seq<PathEl>, el: PathEl)
    ensures ElementEvents(els + [el]) == ElementEvents(els) + [PElement(el)]
  {
    if els == [] {
      assert els + [el] == [el];
    } else {
      assert (els + [el])[1..] == els[1..] + [el];
      ElementEventsAppend(els[1..], el);
    }
  }

  /** The callbacks that report a path: one begin/end pair, or the whole document. */
  function PathEvents(p: Path): seq<PathEvent> {
    match p
    case WholeDocument => [PWholeDocument]
    case Steps(els) => [PListBegin] + ElementEvents(els) + [PListEnd]
  }

  /** What the path storage keeps of the callbacks it gets. */
  function StoreSteps(es: seq<PathEvent>): seq<PathEl> {
    if es == [] then [] else (if es[0].PElement? then [es[0].el] else []) + StoreSteps(es[1..])
  }

  function StorePath(es: seq<PathEvent>): Path {
    if PWholeDocument in es then WholeDocument else Steps(StoreSteps(es))
  }

  lemma {:induction false} StoreElements(els: seq<PathEl>, rest: seq<PathEvent>)
    ensures StoreSteps(ElementEvents(els) + rest) == els + StoreSteps(rest)
    ensures PWholeDocument !in ElementEvents(els)
  {
    if els == [] {
      assert ElementEvents(els) + rest == rest;
    } else {
      var es := ElementEvents(els) + rest;
      assert es[1..] == ElementEvents(els[1..]) + rest;
      StoreElements(els[1..], rest);
    }
  }

  /** Path storage recovers the reported path. */
  lemma StoreReported(p: Path)
    ensures StorePath(PathEvents(p)) == p
  {
    if p.Steps? {
      var es := PathEvents(p);
      assert es[1..] == ElementEvents(p.els) + [PListEnd];
      StoreElements(p.els, [PListEnd]);
      assert p.els + [] == p.els;
    }
  }

  /** Defers the opening callback until the first element is reported. */
  class Reporter {
    var events: seq<PathEvent>
    var started: bool

    constructor (started: bool)
      ensures events == (if started then [PListBegin] else []) && this.started == started
    {
      events := if started then [PListBegin] else [];
      this.started := started;
    }

    ghost predicate Holds(els: seq<PathEl>)
      reads this
    {
      && (els != [] ==> started)
      && events == (if started then [PListBegin] else []) + ElementEvents(els)
    }

    method Element(el: PathEl, ghost els: seq<PathEl>)
      requires Holds(els)
      modifies this
      ensures Holds(els + [el]) && started
    {
      ElementEventsAppend(els, el);
      if !started {
        events := events + [PListBegin];
        started := true;
      }
      events := events + [PElement(el)];
    }

    method ListEnd(ghost els: seq<PathEl>)
      requires Holds(els)
      modifies this
      ensures events == if old(started) then PathEvents(Steps(els)) else []
    {
      if started {
        events := events + [PListEnd];
      }
    }
  }

  class Parser {
    var rest: seq<Token>

    constructor (toks: seq<Token>)
      ensures rest == toks
    {
      rest := toks;
    }

    /** parse_document_path1: steps until the next token cannot start one. */
    method MoreSteps(rep: Reporter, ghost before: seq<PathEl>) returns (r: Out<bool>)
      requires rep.Holds(before)
      modifies this, rep
      ensures match DocPath.MoreSteps(old(rest))
              case Err(at) => r == Failed(at)
              case Ok(els, after) => r == Done(els != []) && rest == after && rep.Holds(before + els)
                                     && rep.started == (old(rep.started) || els != [])
    {
      hide Step;
      ghost var s0 := rest;
      ghost var done: seq<PathEl> := [];
      var lastDoubleStar := false;
      var hasItem := false;
      assert before + done == before;
      StepsStart(s0);
      while StartsStep(rest)
        invariant rep.Holds(before + done)
        invariant rep.started == (old(rep.started) || done != [])
        invariant hasItem == (done != [])
        invariant lastDoubleStar == (done != [] && done[|done| - 1] == AnyPath)
        invariant StepsThen(s0, done, rest)
        decreases |rest|
      {
        var step := Step(rest);
        if step.Err? {
          StepFails(s0, done, rest);
          return Failed(step.at);
        }
        StepTaken(s0, done, rest);
        rep.Element(step.val, before + done);
        assert before + done + [step.val] == before + (done + [step.val]);
        done := done + [step.val];
        lastDoubleStar := step.val == AnyPath;
        hasItem := true;
        rest := step.rest;
      }
      StepsEnd(s0, done, rest);
      if lastDoubleStar { return Failed(|rest|); }
      return Done(hasItem);
    }

    /** parse_document_path: reports a whole path or, returning false, nothing at all. */
    method DocumentPath(requireDot: bool) returns (r: Out<bool>, events: seq<PathEvent>)
      modifies this
      ensures match PathFrom(old(rest), requireDot)
              case Err(at) => r == Failed(at)
              case Ok(None, _) => r == Done(false) && rest == old(rest) && events == []
              case Ok(Some(els), after) => r == Done(true) && rest == after && events == PathEvents(Steps(els))
    {
      hide Step, DocPath.MoreSteps;
      var rep := new Reporter(false);
      events := [];
      var el: PathEl;
      if HeadIs(rest, DoubleStar) {
        el := AnyPath;
        rest := rest[1..];
      } else if HeadIs(rest, Dot) {
        var d := DotMember(rest);
        if d.Err? { return Failed(d.at), []; }
        el := d.val;
        rest := d.rest;
      } else if requireDot || rest == [] || MemberOf(rest[0]).None? {
        return Done(false), [];
      } else {
        el := MemberOf(rest[0]).value;
        rest := rest[1..];
      }
      assert [] + [el] == [el];
      rep.Element(el, []);
      ghost var s1 := rest;
      var more := MoreSteps(rep, [el]);
      if more.Failed? { return Failed(more.at), []; }
      if !more.val && el == AnyPath { return Failed(|rest|), []; }
      rep.ListEnd([el] + DocPath.MoreSteps(s1).val);
      return Done(true), rep.events;
    }

    /** parse_document_field: `$` with an optional path, or a path. */
    method DocumentField(prefix: bool) returns (r: Out<Path>)
      modifies this
      ensures match FieldFrom(old(rest), prefix)
              case Err(at) => r == Failed(at)
              case Ok(p, after) => r == Done(p) && rest == after
    {
      hide PathFrom, StorePath, PathEvents;
      if HeadIs(rest, Dollar) {
        rest := rest[1..];
        ghost var s1 := rest;
        var ok, events := DocumentPath(true);
        if ok.Failed? { return Failed(ok.at); }
        if !ok.val { events := [PWholeDocument]; }
        ghost var p := if ok.val then Steps(PathFrom(s1, true).val.value) else WholeDocument;
        assert !ok.val ==> events == PathEvents(WholeDocument) by { WholeEvents(); }
        StoreReported(p);
        return Done(StorePath(events));
      }
      if prefix { return Failed(|rest|); }
      ghost var s0 := rest;
      var ok, events := DocumentPath(false);
      if ok.Failed? { return Failed(ok.at); }
      if !ok.val { return Failed(|rest|); }
      StoreReported(Steps(PathFrom(s0, false).val.value));
      return Done(StorePath(events));
    }

    /** parse_document_field with initial members: the list is opened by the caller. */
    method FieldWithPrefix(first: seq<PathEl>) returns (r: Out<Path>)
      modifies this
      ensures match DocPath.MoreSteps(old(rest))
              case Err(at) => r == Failed(at)
              case Ok(els, after) => r == Done(Steps(first + els)) && rest == after
    {
      hide DocPath.MoreSteps, StorePath, PathEvents;
      var rep := new Reporter(true);
      var i := 0;
      assert first[..0] == [];
      while i < |first|
        invariant 0 <= i <= |first| && rep.started && rep.Holds(first[..i])
        invariant rest == old(rest)
      {
        rep.Element(first[i], first[..i]);
        assert first[..i] + [first[i]] == first[..i + 1];
        i := i + 1;
      }
      assert first[..i] == first;
      ghost var s0 := rest;
      var more := MoreSteps(rep, first);
      if more.Failed? { return Failed(more.at); }
      ghost var els := first + DocPath.MoreSteps(s0).val;
      rep.ListEnd(els);
      StoreReported(Steps(els));
      return Done(StorePath(rep.events));
    }
  }

  lemma WholeEvents()
    ensures PathEvents(WholeDocument) == [PWholeDocument]
  {
  }

  // The loop of MoreSteps against the recursive rule

  /** After the steps `done` the rule continues on `now`. */
  ghost predicate StepsThen(s: seq<Token>, done: seq<PathEl>, now: seq<Token>) {
    match DocPath.MoreSteps(now)
    case Err(at) => DocPath.MoreSteps(s) == Err(at)
    case Ok(els, after) =>
      DocPath.MoreSteps(s) ==
        if els == [] && done != [] && done[|done| - 1] == AnyPath then Err(|after|) else Ok(done + els, after)
  }

  lemma StepsStart(s: seq<Token>)
    ensures StepsThen(s, [], s)
  {
    if DocPath.MoreSteps(s).Ok? {
      assert [] + DocPath.MoreSteps(s).val == DocPath.MoreSteps(s).val;
    }
  }

  lemma StepFails(s: seq<Token>, done: seq<PathEl>, now: seq<Token>)
    requires StepsThen(s, done, now) && StartsStep(now) && Step(now).Err?
    ensures DocPath.MoreSteps(s) == Err(Step(now).at)
  {
    hide Step;
  }

  lemma StepTaken(s: seq<Token>, done: seq<PathEl>, now: seq<Token>)
    requires StepsThen(s, done, now) && StartsStep(now) && Step(now).Ok?
    ensures StepsThen(s, done + [Step(now).val], Step(now).rest)
  {
    hide Step;
    var el, r := Step(now).val, Step(now).rest;
    if DocPath.MoreSteps(r).Ok? {
      var els := DocPath.MoreSteps(r).val;
      assert done + ([el] + els) == done + [el] + els;
    }
  }

  lemma StepsEnd(s: seq<Token>, done: seq<PathEl>, now: seq<Token>)
    requires StepsThen(s, done, now) && !StartsStep(now)
    ensures DocPath.MoreSteps(s) == if done != [] && done[|done| - 1] == AnyPath then Err(|now|) else Ok(done, now)
  {
    assert done + [] == done;
  }
}
