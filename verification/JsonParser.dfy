/** The list, array, document and scalar parsers, reporting to a builder. */
module JsonParser {

  import opened JsonSyntax
  import opened JsonBuilder

  datatype Outcome = Parsed | NotThere | Failed

  function Outcomes<T>(r: Res<T>): Outcome {
    match r
    case Ok(_, _) => Parsed
    case No => NotThere
    case Err => Failed
  }

  /** The result for a list when its first elements `acc` have been parsed. */
  function Continued<T>(acc: seq<T>, r: Res<seq<T>>): Res<seq<T>> {
    if acc == [] then r
    else
      match r
      case Ok(vs, rest) => Ok(acc + vs, rest)
      case _ => Err
  }

  lemma ElementsStep(acc: seq<Syn>, ts: seq<Tok>)
    requires Any(ts).Ok?
    ensures
      var v, rest := Any(ts).v, Any(ts).rest;
      Continued(acc, Elements(ts))
      == if At(rest, Comma) then Continued(acc + [v], Elements(rest[1..])) else Ok(acc + [v], rest)
  {
    hide Any;
    var v, rest := Any(ts).v, Any(ts).rest;
    assert acc == [] ==> acc + [v] == [v];
    if At(rest, Comma) && Elements(rest[1..]).Ok? {
      assert acc + ([v] + Elements(rest[1..]).v) == acc + [v] + Elements(rest[1..]).v;
    }
  }

  lemma PairsStep(acc: seq<Pair>, ts: seq<Tok>)
    requires KeyValue(ts).Ok?
    ensures
      var p, rest := KeyValue(ts).v, KeyValue(ts).rest;
      Continued(acc, Pairs(ts))
      == if At(rest, Comma) then Continued(acc + [p], Pairs(rest[1..])) else Ok(acc + [p], rest)
  {
    hide KeyValue;
    var p, rest := KeyValue(ts).v, KeyValue(ts).rest;
    assert acc == [] ==> acc + [p] == [p];
    if At(rest, Comma) && Pairs(rest[1..]).Ok? {
      assert acc + ([p] + Pairs(rest[1..]).v) == acc + [p] + Pairs(rest[1..]).v;
    }
  }

  class Parser {
    var rest: seq<Tok>
    const b: Builder

    constructor (ts: seq<Tok>)
      ensures rest == ts && fresh(b) && b.frames == [DocFrame(map[], "")]
    {
      rest := ts;
      b := new Builder();
    }

    method Consume(t: Tok) returns (yes: bool)
      modifies this`rest
      ensures yes == At(old(rest), t)
      ensures rest == if yes then old(rest)[1..] else old(rest)
    {
      yes := rest != [] && rest[0] == t;
      if yes {
        rest := rest[1..];
      }
    }

    method ParseScalar() returns (o: Outcome)
      requires b.frames != []
      modifies this`rest, b
      ensures o == Outcomes(ScalarOf(old(rest)))
      ensures o == Parsed ==>
        rest == ScalarOf(old(rest)).rest
          && b.frames == OnTop(old(b.frames), Placed(Top(old(b.frames)), ScalarOf(old(rest)).v))
      ensures o == NotThere ==> rest == old(rest) && b.frames == old(b.frames)
    {
      if rest == [] {
        return NotThere;
      }
      var tok := rest[0];
      rest := rest[1..];
      var neg := false;
      if tok.Str? {
        b.PutScalar(Text(tok.s));
        return Parsed;
      } else if tok == Word("null") {
        b.PutScalar(Null);
        return Parsed;
      } else if tok == Word("true") || tok == Word("false") {
        b.PutScalar(Bool(tok.s == "true"));
        return Parsed;
      } else if tok.Plus? || tok.Minus? {
        neg := tok.Minus?;
        if rest == [] {
          return Failed;
        }
        tok := rest[0];
        rest := rest[1..];
      }
      if tok.Num? {
        b.PutScalar(Float(neg, tok.text));
        return Parsed;
      }
      if !tok.Int? || tok.n >= Unsigneds || (tok.n > Abs && neg) || tok.n == Abs {
        return Failed;
      }
      b.PutScalar(if tok.n > Abs then Unsigned(tok.n) else Signed(if neg then 0 - tok.n else tok.n));
      return Parsed;
    }

    method ParseAny() returns (o: Outcome)
      requires b.frames != []
      modifies this`rest, b
      ensures o == Outcomes(Any(old(rest)))
      ensures o == Parsed ==>
        rest == Any(old(rest)).rest && b.frames == OnTop(old(b.frames), Placed(Top(old(b.frames)), Any(old(rest)).v))
      ensures o == NotThere ==> rest == old(rest) && b.frames == old(b.frames)
      decreases |rest|, 2
    {
      hide Array, Document, ScalarOf, Placed;
      if At(rest, LCurly) {
        o := ParseDocument();
      } else if At(rest, LSquare) {
        o := ParseArray();
      } else {
        o := ParseScalar();
      }
    }

    method ParseArray() returns (o: Outcome)
      requires b.frames != [] && At(rest, LSquare)
      modifies this`rest, b
      ensures o == Outcomes(Array(old(rest))) && o != NotThere
      ensures o == Parsed ==>
        rest == Array(old(rest)).rest
          && b.frames == OnTop(old(b.frames), Placed(Top(old(b.frames)), Array(old(rest)).v))
      decreases |rest|, 1
    {
      hide Placed, PlacedAll, Build, Refilled, Elements;
      ghost var ts, fs := rest, b.frames;
      rest := rest[1..];
      b.Open(false);
      ghost var els: seq<Syn> := [];
      PlacedAllElements(els);
      if !At(rest, RSquare) {
        o := ParseElements();
        if o != Parsed {
          return Failed;
        }
        els := Elements(ts[1..]).v;
        PlacedAllElements(els);
      }
      var yes := Consume(RSquare);
      if !yes {
        return Failed;
      }
      b.Close();
      ArrayBuilt(els);
      RefillPlaces(Top(fs), Arr(els));
      return Parsed;
    }

    method ParseElements() returns (o: Outcome)
      requires b.frames != [] && Top(b.frames).ArrFrame?
      modifies this`rest, b
      ensures o == Outcomes(Elements(old(rest)))
      ensures o == Parsed ==>
        rest == Elements(old(rest)).rest
          && b.frames == OnTop(old(b.frames), PlacedAll(Top(old(b.frames)), Elements(old(rest)).v))
      decreases |rest|, 3
    {
      hide Placed, Any, Elements;
      ghost var ts, fs := rest, b.frames;
      ghost var acc: seq<Syn> := [];
      var first := true;
      assert b.frames == OnTop(fs, PlacedAll(Top(fs), acc));
      while true
        invariant b.frames != [] && |rest| <= |ts| && (first <==> acc == [])
        invariant Elements(ts) == Continued(acc, Elements(rest))
        invariant b.frames == OnTop(fs, PlacedAll(Top(fs), acc))
        decreases |rest|
      {
        ElementsFails(rest);
        if Any(rest).Ok? {
          ElementsStep(acc, rest);
          assert (acc + [Any(rest).v])[..|acc|] == acc;
        }
        ghost var v := Any(rest);
        o := ParseAny();
        if o != Parsed {
          return if first then o else Failed;
        }
        acc := acc + [v.v];
        var yes := Consume(Comma);
        if !yes {
          return Parsed;
        }
        first := false;
      }
    }

    /** A document inside another value. */
    method ParseDocument() returns (o: Outcome)
      requires b.frames != [] && At(rest, LCurly)
      modifies this`rest, b
      ensures o == Outcomes(Document(old(rest))) && o != NotThere
      ensures o == Parsed ==>
        rest == Document(old(rest)).rest
          && b.frames == OnTop(old(b.frames), Placed(Top(old(b.frames)), Document(old(rest)).v))
      decreases |rest|, 1
    {
      hide Placed, PutPairs, Build, Refilled, Document;
      ghost var ts, fs := rest, b.frames;
      rest := rest[1..];
      b.Open(true);
      o := ParseBody();
      BodyIsDocument(ts);
      if o != Parsed {
        return;
      }
      ghost var pairs := Document(ts).v.pairs;
      PutPairsFields("", pairs);
      b.Close();
      DocumentBuilt(pairs);
      RefillPlaces(Top(fs), Doc(pairs));
    }

    /** What is between the braces of a document, and the closing brace. */
    method ParseBody() returns (o: Outcome)
      requires b.frames != [] && Top(b.frames).DocFrame?
      modifies this`rest, b
      ensures o == Outcomes(Document([LCurly] + old(rest))) && o != NotThere
      ensures o == Parsed ==>
        var r := Document([LCurly] + old(rest));
        && rest == r.rest
        && b.frames == OnTop(old(b.frames), PutPairs(Top(old(b.frames)), r.v.pairs))
      decreases |rest|, 4
    {
      hide PutPair, PutPairs, Pairs;
      ghost var ts, fs := rest, b.frames;
      assert ([LCurly] + ts)[1..] == ts;
      NoPairs(Top(fs));
      if !At(rest, RCurly) {
        o := ParsePairs();
        if o != Parsed {
          return Failed;
        }
      }
      var yes := Consume(RCurly);
      if !yes {
        return Failed;
      }
      return Parsed;
    }

    method ParsePairs() returns (o: Outcome)
      requires b.frames != [] && Top(b.frames).DocFrame?
      modifies this`rest, b
      ensures o == Outcomes(Pairs(old(rest)))
      ensures o == Parsed ==>
        rest == Pairs(old(rest)).rest
          && b.frames == OnTop(old(b.frames), PutPairs(Top(old(b.frames)), Pairs(old(rest)).v))
      decreases |rest|, 3
    {
      hide PutPair, KeyValue, Pairs;
      ghost var ts, fs := rest, b.frames;
      ghost var acc: seq<Pair> := [];
      var first := true;
      assert b.frames == OnTop(fs, PutPairs(Top(fs), acc));
      while true
        invariant b.frames != [] && |rest| <= |ts| && (first <==> acc == []) && Top(b.frames).DocFrame?
        invariant Pairs(ts) == Continued(acc, Pairs(rest))
        invariant b.frames == OnTop(fs, PutPairs(Top(fs), acc))
        decreases |rest|
      {
        PairsFails(rest);
        if KeyValue(rest).Ok? {
          PairsStep(acc, rest);
          assert (acc + [KeyValue(rest).v])[..|acc|] == acc;
        }
        ghost var p := KeyValue(rest);
        o := ParseKeyValue();
        if o != Parsed {
          return if first then o else Failed;
        }
        acc := acc + [p.v];
        var yes := Consume(Comma);
        if !yes {
          return Parsed;
        }
        first := false;
      }
    }

    method ParseKeyValue() returns (o: Outcome)
      requires b.frames != [] && Top(b.frames).DocFrame?
      modifies this`rest, b
      ensures o == Outcomes(KeyValue(old(rest)))
      ensures o == Parsed ==>
        && rest == KeyValue(old(rest)).rest
        && b.frames == OnTop(old(b.frames), PutPair(Top(old(b.frames)), KeyValue(old(rest)).v))
        && Top(b.frames).DocFrame?
      decreases |rest|, 2
    {
      hide Any, Added;
      if rest == [] || !(rest[0].Str? || rest[0].Word?) {
        return NotThere;
      }
      ghost var ts := rest;
      var key := rest[0].s;
      rest := rest[1..];
      var yes := Consume(Colon);
      if !yes {
        return Failed;
      }
      assert rest == ts[2..];
      b.KeyVal(key);
      o := ParseAny();
      if o == NotThere {
        return Failed;
      }
    }

    /** A complete JSON string: the builder holds its document. */
    method Process() returns (ok: bool)
      requires |b.frames| == 1 && b.frames[0].DocFrame?
      modifies this`rest, b
      ensures ok <==> Json(old(rest)).Ok?
      ensures ok ==>
        |b.frames| == 1 && b.frames[0].DocFrame? && VDoc(b.frames[0].fields) == Build(Json(old(rest)).v)
    {
      hide Document, PutPairs, Build, Fields;
      ghost var ts := rest;
      DocumentStarts(ts);
      if rest == [] {
        return false;
      }
      var yes := Consume(LCurly);
      if !yes {
        return false;
      }
      b.Clear();
      var o := ParseBody();
      BodyIsDocument(ts);
      ok := o == Parsed && rest == [];
      if ok {
        PutPairsFields(Top(old(b.frames)).key, Document(ts).v.pairs);
        DocumentBuilt(Document(ts).v.pairs);
      }
    }
  }

  lemma ElementsFails(ts: seq<Tok>)
    ensures !Any(ts).Ok? ==> Outcomes(Elements(ts)) == Outcomes(Any(ts))
  {
  }

  lemma PairsFails(ts: seq<Tok>)
    ensures !KeyValue(ts).Ok? ==> Outcomes(Pairs(ts)) == Outcomes(KeyValue(ts))
  {
  }

  lemma BodyIsDocument(ts: seq<Tok>)
    requires At(ts, LCurly)
    ensures [LCurly] + ts[1..] == ts && !Document(ts).No?
  {
  }

  lemma DocumentStarts(ts: seq<Tok>)
    ensures !At(ts, LCurly) ==> Document(ts).No?
  {
  }

  lemma NoPairs(f: Frame)
    ensures PutPairs(f, []) == f
  {
  }

  lemma DocumentBuilt(pairs: seq<Pair>)
    ensures Build(Doc(pairs)) == VDoc(Fields(pairs))
  {
  }

  lemma ArrayBuilt(els: seq<Syn>)
    ensures Build(Arr(els)) == VArr(BuildAll(els))
  {
  }

  /** Every printable document with distinct keys that is printed, parsed and built is the tree it was. */
  method PrintAndParse(pairs: seq<Pair>) returns (ok: bool, v: Value)
    ensures Printable(Doc(pairs)) ==> ok && v == Build(Doc(pairs))
    ensures Printable(Doc(pairs)) && DistinctKeys(Doc(pairs)) ==> SameTree(v, Doc(pairs))
  {
    JsonRoundTrip(pairs);
    var p := new Parser(Print(Doc(pairs)));
    ok := p.Process();
    v := if ok then VDoc(p.b.frames[0].fields) else VDoc(map[]);
    if DistinctKeys(Doc(pairs)) {
      BuildsTheTree(Doc(pairs));
    }
  }
}
