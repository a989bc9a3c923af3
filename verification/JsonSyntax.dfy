/** JSON documents: tokens, the grammar the parsers accept, and printing. */
module JsonSyntax {

  datatype Tok =
    | LCurly | RCurly | LSquare | RSquare | Comma | Colon | Plus | Minus
    | Int(n: nat) | Num(text: string) | Str(s: string) | Word(s: string) | OtherTok

  /** Scalars. Floating-point numbers keep their text. */
  datatype Scalar = Null | Bool(b: bool) | Text(s: string) | Signed(i: int) | Unsigned(n: nat)
    | Float(neg: bool, text: string)

  /** A value as it is written: a document is a list of pairs, in which keys may repeat. */
  datatype Syn = Leaf(scalar: Scalar) | Arr(els: seq<Syn>) | Doc(pairs: seq<Pair>)

  datatype Pair = Pair(key: string, val: Syn)

  /** `No` tells that nothing was there to parse and nothing was consumed. */
  datatype Res<T> = Ok(v: T, rest: seq<Tok>) | No | Err

  const Abs: nat := 0x8000_0000_0000_0000

  const Unsigneds: nat := 0x1_0000_0000_0000_0000

  predicate At(ts: seq<Tok>, t: Tok) { ts != [] && ts[0] == t }

  /** An integer. A positive 2^63 is refused, and a negative one cannot be negated. */
  function Integer(neg: bool, n: nat, rest: seq<Tok>): Res<Syn> {
    if n >= Unsigneds then Err
    else if n > Abs then if neg then Err else Ok(Leaf(Unsigned(n)), rest)
    else if n == Abs then Err
    else Ok(Leaf(Signed(if neg then 0 - n else n)), rest)
  }

  function Number(neg: bool, ts: seq<Tok>): Res<Syn> {
    if ts == [] then Err
    else if ts[0].Num? then Ok(Leaf(Float(neg, ts[0].text)), ts[1..])
    else if ts[0].Int? then Integer(neg, ts[0].n, ts[1..])
    else Err
  }

  function ScalarOf(ts: seq<Tok>): (r: Res<Syn>)
    ensures r.Ok? ==> |r.rest| < |ts|
    ensures r.No? <==> ts == []
  {
    if ts == [] then No
    else if ts[0].Str? then Ok(Leaf(Text(ts[0].s)), ts[1..])
    else if ts[0] == Word("null") then Ok(Leaf(Null), ts[1..])
    else if ts[0] == Word("true") || ts[0] == Word("false") then Ok(Leaf(Bool(ts[0].s == "true")), ts[1..])
    else if ts[0].Plus? || ts[0].Minus? then Number(ts[0].Minus?, ts[1..])
    else Number(false, ts)
  }

  function Any(ts: seq<Tok>): (r: Res<Syn>)
    ensures r.Ok? ==> |r.rest| < |ts|
    decreases |ts|, 2
  {
    if At(ts, LCurly) then Document(ts)
    else if At(ts, LSquare) then Array(ts)
    else ScalarOf(ts)
  }

  function Array(ts: seq<Tok>): (r: Res<Syn>)
    ensures r.Ok? ==> |r.rest| < |ts|
    decreases |ts|, 1
  {
    if !At(ts, LSquare) then No
    else if At(ts[1..], RSquare) then Ok(Arr([]), ts[2..])
    else
      match Elements(ts[1..])
      case Ok(els, rest) => if At(rest, RSquare) then Ok(Arr(els), rest[1..]) else Err
      case _ => Err
  }

  function Elements(ts: seq<Tok>): (r: Res<seq<Syn>>)
    ensures r.Ok? ==> |r.rest| < |ts|
    decreases |ts|, 3
  {
    match Any(ts)
    case No => No
    case Err => Err
    case Ok(v, rest) =>
      if At(rest, Comma) then
        match Elements(rest[1..])
        case Ok(vs, rest1) => Ok([v] + vs, rest1)
        case _ => Err
      else Ok([v], rest)
  }

  function Document(ts: seq<Tok>): (r: Res<Syn>)
    ensures r.Ok? ==> |r.rest| < |ts| && r.v.Doc?
    decreases |ts|, 1
  {
    if !At(ts, LCurly) then No
    else if At(ts[1..], RCurly) then Ok(Doc([]), ts[2..])
    else
      match Pairs(ts[1..])
      case Ok(pairs, rest) => if At(rest, RCurly) then Ok(Doc(pairs), rest[1..]) else Err
      case _ => Err
  }

  function Pairs(ts: seq<Tok>): (r: Res<seq<Pair>>)
    ensures r.Ok? ==> |r.rest| < |ts|
    decreases |ts|, 3
  {
    match KeyValue(ts)
    case No => No
    case Err => Err
    case Ok(p, rest) =>
      if At(rest, Comma) then
        match Pairs(rest[1..])
        case Ok(ps, rest1) => Ok([p] + ps, rest1)
        case _ => Err
      else Ok([p], rest)
  }

  function KeyValue(ts: seq<Tok>): (r: Res<Pair>)
    ensures r.Ok? ==> |r.rest| < |ts|
    decreases |ts|, 2
  {
    if ts == [] || !(ts[0].Str? || ts[0].Word?) then No
    else if !At(ts[1..], Colon) then Err
    else
      match Any(ts[2..])
      case Ok(v, rest) => Ok(Pair(ts[0].s, v), rest)
      case _ => Err
  }

  /** A complete JSON string: one document and nothing after it. */
  function Json(ts: seq<Tok>): Res<Syn> {
    match Document(ts)
    case Ok(v, rest) => if rest == [] then Ok(v, rest) else Err
    case _ => Err
  }

  // Printing

  predicate PrintableScalar(s: Scalar) {
    match s
    case Signed(i) => 0 - Abs < i < Abs
    case Unsigned(n) => Abs < n < Unsigneds
    case Null => true
    case Bool(_) => true
    case Text(_) => true
    case Float(_, _) => true
  }

  predicate Printable(v: Syn)
    decreases v, 0
  {
    match v
    case Leaf(s) => PrintableScalar(s)
    case Arr(els) => forall i :: 0 <= i < |els| ==> Printable(els[i])
    case Doc(pairs) => forall i :: 0 <= i < |pairs| ==> Printable(pairs[i].val)
  }

  function PrintScalar(s: Scalar): seq<Tok> {
    match s
    case Null => [Word("null")]
    case Bool(b) => [Word(if b then "true" else "false")]
    case Text(t) => [Str(t)]
    case Signed(i) => if i < 0 then [Minus, Int(-i)] else [Int(i)]
    case Unsigned(n) => [Int(n)]
    case Float(neg, t) => if neg then [Minus, Num(t)] else [Num(t)]
  }

  function Print(v: Syn): seq<Tok>
    decreases v, 0
  {
    match v
    case Leaf(s) => PrintScalar(s)
    case Arr(els) => [LSquare] + PrintElements(els) + [RSquare]
    case Doc(pairs) => [LCurly] + PrintPairs(pairs) + [RCurly]
  }

  function PrintElements(els: seq<Syn>): seq<Tok>
    decreases els, 1
  {
    if els == [] then []
    else if |els| == 1 then Print(els[0])
    else Print(els[0]) + ([Comma] + PrintElements(els[1..]))
  }

  function PrintPairs(pairs: seq<Pair>): seq<Tok>
    decreases pairs, 1
  {
    if pairs == [] then []
    else if |pairs| == 1 then PrintPair(pairs[0])
    else PrintPair(pairs[0]) + ([Comma] + PrintPairs(pairs[1..]))
  }

  function PrintPair(p: Pair): seq<Tok>
    decreases p, 0
  {
    [Str(p.key), Colon] + Print(p.val)
  }

  // Parsing inverts printing

  lemma ScalarRoundTrip(s: Scalar, rest: seq<Tok>)
    requires PrintableScalar(s)
    ensures Any(PrintScalar(s) + rest) == Ok(Leaf(s), rest)
  {
    var ts := PrintScalar(s) + rest;
    if |PrintScalar(s)| == 1 {
      assert ts[1..] == rest;
    } else {
      assert ts[0] == Minus && ts[1..][1..] == rest && ts[1..][0] == PrintScalar(s)[1];
    }
  }

  // One step of each list rule

  lemma ElementsUnfold(ts: seq<Tok>, v: Syn, rest: seq<Tok>)
    requires Any(ts) == Ok(v, rest)
    ensures !At(rest, Comma) ==> Elements(ts) == Ok([v], rest)
    ensures At(rest, Comma) && Elements(rest[1..]).Ok? ==>
      Elements(ts) == Ok([v] + Elements(rest[1..]).v, Elements(rest[1..]).rest)
  {
    hide Any;
  }

  lemma PairsUnfold(ts: seq<Tok>, p: Pair, rest: seq<Tok>)
    requires KeyValue(ts) == Ok(p, rest)
    ensures !At(rest, Comma) ==> Pairs(ts) == Ok([p], rest)
    ensures At(rest, Comma) && Pairs(rest[1..]).Ok? ==>
      Pairs(ts) == Ok([p] + Pairs(rest[1..]).v, Pairs(rest[1..]).rest)
  {
    hide KeyValue;
  }

  lemma ArrayStep(inner: seq<Tok>, els: seq<Syn>, rest: seq<Tok>)
    requires
      if els == [] then inner == [RSquare] + rest
      else !At(inner, RSquare) && Elements(inner) == Ok(els, [RSquare] + rest)
    ensures Any([LSquare] + inner) == Ok(Arr(els), rest)
  {
    hide Elements;
    var ts := [LSquare] + inner;
    assert ts[1..] == inner && ([RSquare] + rest)[1..] == rest;
    assert els == [] ==> ts[2..] == rest;
    assert Any(ts) == Array(ts);
  }

  lemma DocumentStep(inner: seq<Tok>, pairs: seq<Pair>, rest: seq<Tok>)
    requires
      if pairs == [] then inner == [RCurly] + rest
      else !At(inner, RCurly) && Pairs(inner) == Ok(pairs, [RCurly] + rest)
    ensures Any([LCurly] + inner) == Document([LCurly] + inner) == Ok(Doc(pairs), rest)
  {
    hide Pairs;
    var ts := [LCurly] + inner;
    assert ts[1..] == inner && ([RCurly] + rest)[1..] == rest;
    assert pairs == [] ==> ts[2..] == rest;
  }

  lemma {:induction false} RoundTrip(v: Syn, rest: seq<Tok>)
    requires Printable(v)
    ensures Any(Print(v) + rest) == Ok(v, rest)
    decreases v, 0
  {
    hide Any, PrintElements, PrintPairs, PrintScalar;
    match v {
      case Leaf(s) =>
        ScalarRoundTrip(s, rest);
      case Arr(els) =>
        var inner := PrintElements(els) + ([RSquare] + rest);
        assert Print(v) + rest == [LSquare] + inner;
        ElementsStart(els, [RSquare] + rest);
        if els != [] {
          ElementsRoundTrip(els, [RSquare] + rest);
        }
        ArrayStep(inner, els, rest);
      case Doc(pairs) =>
        DocumentRoundTrip(pairs, rest);
    }
  }

  lemma {:induction false} DocumentRoundTrip(pairs: seq<Pair>, rest: seq<Tok>)
    requires Printable(Doc(pairs))
    ensures Any(Print(Doc(pairs)) + rest) == Document(Print(Doc(pairs)) + rest) == Ok(Doc(pairs), rest)
    decreases pairs, 2
  {
    hide Any, Document, PrintPairs;
    var inner := PrintPairs(pairs) + ([RCurly] + rest);
    assert Print(Doc(pairs)) + rest == [LCurly] + inner;
    PairsStart(pairs, [RCurly] + rest);
    if pairs != [] {
      PairsRoundTrip(pairs, [RCurly] + rest);
    }
    DocumentStep(inner, pairs, rest);
  }

  /** Printed lists do not start with a closing bracket. */
  lemma ElementsStart(els: seq<Syn>, rest: seq<Tok>)
    ensures els == [] ==> PrintElements(els) + rest == rest
    ensures els != [] ==> !At(PrintElements(els) + rest, RSquare)
  {
    if els != [] {
      StartsValue(els[0]);
      assert (PrintElements(els) + rest)[0] == Print(els[0])[0];
    }
  }

  lemma PairsStart(pairs: seq<Pair>, rest: seq<Tok>)
    ensures pairs == [] ==> PrintPairs(pairs) + rest == rest
    ensures pairs != [] ==> !At(PrintPairs(pairs) + rest, RCurly)
  {
    if pairs != [] {
      assert (PrintPairs(pairs) + rest)[0] == Str(pairs[0].key);
    }
  }

  lemma StartsValue(v: Syn)
    ensures Print(v) != [] && Print(v)[0] != RSquare
  {
  }

  lemma {:induction false} ElementsRoundTrip(els: seq<Syn>, rest: seq<Tok>)
    requires els != [] && !At(rest, Comma) && forall i :: 0 <= i < |els| ==> Printable(els[i])
    ensures Elements(PrintElements(els) + rest) == Ok(els, rest)
    decreases els, 1
  {
    hide Print, Any, Elements, Printable;
    if |els| == 1 {
      RoundTrip(els[0], rest);
      ElementsUnfold(Print(els[0]) + rest, els[0], rest);
      assert els == [els[0]];
    } else {
      var tail := PrintElements(els[1..]) + rest;
      var more := [Comma] + tail;
      Regroup(Print(els[0]), [Comma], PrintElements(els[1..]), rest);
      RoundTrip(els[0], more);
      ElementsRoundTrip(els[1..], rest);
      assert more[1..] == tail;
      ElementsUnfold(Print(els[0]) + more, els[0], more);
      assert els == [els[0]] + els[1..];
    }
  }

  lemma Regroup(a: seq<Tok>, b: seq<Tok>, c: seq<Tok>, d: seq<Tok>)
    ensures a + (b + c) + d == a + (b + (c + d))
  {
  }

  lemma {:induction false} PairsRoundTrip(pairs: seq<Pair>, rest: seq<Tok>)
    requires pairs != [] && !At(rest, Comma) && forall i :: 0 <= i < |pairs| ==> Printable(pairs[i].val)
    ensures Pairs(PrintPairs(pairs) + rest) == Ok(pairs, rest)
    decreases pairs, 1
  {
    hide PrintPair, KeyValue, Pairs, Printable;
    if |pairs| == 1 {
      PairRoundTrip(pairs[0], rest);
      PairsUnfold(PrintPair(pairs[0]) + rest, pairs[0], rest);
      assert pairs == [pairs[0]];
    } else {
      var tail := PrintPairs(pairs[1..]) + rest;
      var more := [Comma] + tail;
      Regroup(PrintPair(pairs[0]), [Comma], PrintPairs(pairs[1..]), rest);
      PairRoundTrip(pairs[0], more);
      PairsRoundTrip(pairs[1..], rest);
      assert more[1..] == tail;
      PairsUnfold(PrintPair(pairs[0]) + more, pairs[0], more);
      assert pairs == [pairs[0]] + pairs[1..];
    }
  }

  lemma {:induction false} PairRoundTrip(p: Pair, rest: seq<Tok>)
    requires Printable(p.val)
    ensures KeyValue(PrintPair(p) + rest) == Ok(p, rest)
    decreases p, 0
  {
    hide Any, Print;
    RoundTrip(p.val, rest);
    var ts := PrintPair(p) + rest;
    assert ts[0] == Str(p.key) && ts[1..][0] == Colon;
    assert ts[2..] == Print(p.val) + rest;
  }

  /** Exactly the printable documents round-trip. */
  lemma JsonRoundTrip(pairs: seq<Pair>)
    ensures Json(Print(Doc(pairs))) == Ok(Doc(pairs), []) <==> Printable(Doc(pairs))
  {
    hide Document, Print, Printable;
    var ts := Print(Doc(pairs));
    if Printable(Doc(pairs)) {
      DocumentRoundTrip(pairs, []);
      assert ts + [] == ts;
    } else {
      ParsedIsPrintable(ts);
      assert At(ts, LCurly) by { DocumentOpens(pairs); }
    }
  }

  lemma DocumentOpens(pairs: seq<Pair>)
    ensures At(Print(Doc(pairs)), LCurly)
  {
    hide PrintPairs;
  }

  /** An integer with or without a sign is read as its value unless it is too large for its sign;
      2^63 is refused, although an unsigned integer could hold it. */
  lemma IntegerIsRead(sign: seq<Tok>, n: nat, rest: seq<Tok>)
    requires sign in [[], [Plus], [Minus]]
    ensures
      var i: int := if sign == [Minus] then 0 - n else n;
      Any(sign + [Int(n)] + rest) ==
        if -0x8000_0000_0000_0000 < i < 0x8000_0000_0000_0000 then Ok(Leaf(Signed(i)), rest)
        else if 0x8000_0000_0000_0000 < i < 0x1_0000_0000_0000_0000 then Ok(Leaf(Unsigned(n)), rest)
        else Err
  {
    var ts := sign + [Int(n)] + rest;
    if sign == [] {
      assert ts[1..] == rest;
    } else {
      assert ts[0] == sign[0] && ts[1..][0] == Int(n) && ts[1..][1..] == rest;
    }
  }

  /** Whatever is parsed is printable, so exactly the printable values can be read. */
  lemma {:induction false} ParsedIsPrintable(ts: seq<Tok>)
    ensures Any(ts).Ok? ==> Printable(Any(ts).v)
    decreases |ts|, 2
  {
    if At(ts, LCurly) {
      if !At(ts[1..], RCurly) {
        PairsPrintable(ts[1..]);
      }
    } else if At(ts, LSquare) {
      if !At(ts[1..], RSquare) {
        ElementsPrintable(ts[1..]);
        var e := Elements(ts[1..]);
        assert Any(ts) == Array(ts);
        assert Array(ts).Ok? ==> e.Ok? && Array(ts).v == Arr(e.v);
      }
    }
  }

  lemma {:induction false} ElementsPrintable(ts: seq<Tok>)
    ensures Elements(ts).Ok? ==> forall i :: 0 <= i < |Elements(ts).v| ==> Printable(Elements(ts).v[i])
    decreases |ts|, 3
  {
    ParsedIsPrintable(ts);
    var r := Any(ts);
    if r.Ok? && At(r.rest, Comma) {
      ElementsPrintable(r.rest[1..]);
    }
  }

  lemma {:induction false} PairsPrintable(ts: seq<Tok>)
    ensures Pairs(ts).Ok? ==> forall i :: 0 <= i < |Pairs(ts).v| ==> Printable(Pairs(ts).v[i].val)
    decreases |ts|, 3
  {
    var r := KeyValue(ts);
    if r.Ok? {
      ParsedIsPrintable(ts[2..]);
      if At(r.rest, Comma) {
        PairsPrintable(r.rest[1..]);
      }
    }
  }
}
