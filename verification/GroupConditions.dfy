/** The meaning of the emitted "such that" conditions, and what it makes of a query. */
module GroupConditions {

  import opened GroupTables

  datatype Op = Eq | Ne | Lt | Gt | Le | Ge

  /** The right side of a condition: a number, a quoted text, a column of the scanned row, or an
      aggregate of an earlier grouping variable. */
  datatype Operand = Number(n: int) | Quoted(s: string) | Other(col: nat) | Cell(group: nat, agg: nat)

  datatype Condition = Condition(col: nat, op: Op, operand: Operand)

  datatype Link = And | Or

  /** Conditions joined by `and` and `or`, as they are written. */
  datatype Conditions = Conditions(conds: seq<Condition>, links: seq<Link>)

  predicate WellFormed(cs: Conditions) { |cs.conds| == |cs.links| + 1 }

  function ValueAt(r: Row, col: nat): Value { if col < |r| then r[col] else Num(0) }

  predicate TextLess(a: string, b: string) {
    if a == [] || b == [] then a == [] && b != []
    else a[0] < b[0] || (a[0] == b[0] && TextLess(a[1..], b[1..]))
  }

  predicate Less(a: Value, b: Value) {
    (a.Num? && b.Num? && a.n < b.n) || (a.Text? && b.Text? && TextLess(a.s, b.s))
  }

  predicate Compare(op: Op, a: Value, b: Value) {
    match op
    case Eq => a == b
    case Ne => a != b
    case Lt => Less(a, b)
    case Gt => Less(b, a)
    case Le => a == b || Less(a, b)
    case Ge => a == b || Less(b, a)
  }

  /** Numbers are compared as numbers. */
  lemma CompareNumbers(a: int, b: int)
    ensures Compare(Eq, Num(a), Num(b)) <==> a == b
    ensures Compare(Ne, Num(a), Num(b)) <==> a != b
    ensures Compare(Lt, Num(a), Num(b)) <==> a < b
    ensures Compare(Gt, Num(a), Num(b)) <==> a > b
    ensures Compare(Le, Num(a), Num(b)) <==> a <= b
    ensures Compare(Ge, Num(a), Num(b)) <==> a >= b
  {
  }

  /** The first text ends where the second goes on, or the first character in which they differ is
      smaller there. */
  ghost predicate Precedes(a: string, b: string) { exists k: nat :: PrecedesAt(a, b, k) }

  predicate PrecedesAt(a: string, b: string, k: nat) {
    k <= |a| && k < |b| && a[..k] == b[..k] && (k < |a| ==> a[k] < b[k])
  }

  /** Texts are compared like words in a dictionary. */
  lemma CompareTexts(a: string, b: string)
    ensures Compare(Eq, Text(a), Text(b)) <==> a == b
    ensures Compare(Ne, Text(a), Text(b)) <==> a != b
    ensures Compare(Lt, Text(a), Text(b)) <==> Precedes(a, b)
    ensures Compare(Gt, Text(a), Text(b)) <==> Precedes(b, a)
    ensures Compare(Le, Text(a), Text(b)) <==> a == b || Precedes(a, b)
    ensures Compare(Ge, Text(a), Text(b)) <==> a == b || Precedes(b, a)
  {
    hide TextLess, Precedes;
    TextLessPrecedes(a, b);
    TextLessPrecedes(b, a);
  }

  lemma SameFirst(a: string, b: string, k: nat)
    requires 0 < k <= |a| && k <= |b| && a[..k] == b[..k]
    ensures a[0] == b[0]
  {
    assert a[..k][0] == b[..k][0];
  }

  lemma {:induction false} TextLessPrecedes(a: string, b: string)
    ensures TextLess(a, b) <==> Precedes(a, b)
    decreases |a|
  {
    if a == [] {
      assert b != [] ==> PrecedesAt(a, b, 0);
    } else if b != [] && a[0] == b[0] {
      TextLessPrecedes(a[1..], b[1..]);
      if Precedes(a[1..], b[1..]) {
        var k: nat :| PrecedesAt(a[1..], b[1..], k);
        assert a[..k + 1] == [a[0]] + a[1..][..k] && b[..k + 1] == [b[0]] + b[1..][..k];
        assert PrecedesAt(a, b, k + 1);
      }
      if Precedes(a, b) {
        var k: nat :| PrecedesAt(a, b, k);
        assert k > 0;
        assert a[1..][..k - 1] == a[..k][1..] && b[1..][..k - 1] == b[..k][1..];
        assert PrecedesAt(a[1..], b[1..], k - 1);
      }
    } else if b != [] {
      assert a[0] < b[0] ==> PrecedesAt(a, b, 0);
      forall k: nat | PrecedesAt(a, b, k)
        ensures k == 0
      {
        if k > 0 {
          SameFirst(a, b, k);
        }
      }
    }
  }

  /** Position of a key in a table, -1 if it is not there. */
  function Position(t: Table, key: seq<Value>): (p: int)
    ensures -1 <= p < |t|
    ensures p == -1 <==> forall k :: 0 <= k < |t| ==> t[k].key != key
    ensures p >= 0 ==> t[p].key == key
  {
    if t == [] then -1
    else
      var n := |t| - 1;
      var p := Position(t[..n], key);
      if p >= 0 then p else if t[n].key == key then n else -1
  }

  /** One condition. The left side is read from the first row, a column on the right side from
      the second. A quoted text is compared for equality whatever the operator says, and an
      aggregate is only looked at if its position is greater than 0. */
  predicate Holds(keys: seq<nat>, c: Condition, u: Row, r: Row, prior: seq<Table>) {
    var left := ValueAt(u, c.col);
    match c.operand
    case Number(n) => Compare(c.op, left, Num(n))
    case Quoted(s) => left == Text(s)
    case Other(col) => Compare(c.op, left, ValueAt(r, col))
    case Cell(g, a) =>
      && g < |prior|
      && var p := Position(prior[g], KeyFrom(keys, u));
         p > 0 && a < |prior[g][p].cells| && Compare(c.op, left, Num(Shown(prior[g][p].cells[a])))
  }

  /** Running value of the first `n + 1` conditions as an expression in which `and` binds
      tighter: some earlier group of conjuncts was true, and the current one is. */
  function Run(bs: seq<bool>, links: seq<Link>, n: nat): (r: (bool, bool))
    requires n < |bs| == |links| + 1
  {
    if n == 0 then (false, bs[0])
    else
      var (any, all) := Run(bs, links, n - 1);
      if links[n - 1] == And then (any, all && bs[n]) else (any || all, bs[n])
  }

  predicate Chain(bs: seq<bool>, links: seq<Link>)
    requires |bs| == |links| + 1
  {
    var (any, all) := Run(bs, links, |links|);
    any || all
  }

  function Truths(keys: seq<nat>, conds: seq<Condition>, u: Row, r: Row, prior: seq<Table>): (bs: seq<bool>)
    ensures |bs| == |conds|
    ensures forall k :: 0 <= k < |conds| ==> bs[k] == Holds(keys, conds[k], u, r, prior)
  {
    if conds == [] then [] else [Holds(keys, conds[0], u, r, prior)] + Truths(keys, conds[1..], u, r, prior)
  }

  /** The condition of a grouping variable. */
  function Meaning(keys: seq<nat>, cs: Conditions): Cond
    requires WellFormed(cs)
  {
    (u: Row, r: Row, prior: seq<Table>) => Chain(Truths(keys, cs.conds, u, r, prior), cs.links)
  }

  /** A maximal run of conditions joined by `and`, among the first `n + 1`. */
  predicate IsRun(links: seq<Link>, n: nat, i: nat, j: nat)
    requires n <= |links|
  {
    && i <= j <= n
    && (i == 0 || links[i - 1] == Or)
    && (j == n || links[j] == Or)
    && forall k :: i <= k < j ==> links[k] == And
  }

  predicate AllTrue(bs: seq<bool>, i: nat, j: nat)
    requires j < |bs|
  {
    forall k :: i <= k <= j ==> bs[k]
  }

  ghost predicate SomeRun(bs: seq<bool>, links: seq<Link>, n: nat, complete: bool)
    requires n < |bs| == |links| + 1
  {
    exists i: nat, j: nat :: IsRun(links, n, i, j) && (complete <==> j < n) && AllTrue(bs, i, j)
  }

  lemma {:induction false} RunIsRuns(bs: seq<bool>, links: seq<Link>, n: nat)
    requires n < |bs| == |links| + 1
    ensures Run(bs, links, n).0 <==> SomeRun(bs, links, n, true)
    ensures Run(bs, links, n).1 <==> SomeRun(bs, links, n, false)
    decreases n
  {
    if n == 0 {
      assert IsRun(links, 0, 0, 0);
      assert AllTrue(bs, 0, 0) <==> bs[0];
      assert SomeRun(bs, links, 0, false) <==> bs[0];
    } else {
      RunIsRuns(bs, links, n - 1);
      if links[n - 1] == And {
        RunExtends(bs, links, n);
      } else {
        RunCloses(bs, links, n);
      }
    }
  }

  lemma RunExtends(bs: seq<bool>, links: seq<Link>, n: nat)
    requires 0 < n < |bs| == |links| + 1 && links[n - 1] == And
    ensures SomeRun(bs, links, n, true) <==> SomeRun(bs, links, n - 1, true)
    ensures SomeRun(bs, links, n, false) <==> SomeRun(bs, links, n - 1, false) && bs[n]
  {
    if SomeRun(bs, links, n, true) {
      var i: nat, j: nat :| IsRun(links, n, i, j) && j < n && AllTrue(bs, i, j);
      assert j < n - 1;
      assert IsRun(links, n - 1, i, j);
    }
    if SomeRun(bs, links, n - 1, true) {
      var i: nat, j: nat :| IsRun(links, n - 1, i, j) && j < n - 1 && AllTrue(bs, i, j);
      assert IsRun(links, n, i, j);
    }
    if SomeRun(bs, links, n, false) {
      var i: nat, j: nat :| IsRun(links, n, i, j) && j == n && AllTrue(bs, i, j);
      assert i <= n - 1;
      assert IsRun(links, n - 1, i, n - 1);
      assert AllTrue(bs, i, n - 1);
    }
    if SomeRun(bs, links, n - 1, false) && bs[n] {
      var i: nat, j: nat :| IsRun(links, n - 1, i, j) && j == n - 1 && AllTrue(bs, i, j);
      assert IsRun(links, n, i, n);
      assert AllTrue(bs, i, n);
    }
  }

  lemma RunCloses(bs: seq<bool>, links: seq<Link>, n: nat)
    requires 0 < n < |bs| == |links| + 1 && links[n - 1] == Or
    ensures SomeRun(bs, links, n, true) <==> SomeRun(bs, links, n - 1, true) || SomeRun(bs, links, n - 1, false)
    ensures SomeRun(bs, links, n, false) <==> bs[n]
  {
    if SomeRun(bs, links, n, true) {
      var i: nat, j: nat :| IsRun(links, n, i, j) && j < n && AllTrue(bs, i, j);
      assert IsRun(links, n - 1, i, j);
    }
    if SomeRun(bs, links, n - 1, true) {
      var i: nat, j: nat :| IsRun(links, n - 1, i, j) && j < n - 1 && AllTrue(bs, i, j);
      assert IsRun(links, n, i, j);
    }
    if SomeRun(bs, links, n - 1, false) {
      var i: nat, j: nat :| IsRun(links, n - 1, i, j) && j == n - 1 && AllTrue(bs, i, j);
      assert IsRun(links, n, i, j);
    }
    if SomeRun(bs, links, n, false) {
      var i: nat, j: nat :| IsRun(links, n, i, j) && j == n && AllTrue(bs, i, j);
      assert bs[n];
    }
    if bs[n] {
      assert IsRun(links, n, n, n) && AllTrue(bs, n, n);
    }
  }

  /** A chain is true exactly when some maximal run of `and`ed conditions is all true. */
  lemma ChainIsRuns(bs: seq<bool>, links: seq<Link>)
    requires |bs| == |links| + 1
    ensures Chain(bs, links) <==> exists i: nat, j: nat :: IsRun(links, |links|, i, j) && AllTrue(bs, i, j)
  {
    RunIsRuns(bs, links, |links|);
    if i: nat, j: nat :| IsRun(links, |links|, i, j) && AllTrue(bs, i, j) {
      assert SomeRun(bs, links, |links|, j < |links|);
    }
  }

  // What conditions on aggregates do

  lemma PositionOfUnique(q: Query, i: nat, g: nat, rows: seq<Row>, p: nat, r: Row)
    requires g < i <= |q.groups| && p < |Uniques(q, rows)| && Key(q, r) == Key(q, Uniques(q, rows)[p])
    ensures
      var t := Tables(q, i, rows)[g];
      |t| == |Uniques(q, rows)| && |t[p].cells| == |q.groups[g].aggs| && Position(t, Key(q, r)) == p
  {
    hide Position, Tables, Uniques, Key;
    UniquesFacts(q, rows);
    forall k | 0 <= k < |Uniques(q, rows)|
      ensures |Tables(q, i, rows)[g]| == |Uniques(q, rows)|
      ensures Tables(q, i, rows)[g][k].key == Key(q, Uniques(q, rows)[k])
      ensures |Tables(q, i, rows)[g][k].cells| == |q.groups[g].aggs|
    {
      TableShape(q, i, rows, g, k);
    }
  }

  lemma {:induction false} TableShape(q: Query, n: nat, rows: seq<Row>, i: nat, p: nat)
    requires i < n <= |q.groups| && p < |Uniques(q, rows)|
    ensures
      var t := Tables(q, n, rows)[i];
      |t| == |Uniques(q, rows)| && t[p].key == Key(q, Uniques(q, rows)[p]) && |t[p].cells| == |q.groups[i].aggs|
    decreases n
  {
    hide Uniques, Matching, CellsOf, TableOf, Key;
    if i < n - 1 {
      TableShape(q, n - 1, rows, i, p);
    }
  }

  /** A condition on an aggregate of an earlier grouping variable, in any chain of conditions of an
      MF or an EMF query: for a row with the key at position `p` it compares with the final aggregate
      of that same key, except that it never holds at position 0. */
  lemma CellHolds(q: Query, i: nat, c: Condition, rows: seq<Row>, p: nat, x: Row, r: Row)
    requires i <= |q.groups| && p < |Uniques(q, rows)| && Key(q, x) == Key(q, Uniques(q, rows)[p])
    requires c.operand.Cell? && c.operand.group < i && c.operand.agg < |q.groups[c.operand.group].aggs|
    ensures
      var t := Tables(q, i, rows)[c.operand.group];
      && |t| == |Uniques(q, rows)| && |t[p].cells| == |q.groups[c.operand.group].aggs|
      && (Holds(q.keys, c, x, r, Tables(q, i, rows))
          <==> p > 0 && Compare(c.op, ValueAt(x, c.col), Num(Shown(t[p].cells[c.operand.agg]))))
    ensures
      var g, t := c.operand.group, Tables(q, i, rows);
      var agg := q.groups[g].aggs[c.operand.agg];
      IsShown(agg.func, Shown(t[g][p].cells[c.operand.agg]),
              Column(Matching(q, g, t[..g], Uniques(q, rows)[p], rows), agg.col))
  {
    hide Uniques, Tables, Position, Compare, KeyFrom, IsShown, Column, Matching;
    PositionOfUnique(q, i, c.operand.group, rows, p, x);
    CellMeaning(q, i, rows, c.operand.group, p, c.operand.agg);
    var g := c.operand.group;
    var t: seq<Table>, agg := Tables(q, i, rows), q.groups[g].aggs[c.operand.agg];
    ShownIsAggregate(agg.func, t[g][p].cells[c.operand.agg],
                     Column(Matching(q, g, t[..g], Uniques(q, rows)[p], rows), agg.col));
  }

  /** Every aggregate in the conditions of grouping variable `i` is one of an earlier variable. */
  predicate InScope(q: Query, i: nat, cs: Conditions)
    requires i <= |q.groups|
  {
    forall k :: 0 <= k < |cs.conds| && cs.conds[k].operand.Cell? ==>
      var c := cs.conds[k].operand;
      c.group < i && c.agg < |q.groups[c.group].aggs|
  }

  /** One condition for the key at position `p`: an aggregate is the final one of that key, and the
      first key has none. */
  predicate TrueAt(q: Query, c: Condition, x: Row, r: Row, prior: seq<Table>, p: nat) {
    match c.operand
    case Cell(g, a) =>
      && p > 0 && g < |prior| && p < |prior[g]| && a < |prior[g][p].cells|
      && Compare(c.op, ValueAt(x, c.col), Num(Shown(prior[g][p].cells[a])))
    case _ => Holds(q.keys, c, x, r, prior)
  }

  /** Which rows a grouping variable counts for the key at position `p`, for every chain of conditions:
      in an MF query those of the key, and in both kinds those for which some maximal run of `and`ed
      conditions is all true, aggregates being the final ones of that key. The conditions test the
      scanned row in an MF query and the representative of the key in an EMF query. */
  lemma AggregateCondition(q: Query, i: nat, cs: Conditions, rows: seq<Row>, p: nat, r: Row)
    requires i < |q.groups| && p < |Uniques(q, rows)| && WellFormed(cs) && InScope(q, i, cs)
    requires q.groups[i].cond == Meaning(q.keys, cs)
    ensures
      var ts, u := Tables(q, i, rows), Uniques(q, rows)[p];
      Matches(q, i, ts, u, r) <==>
        && (q.emf || Key(q, r) == Key(q, u))
        && exists a: nat, b: nat ::
             && IsRun(cs.links, |cs.links|, a, b)
             && forall k :: a <= k <= b ==> TrueAt(q, cs.conds[k], if q.emf then u else r, r, ts, p)
  {
    hide Uniques, Tables, Compare, KeyFrom, Holds, Chain, TrueAt, IsRun;
    var ts, u := Tables(q, i, rows), Uniques(q, rows)[p];
    var x := if q.emf then u else r;
    if q.emf || Key(q, r) == Key(q, u) {
      var bs := Truths(q.keys, cs.conds, x, r, ts);
      ChainIsRuns(bs, cs.links);
      forall k | 0 <= k < |bs|
        ensures bs[k] == TrueAt(q, cs.conds[k], x, r, ts, p)
      {
        ConditionAt(q, i, cs.conds[k], rows, p, x, r);
      }
      RunsAgree(q, cs, bs, x, r, ts, p);
    }
  }

  lemma ConditionAt(q: Query, i: nat, c: Condition, rows: seq<Row>, p: nat, x: Row, r: Row)
    requires i <= |q.groups| && p < |Uniques(q, rows)| && Key(q, x) == Key(q, Uniques(q, rows)[p])
    requires c.operand.Cell? ==> c.operand.group < i && c.operand.agg < |q.groups[c.operand.group].aggs|
    ensures Holds(q.keys, c, x, r, Tables(q, i, rows)) == TrueAt(q, c, x, r, Tables(q, i, rows), p)
  {
    hide Uniques, Tables, Compare, KeyFrom, Holds;
    if c.operand.Cell? {
      CellHolds(q, i, c, rows, p, x, r);
    }
  }

  lemma RunsAgree(q: Query, cs: Conditions, bs: seq<bool>, x: Row, r: Row, ts: seq<Table>, p: nat)
    requires WellFormed(cs) && |bs| == |cs.conds|
    requires forall k :: 0 <= k < |bs| ==> bs[k] == TrueAt(q, cs.conds[k], x, r, ts, p)
    ensures forall a: nat, b: nat :: IsRun(cs.links, |cs.links|, a, b) ==>
      (AllTrue(bs, a, b) <==> forall k :: a <= k <= b ==> TrueAt(q, cs.conds[k], x, r, ts, p))
  {
    hide TrueAt;
  }

  lemma {:induction false} NothingMatches(q: Query, i: nat, prior: seq<Table>, u: Row, rows: seq<Row>)
    requires i < |q.groups| && forall r :: !Matches(q, i, prior, u, r)
    ensures Matching(q, i, prior, u, rows) == []
    decreases |rows|
  {
    if rows != [] {
      NothingMatches(q, i, prior, u, rows[..|rows| - 1]);
    }
  }

  lemma {:induction false} AllMatch(q: Query, i: nat, prior: seq<Table>, u: Row, rows: seq<Row>)
    requires i < |q.groups| && forall r :: Matches(q, i, prior, u, r)
    ensures Matching(q, i, prior, u, rows) == rows
    decreases |rows|
  {
    if rows != [] {
      AllMatch(q, i, prior, u, rows[..|rows| - 1]);
      assert rows == rows[..|rows| - 1] + [rows[|rows| - 1]];
    }
  }

  /** Every way to make the conditions true needs an aggregate. */
  ghost predicate NeedsAggregate(cs: Conditions)
    requires WellFormed(cs)
  {
    forall a: nat, b: nat :: IsRun(cs.links, |cs.links|, a, b) ==> exists k :: a <= k <= b && cs.conds[k].operand.Cell?
  }

  /** Then the grouping variable counts no row for the first key, in MF and EMF queries, and all its
      aggregates stay 0 there. */
  lemma FirstKeyStaysZero(q: Query, i: nat, cs: Conditions, rows: seq<Row>)
    requires i < |q.groups| && 0 < |Uniques(q, rows)| && WellFormed(cs) && InScope(q, i, cs) && NeedsAggregate(cs)
    requires q.groups[i].cond == Meaning(q.keys, cs)
    ensures Matching(q, i, Tables(q, i, rows), Uniques(q, rows)[0], rows) == []
  {
    hide Tables, Uniques, Matches, Compare, Key, IsRun, InScope;
    forall r
      ensures !Matches(q, i, Tables(q, i, rows), Uniques(q, rows)[0], r)
    {
      AggregateCondition(q, i, cs, rows, 0, r);
    }
    NothingMatches(q, i, Tables(q, i, rows), Uniques(q, rows)[0], rows);
  }

  predicate OnlyConstants(cs: Conditions) {
    forall k :: 0 <= k < |cs.conds| ==> cs.conds[k].operand.Number? || cs.conds[k].operand.Quoted?
  }

  /** In an EMF query, conditions that compare with constants test the representative of a group
      and not the scanned row: a group counts either every row of the data or none. */
  lemma ConstantsTestTheGroup(q: Query, i: nat, cs: Conditions, prior: seq<Table>, u: Row, rows: seq<Row>)
    requires i < |q.groups| && q.emf && WellFormed(cs) && OnlyConstants(cs)
    requires q.groups[i].cond == Meaning(q.keys, cs)
    ensures Matching(q, i, prior, u, rows) == if Meaning(q.keys, cs)(u, u, prior) then rows else []
  {
    hide Matching, Compare, Chain;
    forall r
      ensures Matches(q, i, prior, u, r) == Meaning(q.keys, cs)(u, u, prior)
    {
      assert Truths(q.keys, cs.conds, u, r, prior) == Truths(q.keys, cs.conds, u, u, prior);
    }
    if Meaning(q.keys, cs)(u, u, prior) {
      AllMatch(q, i, prior, u, rows);
    } else {
      NothingMatches(q, i, prior, u, rows);
    }
  }

  // Equality of the grouping attributes, as it is written

  function EqualKeys(keys: seq<nat>): (cs: seq<Condition>)
    ensures |cs| == |keys|
    ensures forall j :: 0 <= j < |keys| ==> cs[j] == Condition(keys[j], Eq, Other(keys[j]))
  {
    if keys == [] then [] else [Condition(keys[0], Eq, Other(keys[0]))] + EqualKeys(keys[1..])
  }

  function AllAnd(n: nat): (links: seq<Link>)
    ensures |links| == n && forall j :: 0 <= j < n ==> links[j] == And
  {
    if n == 0 then [] else [And] + AllAnd(n - 1)
  }

  /** `k1=k1 and k2=k2 and ...` */
  function KeyConditions(keys: seq<nat>): Conditions
    requires keys != []
  {
    Conditions(EqualKeys(keys), AllAnd(|keys| - 1))
  }

  lemma AndChain(bs: seq<bool>, links: seq<Link>)
    requires |bs| == |links| + 1 && forall j :: 0 <= j < |links| ==> links[j] == And
    ensures Chain(bs, links) <==> forall k :: 0 <= k < |bs| ==> bs[k]
  {
    hide Chain;
    ChainIsRuns(bs, links);
    if i: nat, j: nat :| IsRun(links, |links|, i, j) && AllTrue(bs, i, j) {
      assert i == 0 && j == |links|;
    }
    if forall k :: 0 <= k < |bs| ==> bs[k] {
      assert IsRun(links, |links|, 0, |links|) && AllTrue(bs, 0, |links|);
    }
  }

  lemma {:induction false} KeysAreValues(keys: seq<nat>, r: Row, j: nat)
    requires j < |keys|
    ensures KeyFrom(keys, r)[j] == ValueAt(r, keys[j])
    decreases |keys|
  {
    if j > 0 {
      KeysAreValues(keys[1..], r, j - 1);
    }
  }

  /** The written condition compares keys. */
  lemma KeyConditionsCompare(q: Query)
    requires q.keys != []
    ensures ComparesKeys(q, Meaning(q.keys, KeyConditions(q.keys)))
  {
    hide Chain, EqualKeys, AllAnd, KeyFrom, Truths;
    var cs := KeyConditions(q.keys);
    forall u: Row, r: Row, prior: seq<Table>
      ensures Meaning(q.keys, cs)(u, r, prior) == (Key(q, r) == Key(q, u))
    {
      var bs := Truths(q.keys, cs.conds, u, r, prior);
      AndChain(bs, cs.links);
      forall j | 0 <= j < |q.keys|
        ensures bs[j] <==> KeyFrom(q.keys, u)[j] == KeyFrom(q.keys, r)[j]
      {
        KeysAreValues(q.keys, u, j);
        KeysAreValues(q.keys, r, j);
      }
    }
  }

  /** A grouping variable of an EMF query that is given by this condition has the table of the MF
      lookup scan without a condition. */
  lemma WrittenEqualityIsLookup(mf: Query, emf: Query, m: nat, n: nat, rows: seq<Row>, i: nat)
    requires i < m <= |mf.groups| && i < n <= |emf.groups| && !mf.emf && emf.emf && mf.keys == emf.keys != []
    requires mf.groups[i].aggs == emf.groups[i].aggs && AlwaysTrue(mf.groups[i].cond)
    requires emf.groups[i].cond == Meaning(emf.keys, KeyConditions(emf.keys))
    ensures Tables(mf, m, rows)[i] == Tables(emf, n, rows)[i]
  {
    hide AlwaysTrue, ComparesKeys, Tables, Meaning, KeyConditions;
    KeyConditionsCompare(emf);
    EqualityIsLookupAt(mf, emf, m, n, rows, i);
  }
}
