/** Meaning of MF and EMF queries: which rows count for a group, and what their aggregates are. */
module GroupTables {

  datatype Value = Num(n: int) | Text(s: string)

  type Row = seq<Value>

  // Aggregates

  datatype Func = Avg | Sum | Count | Min | Max

  datatype Agg = Agg(func: Func, col: nat)

  /** An accumulator; averages keep a sum and a count. */
  datatype Acc = Plain(v: int) | Average(sum: int, count: nat)

  function Zero(f: Func): Acc { if f == Avg then Average(0, 0) else Plain(0) }

  function ColumnOf(r: Row, col: nat): int { if col < |r| && r[col].Num? then r[col].n else 0 }

  /** What a scan does to one accumulator for one row. */
  function Update(f: Func, acc: Acc, v: int): Acc {
    match acc
    case Average(s, c) => if f == Avg then Average(s + v, c + 1) else acc
    case Plain(x) =>
      match f
      case Sum => Plain(x + v)
      case Count => Plain(x + 1)
      case Min => if x > v then Plain(v) else acc
      case Max => if x < v then Plain(v) else acc
      case Avg => acc
  }

  /** The number printed for an accumulator: integer division truncates, no rows give 0. */
  function Shown(acc: Acc): int {
    match acc
    case Plain(x) => x
    case Average(s, c) => if c == 0 then 0 else if s >= 0 then s / c else -((-s) / c)
  }

  // Declarative aggregates of a list of numbers

  function SumOf(vs: seq<int>): int { if vs == [] then 0 else SumOf(vs[..|vs| - 1]) + vs[|vs| - 1] }

  predicate IsMaxWithZero(x: int, vs: seq<int>) {
    (x == 0 || x in vs) && 0 <= x && forall i :: 0 <= i < |vs| ==> vs[i] <= x
  }

  predicate IsMinWithZero(x: int, vs: seq<int>) {
    (x == 0 || x in vs) && x <= 0 && forall i :: 0 <= i < |vs| ==> x <= vs[i]
  }

  /** The accumulator of a list of values is the aggregate of the values. Since accumulators
      start at 0, the maximum and the minimum are those of the values together with 0. */
  predicate IsAggregate(f: Func, acc: Acc, vs: seq<int>) {
    match f
    case Avg => acc == Average(SumOf(vs), |vs|)
    case Sum => acc == Plain(SumOf(vs))
    case Count => acc == Plain(|vs|)
    case Max => acc.Plain? && IsMaxWithZero(acc.v, vs)
    case Min => acc.Plain? && IsMinWithZero(acc.v, vs)
  }

  lemma AggregateStep(f: Func, acc: Acc, vs: seq<int>, v: int)
    requires IsAggregate(f, acc, vs)
    ensures IsAggregate(f, Update(f, acc, v), vs + [v])
  {
    assert (vs + [v])[..|vs|] == vs;
    assert (vs + [v])[|vs|] == v;
    if f == Max || f == Min {
      var x := Update(f, acc, v).v;
      assert x == acc.v || x == v;
      assert acc.v in vs ==> acc.v in vs + [v];
    }
  }

  /** An aggregate is unique, so this says all about an accumulator. */
  lemma AggregateIsUnique(f: Func, a: Acc, b: Acc, vs: seq<int>)
    requires IsAggregate(f, a, vs) && IsAggregate(f, b, vs)
    ensures a == b
  {
  }

  /** The maximum shown is the maximum of the values if and only if no value is missed by
      starting at 0, that is, some value is not negative; likewise for the minimum. */
  lemma TrueMaximum(acc: Acc, vs: seq<int>)
    requires vs != [] && IsAggregate(Max, acc, vs)
    ensures acc.v in vs <==> exists i :: 0 <= i < |vs| && vs[i] >= 0
  {
    if acc.v in vs {
      var i :| 0 <= i < |vs| && vs[i] == acc.v;
    } else if i :| 0 <= i < |vs| && vs[i] >= 0 {
      assert vs[i] == 0;
    }
  }

  lemma TrueMinimum(acc: Acc, vs: seq<int>)
    requires vs != [] && IsAggregate(Min, acc, vs)
    ensures acc.v in vs <==> exists i :: 0 <= i < |vs| && vs[i] <= 0
  {
    if acc.v in vs {
      var i :| 0 <= i < |vs| && vs[i] == acc.v;
    } else if i :| 0 <= i < |vs| && vs[i] <= 0 {
      assert vs[i] == 0;
    }
  }

  function Abs(x: int): nat { if x < 0 then -x else x }

  /** What a query shows for an aggregate of a list of values: the sum divided by the number of values
      and truncated toward zero for an average, 0 for an average of nothing, and else the aggregate. */
  predicate IsShown(f: Func, x: int, vs: seq<int>) {
    if f != Avg then IsAggregate(f, Plain(x), vs)
    else if vs == [] then x == 0
    else
      var sum := SumOf(vs);
      && |vs| * Abs(x) <= Abs(sum) < |vs| * (Abs(x) + 1)
      && (x > 0 ==> sum > 0) && (x < 0 ==> sum < 0)
  }

  lemma ShownIsAggregate(f: Func, acc: Acc, vs: seq<int>)
    requires IsAggregate(f, acc, vs)
    ensures IsShown(f, Shown(acc), vs)
  {
    hide SumOf;
    if f == Avg && vs != [] {
      Truncated(SumOf(vs), |vs|, Shown(acc));
    }
  }

  lemma Truncated(s: int, c: nat, x: int)
    requires c > 0 && x == if s >= 0 then s / c else -((-s) / c)
    ensures c * Abs(x) <= Abs(s) < c * (Abs(x) + 1) && (x > 0 ==> s > 0) && (x < 0 ==> s < 0)
  {
    Quotient(Abs(s), c, Abs(s) / c);
    NotNegative(Abs(s), c);
  }

  lemma NotNegative(s: nat, c: nat)
    requires c > 0
    ensures s / c >= 0 && (s == 0 ==> s / c == 0)
  {
  }

  lemma Quotient(s: nat, c: nat, x: int)
    requires c > 0 && x == s / c
    ensures c * x <= s < c * (x + 1)
  {
  }

  /** There is only one such number. */
  lemma ShownIsUnique(f: Func, x: int, y: int, vs: seq<int>)
    requires IsShown(f, x, vs) && IsShown(f, y, vs)
    ensures x == y
  {
    if f == Avg && vs != [] {
      SmallerQuotient(|vs|, Abs(x), Abs(y));
      SmallerQuotient(|vs|, Abs(y), Abs(x));
    }
  }

  lemma SmallerQuotient(c: nat, a: nat, b: nat)
    requires c * a < c * (b + 1)
    ensures a <= b
  {
    if a >= b + 1 {
      LargerProduct(c, a, b + 1);
    }
  }

  lemma LargerProduct(c: nat, a: nat, b: nat)
    requires a >= b
    ensures c * a >= c * b
  {
  }

  // Queries

  datatype GroupRow = GroupRow(key: seq<Value>, cells: seq<Acc>)

  type Table = seq<GroupRow>

  /** A condition sees the representative of a group, a row of data, and the tables of the
      grouping variables before its own. In an MF query both rows are the row of data. */
  type Cond = (Row, Row, seq<Table>) -> bool

  datatype Group = Group(cond: Cond, aggs: seq<Agg>)

  datatype Query = Query(keys: seq<nat>, groups: seq<Group>, emf: bool)

  function KeyFrom(keys: seq<nat>, r: Row): (k: seq<Value>)
    ensures |k| == |keys|
  {
    if keys == [] then []
    else [if keys[0] < |r| then r[keys[0]] else Num(0)] + KeyFrom(keys[1..], r)
  }

  /** The key of a row is made of its columns, in the order of the grouping attributes. */
  lemma {:induction false} KeyIsColumns(keys: seq<nat>, r: Row, i: nat)
    requires i < |keys|
    ensures KeyFrom(keys, r)[i] == if keys[i] < |r| then r[keys[i]] else Num(0)
    decreases i
  {
    if i > 0 {
      KeyIsColumns(keys[1..], r, i - 1);
    }
  }

  function Key(q: Query, r: Row): seq<Value> { KeyFrom(q.keys, r) }

  /** Row `r` counts for the group of representative `u` in grouping variable `i`. */
  predicate Matches(q: Query, i: nat, prior: seq<Table>, u: Row, r: Row)
    requires i < |q.groups|
  {
    if q.emf then q.groups[i].cond(u, r, prior)
    else Key(q, r) == Key(q, u) && q.groups[i].cond(r, r, prior)
  }

  function Matching(q: Query, i: nat, prior: seq<Table>, u: Row, rows: seq<Row>): seq<Row>
    requires i < |q.groups|
  {
    if rows == [] then []
    else
      Matching(q, i, prior, u, rows[..|rows| - 1])
      + (if Matches(q, i, prior, u, rows[|rows| - 1]) then [rows[|rows| - 1]] else [])
  }

  function Column(rows: seq<Row>, col: nat): (vs: seq<int>)
    ensures |vs| == |rows|
    ensures forall k :: 0 <= k < |rows| ==>
      vs[k] == if col < |rows[k]| && rows[k][col].Num? then rows[k][col].n else 0
  {
    if rows == [] then [] else Column(rows[..|rows| - 1], col) + [ColumnOf(rows[|rows| - 1], col)]
  }

  /** Exactly the matching rows, each as often as it occurs. */
  lemma {:induction false} MatchingExact(q: Query, i: nat, prior: seq<Table>, u: Row, rows: seq<Row>, r: Row)
    requires i < |q.groups|
    ensures multiset(Matching(q, i, prior, u, rows))[r] == if Matches(q, i, prior, u, r) then multiset(rows)[r] else 0
    decreases |rows|
  {
    if rows != [] {
      var n := |rows| - 1;
      MatchingExact(q, i, prior, u, rows[..n], r);
      assert rows == rows[..n] + [rows[n]];
    }
  }

  // First row of each key

  predicate IsFirst(q: Query, rows: seq<Row>, i: nat)
    requires i < |rows|
  {
    forall j :: 0 <= j < i ==> Key(q, rows[j]) != Key(q, rows[i])
  }

  predicate HasKey(q: Query, us: seq<Row>, k: seq<Value>) {
    exists p :: 0 <= p < |us| && Key(q, us[p]) == k
  }

  function Uniques(q: Query, rows: seq<Row>): seq<Row> {
    if rows == [] then []
    else
      var us := Uniques(q, rows[..|rows| - 1]);
      var r := rows[|rows| - 1];
      if HasKey(q, us, Key(q, r)) then us else us + [r]
  }

  /** Positions of the kept rows. */
  function UniquePositions(q: Query, rows: seq<Row>): seq<nat> {
    if rows == [] then []
    else
      var n := |rows| - 1;
      UniquePositions(q, rows[..n]) + (if IsFirst(q, rows, n) then [n] else [])
  }

  predicate DistinctKeys(q: Query, us: seq<Row>) {
    forall a, b :: 0 <= a < b < |us| ==> Key(q, us[a]) != Key(q, us[b])
  }

  lemma {:induction false} UniquesFacts(q: Query, rows: seq<Row>)
    ensures DistinctKeys(q, Uniques(q, rows))
    ensures forall i :: 0 <= i < |rows| ==> HasKey(q, Uniques(q, rows), Key(q, rows[i]))
    ensures forall p :: 0 <= p < |Uniques(q, rows)| ==> Uniques(q, rows)[p] in rows
    decreases |rows|
  {
    if rows != [] {
      var n := |rows| - 1;
      UniquesFacts(q, rows[..n]);
      var us, us1 := Uniques(q, rows[..n]), Uniques(q, rows);
      forall i | 0 <= i < |rows|
        ensures HasKey(q, us1, Key(q, rows[i]))
      {
        if i < n {
          assert rows[..n][i] == rows[i];
          var p :| 0 <= p < |us| && Key(q, us[p]) == Key(q, rows[i]);
          assert us1[p] == us[p];
        } else if !HasKey(q, us, Key(q, rows[n])) {
          assert us1[|us|] == rows[n];
        }
      }
    }
  }

  lemma FirstIffNew(q: Query, rows: seq<Row>, ps: seq<nat>, us: seq<Row>)
    requires rows != []
    requires |ps| == |us| && forall k :: 0 <= k < |ps| ==> ps[k] < |rows| - 1 && us[k] == rows[ps[k]]
    requires forall i :: 0 <= i < |rows| - 1 ==> HasKey(q, us, Key(q, rows[i]))
    ensures IsFirst(q, rows, |rows| - 1) <==> !HasKey(q, us, Key(q, rows[|rows| - 1]))
  {
    var n := |rows| - 1;
    if HasKey(q, us, Key(q, rows[n])) {
      var p :| 0 <= p < |us| && Key(q, us[p]) == Key(q, rows[n]);
      assert rows[ps[p]] == us[p];
    }
  }

  /** The kept rows are exactly the first row of each key, in order. */
  lemma {:induction false} UniquesAreFirsts(q: Query, rows: seq<Row>)
    ensures
      var ps, us := UniquePositions(q, rows), Uniques(q, rows);
      && |ps| == |us|
      && (forall k :: 0 <= k < |ps| ==> ps[k] < |rows| && us[k] == rows[ps[k]])
      && (forall k, l :: 0 <= k < l < |ps| ==> ps[k] < ps[l])
      && (forall i :: 0 <= i < |rows| ==> (i in ps <==> IsFirst(q, rows, i)))
    decreases |rows|
  {
    hide HasKey, Key;
    if rows != [] {
      var n := |rows| - 1;
      var init := rows[..n];
      UniquesAreFirsts(q, init);
      UniquesFacts(q, init);
      var ps, us := UniquePositions(q, init), Uniques(q, init);
      assert forall j :: 0 <= j < n ==> init[j] == rows[j];
      FirstIffNew(q, rows, ps, us);
      forall i | 0 <= i < n
        ensures IsFirst(q, init, i) <==> IsFirst(q, rows, i)
      {
      }
    }
  }

  // The tables a query asks for

  /** Accumulating the matching rows. */
  function Accumulate(f: Func, vs: seq<int>): (acc: Acc)
    ensures IsAggregate(f, acc, vs)
  {
    if vs == [] then Zero(f)
    else
      AggregateStep(f, Accumulate(f, vs[..|vs| - 1]), vs[..|vs| - 1], vs[|vs| - 1]);
      assert vs == vs[..|vs| - 1] + [vs[|vs| - 1]];
      Update(f, Accumulate(f, vs[..|vs| - 1]), vs[|vs| - 1])
  }

  function CellsOf(aggs: seq<Agg>, rows: seq<Row>): (cells: seq<Acc>)
    ensures |cells| == |aggs|
    ensures forall a :: 0 <= a < |aggs| ==> cells[a] == Accumulate(aggs[a].func, Column(rows, aggs[a].col))
  {
    if aggs == [] then []
    else [Accumulate(aggs[0].func, Column(rows, aggs[0].col))] + CellsOf(aggs[1..], rows)
  }

  function GroupRowOf(q: Query, i: nat, prior: seq<Table>, u: Row, rows: seq<Row>): GroupRow
    requires i < |q.groups|
  {
    GroupRow(Key(q, u), CellsOf(q.groups[i].aggs, Matching(q, i, prior, u, rows)))
  }

  /** The table of grouping variable `i`: one row for each representative. */
  function TableOf(q: Query, i: nat, prior: seq<Table>, us: seq<Row>, rows: seq<Row>): (t: Table)
    requires i < |q.groups|
    ensures |t| == |us|
    ensures forall p :: 0 <= p < |us| ==> t[p] == GroupRowOf(q, i, prior, us[p], rows)
  {
    if us == [] then [] else TableOf(q, i, prior, us[..|us| - 1], rows) + [GroupRowOf(q, i, prior, us[|us| - 1], rows)]
  }

  /** The first `n` tables, each with the final tables before it as `prior`. */
  function Tables(q: Query, n: nat, rows: seq<Row>): (ts: seq<Table>)
    requires n <= |q.groups|
    ensures |ts| == n
  {
    if n == 0 then []
    else
      var prior := Tables(q, n - 1, rows);
      prior + [TableOf(q, n - 1, prior, Uniques(q, rows), rows)]
  }

  /** Each cell is the aggregate over exactly the rows that match its group, given the final
      tables of the earlier grouping variables. */
  lemma {:induction false} CellMeaning(q: Query, n: nat, rows: seq<Row>, i: nat, p: nat, a: nat)
    requires i < n <= |q.groups| && p < |Uniques(q, rows)| && a < |q.groups[i].aggs|
    ensures
      var ts := Tables(q, n, rows);
      var u := Uniques(q, rows)[p];
      && ts[..i] == Tables(q, i, rows)
      && |ts[i]| == |Uniques(q, rows)| && ts[i][p].key == Key(q, u) && |ts[i][p].cells| == |q.groups[i].aggs|
      && var agg := q.groups[i].aggs[a];
         IsAggregate(agg.func, ts[i][p].cells[a], Column(Matching(q, i, ts[..i], u, rows), agg.col))
    decreases n
  {
    hide Uniques, Matching, Column, Accumulate;
    if i < n - 1 {
      CellMeaning(q, n - 1, rows, i, p, a);
      assert Tables(q, n, rows)[..i] == Tables(q, n - 1, rows)[..i];
    } else {
      assert Tables(q, n, rows)[..i] == Tables(q, i, rows);
    }
  }

  ghost predicate AlwaysTrue(c: Cond) { forall r: Row, prior: seq<Table> :: c(r, r, prior) }

  ghost predicate ComparesKeys(q: Query, c: Cond) {
    forall u: Row, r: Row, prior: seq<Table> :: c(u, r, prior) == (Key(q, r) == Key(q, u))
  }

  lemma {:induction false} TableAt(q: Query, n: nat, rows: seq<Row>, i: nat)
    requires i < n <= |q.groups|
    ensures Tables(q, n, rows)[i] == TableOf(q, i, Tables(q, i, rows), Uniques(q, rows), rows)
    decreases n
  {
    hide TableOf, Uniques;
    if i < n - 1 {
      TableAt(q, n - 1, rows, i);
    }
  }

  /** A grouping variable whose condition in an EMF query is equality of all grouping attributes has
      the table that it has in an MF query without a condition, whatever the other grouping
      variables are. */
  lemma EqualityIsLookupAt(mf: Query, emf: Query, m: nat, n: nat, rows: seq<Row>, i: nat)
    requires i < m <= |mf.groups| && i < n <= |emf.groups| && !mf.emf && emf.emf && mf.keys == emf.keys
    requires mf.groups[i].aggs == emf.groups[i].aggs
    requires AlwaysTrue(mf.groups[i].cond) && ComparesKeys(emf, emf.groups[i].cond)
    ensures Tables(mf, m, rows)[i] == Tables(emf, n, rows)[i]
  {
    hide Uniques, AlwaysTrue, ComparesKeys, TableOf, Tables;
    TableAt(mf, m, rows, i);
    TableAt(emf, n, rows, i);
    SameUniques(mf, emf, rows);
    SameTable(mf, emf, i, Tables(mf, i, rows), Tables(emf, i, rows), Uniques(mf, rows), rows);
  }

  /** If that holds of all grouping variables, all tables are the same. */
  lemma {:induction false} EqualityIsLookup(mf: Query, emf: Query, n: nat, rows: seq<Row>)
    requires n <= |mf.groups| == |emf.groups| && !mf.emf && emf.emf && mf.keys == emf.keys
    requires forall i :: 0 <= i < n ==> mf.groups[i].aggs == emf.groups[i].aggs
    requires forall i :: 0 <= i < n ==> AlwaysTrue(mf.groups[i].cond)
    requires forall i :: 0 <= i < n ==> ComparesKeys(emf, emf.groups[i].cond)
    ensures Tables(mf, n, rows) == Tables(emf, n, rows)
  {
    hide AlwaysTrue, ComparesKeys, Tables;
    forall i | 0 <= i < n
      ensures Tables(mf, n, rows)[i] == Tables(emf, n, rows)[i]
    {
      EqualityIsLookupAt(mf, emf, n, n, rows, i);
    }
  }

  lemma SameTable(mf: Query, emf: Query, i: nat, prior: seq<Table>, prior1: seq<Table>, us: seq<Row>, rows: seq<Row>)
    requires i < |mf.groups| && i < |emf.groups| && !mf.emf && emf.emf && mf.keys == emf.keys
    requires mf.groups[i].aggs == emf.groups[i].aggs
    requires AlwaysTrue(mf.groups[i].cond) && ComparesKeys(emf, emf.groups[i].cond)
    ensures TableOf(mf, i, prior, us, rows) == TableOf(emf, i, prior1, us, rows)
  {
    hide TableOf, Matching, CellsOf;
    forall p | 0 <= p < |us|
      ensures GroupRowOf(mf, i, prior, us[p], rows) == GroupRowOf(emf, i, prior1, us[p], rows)
    {
      SameMatching(mf, emf, i, prior, prior1, us[p], rows);
    }
  }

  lemma {:induction false} SameUniques(a: Query, b: Query, rows: seq<Row>)
    requires a.keys == b.keys
    ensures Uniques(a, rows) == Uniques(b, rows)
    decreases |rows|
  {
    if rows != [] {
      SameUniques(a, b, rows[..|rows| - 1]);
    }
  }

  lemma {:induction false} SameMatching(a: Query, b: Query, i: nat, prior: seq<Table>, prior1: seq<Table>, u: Row,
    rows: seq<Row>)
    requires i < |a.groups| && i < |b.groups|
    requires forall r :: Matches(a, i, prior, u, r) == Matches(b, i, prior1, u, r)
    ensures Matching(a, i, prior, u, rows) == Matching(b, i, prior1, u, rows)
    decreases |rows|
  {
    if rows != [] {
      SameMatching(a, b, i, prior, prior1, u, rows[..|rows| - 1]);
    }
  }
}
