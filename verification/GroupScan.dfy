/** The program emitted for a query: it finds the first row of each key, scans the data once for
    each grouping variable, and filters the answer by the HAVING condition. */
module GroupScan {

  import opened GroupTables

  /** One row of the answer: the key and the selected numbers. */
  datatype Answer = Answer(key: seq<Value>, values: seq<int>)

  datatype Selected = Selected(group: nat, agg: nat)

  type Having = (seq<Table>, nat) -> bool

  ghost predicate Selectable(q: Query, select: seq<Selected>) {
    forall s :: s in select ==> s.group < |q.groups| && s.agg < |q.groups[s.group].aggs|
  }

  /** All tables list the same keys in the same order, with one cell for each aggregate. */
  ghost predicate Aligned(q: Query, us: seq<Row>, ts: seq<Table>) {
    && |ts| == |q.groups|
    && forall i :: 0 <= i < |ts| ==> AlignedTable(q, i, us, ts[i])
  }

  ghost predicate AlignedTable(q: Query, i: nat, us: seq<Row>, t: Table)
    requires i < |q.groups|
  {
    && |t| == |us|
    && forall p :: 0 <= p < |t| ==> t[p].key == Key(q, us[p]) && |t[p].cells| == |q.groups[i].aggs|
  }

  function ValuesAt(q: Query, select: seq<Selected>, ts: seq<Table>, p: nat): (vs: seq<int>)
    ensures |vs| == |select|
    ensures forall k :: 0 <= k < |select| ==>
      var s := select[k];
      vs[k] == if s.group < |ts| && p < |ts[s.group]| && s.agg < |ts[s.group][p].cells|
               then Shown(ts[s.group][p].cells[s.agg]) else 0
  {
    if select == [] then []
    else
      var s := select[0];
      [if s.group < |ts| && p < |ts[s.group]| && s.agg < |ts[s.group][p].cells|
       then Shown(ts[s.group][p].cells[s.agg]) else 0] + ValuesAt(q, select[1..], ts, p)
  }

  /** Positions among the first `n` keys that satisfy the HAVING condition. */
  function Kept(having: Having, ts: seq<Table>, n: nat): (ps: seq<nat>)
    ensures forall p: nat :: p in ps <==> p < n && having(ts, p)
    ensures forall k :: 0 <= k < |ps| ==> ps[k] < n && having(ts, ps[k])
    ensures forall k, l :: 0 <= k < l < |ps| ==> ps[k] < ps[l]
  {
    if n == 0 then [] else Kept(having, ts, n - 1) + (if having(ts, n - 1) then [n - 1] else [])
  }

  function AnswersAt(q: Query, select: seq<Selected>, us: seq<Row>, ts: seq<Table>, ps: seq<nat>): (rows: seq<Answer>)
    requires forall k :: 0 <= k < |ps| ==> ps[k] < |us|
    ensures |rows| == |ps|
    ensures forall k :: 0 <= k < |ps| ==> rows[k] == Answer(Key(q, us[ps[k]]), ValuesAt(q, select, ts, ps[k]))
  {
    if ps == [] then []
    else
      var n := |ps| - 1;
      AnswersAt(q, select, us, ts, ps[..n]) + [Answer(Key(q, us[ps[n]]), ValuesAt(q, select, ts, ps[n]))]
  }

  /** The answer a query asks for. */
  function Answers(q: Query, select: seq<Selected>, having: Having, rows: seq<Row>): seq<Answer> {
    var ts := Tables(q, |q.groups|, rows);
    var us := Uniques(q, rows);
    AnswersAt(q, select, us, ts, Kept(having, ts, |us|))
  }

  /** What the answer should be: a row for each key that satisfies the HAVING condition, in the order
      in which the keys first occur, with what is to be shown for each selected aggregate over the rows
      that match the key. */
  ghost predicate Answered(q: Query, select: seq<Selected>, having: Having, rows: seq<Row>, answer: seq<Answer>) {
    var ts, us := Tables(q, |q.groups|, rows), Uniques(q, rows);
    var ps := Kept(having, ts, |us|);
    && |answer| == |ps|
    && forall k :: 0 <= k < |ps| ==>
         && answer[k].key == Key(q, us[ps[k]]) && |answer[k].values| == |select|
         && forall j :: 0 <= j < |select| ==> SelectedIs(q, select[j], ts, us[ps[k]], rows, answer[k].values[j])
  }

  ghost predicate SelectedIs(q: Query, s: Selected, ts: seq<Table>, u: Row, rows: seq<Row>, x: int) {
    && s.group < |q.groups| && s.group <= |ts| && s.agg < |q.groups[s.group].aggs|
    && var agg := q.groups[s.group].aggs[s.agg];
       IsShown(agg.func, x, Column(Matching(q, s.group, ts[..s.group], u, rows), agg.col))
  }

  lemma AnswersAreAnswered(q: Query, select: seq<Selected>, having: Having, rows: seq<Row>)
    requires Selectable(q, select)
    ensures Answered(q, select, having, rows, Answers(q, select, having, rows))
  {
    hide Tables, Uniques, Kept, IsShown, Matching, Column, ValuesAt, AnswersAt;
    var n := |q.groups|;
    var ts, us := Tables(q, n, rows), Uniques(q, rows);
    forall p, j | 0 <= p < |us| && 0 <= j < |select|
      ensures SelectedIs(q, select[j], ts, us[p], rows, ValuesAt(q, select, ts, p)[j])
    {
      var s := select[j];
      assert s in select;
      CellMeaning(q, n, rows, s.group, p, s.agg);
      var agg := q.groups[s.group].aggs[s.agg];
      ShownIsAggregate(agg.func, ts[s.group][p].cells[s.agg],
                       Column(Matching(q, s.group, ts[..s.group], us[p], rows), agg.col));
    }
  }

  // One row added to a table

  function Bump(aggs: seq<Agg>, cells: seq<Acc>, r: Row): (out: seq<Acc>)
    requires |cells| == |aggs|
    ensures |out| == |aggs|
    ensures forall a :: 0 <= a < |aggs| ==> out[a] == Update(aggs[a].func, cells[a], ColumnOf(r, aggs[a].col))
  {
    if aggs == [] then []
    else
      var n := |aggs| - 1;
      Bump(aggs[..n], cells[..n], r) + [Update(aggs[n].func, cells[n], ColumnOf(r, aggs[n].col))]
  }

  lemma BumpCells(aggs: seq<Agg>, rows: seq<Row>, r: Row)
    ensures CellsOf(aggs, rows + [r]) == Bump(aggs, CellsOf(aggs, rows), r)
  {
    hide CellsOf, Bump;
    assert (rows + [r])[..|rows|] == rows;
    forall a | 0 <= a < |aggs|
      ensures CellsOf(aggs, rows + [r])[a] == Bump(aggs, CellsOf(aggs, rows), r)[a]
    {
      var vs := Column(rows, aggs[a].col);
      assert Column(rows + [r], aggs[a].col) == vs + [ColumnOf(r, aggs[a].col)];
      assert (vs + [ColumnOf(r, aggs[a].col)])[..|vs|] == vs;
    }
  }

  /** What one more row of data does to the row of one group. */
  lemma OneMoreRow(q: Query, i: nat, prior: seq<Table>, u: Row, rows: seq<Row>, n: nat)
    requires i < |q.groups| && n < |rows|
    ensures
      var g := GroupRowOf(q, i, prior, u, rows[..n]);
      GroupRowOf(q, i, prior, u, rows[..n + 1])
      == if Matches(q, i, prior, u, rows[n]) then GroupRow(g.key, Bump(q.groups[i].aggs, g.cells, rows[n])) else g
  {
    hide CellsOf, Bump, Matches;
    assert rows[..n + 1][..n] == rows[..n] && rows[..n + 1][n] == rows[n];
    var ms := Matching(q, i, prior, u, rows[..n]);
    assert Matching(q, i, prior, u, rows[..n + 1]) == ms + (if Matches(q, i, prior, u, rows[n]) then [rows[n]] else []);
    assert ms + [] == ms;
    BumpCells(q.groups[i].aggs, Matching(q, i, prior, u, rows[..n]), rows[n]);
  }

  lemma {:induction false} ZeroCells(aggs: seq<Agg>, a: nat)
    requires a < |aggs|
    ensures CellsOf(aggs, [])[a] == Zero(aggs[a].func)
  {
    assert Column([], aggs[a].col) == [];
  }

  class Program {
    var uniques: seq<Row>
    var tables: seq<Table>
    var answer: seq<Answer>

    constructor ()
      ensures uniques == [] && tables == [] && answer == []
    {
      uniques, tables, answer := [], [], [];
    }

    /** Position of a key in a table, -1 if it is not there. */
    static method Find(t: Table, key: seq<Value>) returns (pos: int)
      ensures -1 <= pos < |t|
      ensures pos == -1 <==> forall p :: 0 <= p < |t| ==> t[p].key != key
      ensures pos >= 0 ==> t[pos].key == key && forall p :: 0 <= p < pos ==> t[p].key != key
    {
      for index := 0 to |t|
        invariant forall p :: 0 <= p < index ==> t[p].key != key
      {
        if t[index].key == key {
          return index;
        }
      }
      return -1;
    }

    static method IsUnique(q: Query, us: seq<Row>, entry: Row) returns (unique: bool)
      ensures unique <==> !HasKey(q, us, Key(q, entry))
    {
      for k := 0 to |us|
        invariant forall p :: 0 <= p < k ==> Key(q, us[p]) != Key(q, entry)
      {
        if Key(q, entry) == Key(q, us[k]) {
          return false;
        }
      }
      return true;
    }

    static method GetUniques(q: Query, data: seq<Row>) returns (out: seq<Row>)
      ensures out == Uniques(q, data)
    {
      out := [];
      for n := 0 to |data|
        invariant out == Uniques(q, data[..n])
      {
        assert data[..n + 1][..n] == data[..n];
        var unique := IsUnique(q, out, data[n]);
        if unique {
          out := out + [data[n]];
        }
      }
      assert data[..|data|] == data;
    }

    /** An entry as calloc leaves it. */
    static method NewEntry(aggs: seq<Agg>) returns (cells: seq<Acc>)
      ensures cells == CellsOf(aggs, [])
    {
      hide CellsOf, Accumulate, Column;
      cells := [];
      for a := 0 to |aggs|
        invariant |cells| == a
        invariant forall b :: 0 <= b < a ==> cells[b] == CellsOf(aggs, [])[b]
      {
        ZeroCells(aggs, a);
        cells := cells + [Zero(aggs[a].func)];
      }
    }

    static method NewTable(q: Query, i: nat, us: seq<Row>) returns (t: Table)
      requires i < |q.groups|
      ensures forall prior :: t == TableOf(q, i, prior, us, [])
    {
      hide Key, CellsOf, TableOf;
      t := [];
      for p := 0 to |us|
        invariant |t| == p
        invariant forall b :: 0 <= b < p ==> t[b] == GroupRow(Key(q, us[b]), CellsOf(q.groups[i].aggs, []))
      {
        var cells := NewEntry(q.groups[i].aggs);
        t := t + [GroupRow(Key(q, us[p]), cells)];
      }
      forall prior
        ensures t == TableOf(q, i, prior, us, [])
      {
        assert forall p :: 0 <= p < |us| ==> Matching(q, i, prior, us[p], []) == [];
      }
    }

    /** The preliminary scan: every table and the answer list the keys in the same order. */
    method Prelim(q: Query, data: seq<Row>)
      modifies this
      ensures uniques == Uniques(q, data)
      ensures |tables| == |q.groups|
      ensures forall i, prior :: 0 <= i < |q.groups| ==> tables[i] == TableOf(q, i, prior, uniques, [])
      ensures |answer| == |uniques|
      ensures forall p :: 0 <= p < |answer| ==> answer[p] == Answer(Key(q, uniques[p]), [])
    {
      hide TableOf, Uniques, Key;
      uniques := GetUniques(q, data);
      tables, answer := [], [];
      for p := 0 to |uniques|
        invariant uniques == Uniques(q, data) && tables == []
        invariant |answer| == p
        invariant forall b :: 0 <= b < p ==> answer[b] == Answer(Key(q, uniques[b]), [])
      {
        answer := answer + [Answer(Key(q, uniques[p]), [])];
      }
      ghost var was := answer;
      for i := 0 to |q.groups|
        invariant uniques == Uniques(q, data) && answer == was
        invariant |tables| == i
        invariant forall j, prior :: 0 <= j < i ==> tables[j] == TableOf(q, j, prior, uniques, [])
      {
        var t := NewTable(q, i, uniques);
        tables := tables + [t];
      }
    }

    /** Adds a row to the accumulators at one position of one table. */
    method Add(q: Query, i: nat, pos: nat, r: Row)
      requires i < |q.groups| && i < |tables| && pos < |tables[i]| && |tables[i][pos].cells| == |q.groups[i].aggs|
      modifies this`tables
      ensures
        var g := old(tables)[i][pos];
        tables == old(tables)[i := old(tables)[i][pos := GroupRow(g.key, Bump(q.groups[i].aggs, g.cells, r))]]
    {
      hide Bump;
      var aggs := q.groups[i].aggs;
      ghost var g := tables[i][pos];
      ghost var was := tables;
      for a := 0 to |aggs|
        invariant |tables| == |was| && |tables[i]| == |was[i]|
        invariant |tables[i][pos].cells| == |aggs| && tables[i][pos].key == g.key
        invariant forall j :: 0 <= j < |was| && j != i ==> tables[j] == was[j]
        invariant forall p :: 0 <= p < |was[i]| && p != pos ==> tables[i][p] == was[i][p]
        invariant forall b :: 0 <= b < a ==>
          tables[i][pos].cells[b] == Update(aggs[b].func, g.cells[b], ColumnOf(r, aggs[b].col))
        invariant forall b :: a <= b < |aggs| ==> tables[i][pos].cells[b] == g.cells[b]
      {
        var cells := tables[i][pos].cells;
        var row := GroupRow(tables[i][pos].key, cells[a := Update(aggs[a].func, cells[a], ColumnOf(r, aggs[a].col))]);
        tables := tables[i := tables[i][pos := row]];
      }
      assert tables[i][pos].cells == Bump(aggs, g.cells, r);
      assert tables[i] == was[i][pos := tables[i][pos]];
    }

    /** One lookup scan of an MF query. It completes table `i` and touches no other. */
    method LookupScan(q: Query, i: nat, data: seq<Row>)
      requires !q.emf && i < |q.groups| == |tables|
      requires uniques == Uniques(q, data)
      requires tables[i] == TableOf(q, i, tables[..i], uniques, [])
      modifies this`tables
      ensures tables == old(tables)[i := TableOf(q, i, old(tables)[..i], uniques, data)]
    {
      hide Uniques, Key, CellsOf, TableOf, Matching, Bump;
      UniquesFacts(q, data);
      ghost var was, prior := tables, tables[..i];
      assert data[..0] == [];
      for n := 0 to |data|
        invariant |tables| == |was| && tables == was[i := TableOf(q, i, prior, uniques, data[..n])]
      {
        assert tables[..i] == prior;
        var r := data[n];
        ghost var t := tables[i];
        assert t == TableOf(q, i, prior, uniques, data[..n]);
        ghost var t1 := TableOf(q, i, prior, uniques, data[..n + 1]);
        if q.groups[i].cond(r, r, tables[..i]) {
          var pos := Find(tables[i], Key(q, r));
          ghost var p :| 0 <= p < |uniques| && Key(q, uniques[p]) == Key(q, r);
          assert t[p].key == Key(q, r);
          Add(q, i, pos, r);
          LookupStep(q, i, prior, uniques, data, n, pos, t);
          assert tables[i] == t1;
        } else {
          LookupMiss(q, i, prior, uniques, data, n);
          assert tables[i] == t1;
        }
      }
      assert data[..|data|] == data;
    }

    /** The nested loop of an EMF query for one grouping variable. */
    method NestedScan(q: Query, i: nat, data: seq<Row>)
      requires q.emf && i < |q.groups| == |tables|
      requires uniques == Uniques(q, data)
      requires tables[i] == TableOf(q, i, tables[..i], uniques, [])
      modifies this`tables
      ensures tables == old(tables)[i := TableOf(q, i, old(tables)[..i], uniques, data)]
    {
      hide Uniques, Key, CellsOf, TableOf, Matching, Bump, GroupRowOf;
      ghost var was, prior := tables, tables[..i];
      for pos := 0 to |uniques|
        invariant |tables| == |was| && tables == was[i := tables[i]] && |tables[i]| == |uniques|
        invariant forall k :: 0 <= k < |uniques| ==>
          tables[i][k] == GroupRowOf(q, i, prior, uniques[k], if k < pos then data else [])
      {
        assert data[..0] == [];
        for n := 0 to |data|
          invariant |tables| == |was| && tables == was[i := tables[i]] && |tables[i]| == |uniques|
          invariant forall k :: 0 <= k < |uniques| && k != pos ==>
            tables[i][k] == GroupRowOf(q, i, prior, uniques[k], if k < pos then data else [])
          invariant tables[i][pos] == GroupRowOf(q, i, prior, uniques[pos], data[..n])
        {
          assert tables[..i] == prior;
          NestedStep(q, i, prior, uniques[pos], data, n);
          if q.groups[i].cond(uniques[pos], data[n], tables[..i]) {
            Add(q, i, pos, data[n]);
          }
        }
        assert data[..|data|] == data;
      }
      assert tables[i] == TableOf(q, i, prior, uniques, data);
    }

    /** All scans: each reads only final tables of earlier grouping variables. */
    method Scans(q: Query, data: seq<Row>)
      requires uniques == Uniques(q, data) && |tables| == |q.groups|
      requires forall i, prior :: 0 <= i < |q.groups| ==> tables[i] == TableOf(q, i, prior, uniques, [])
      modifies this`tables
      ensures tables == Tables(q, |q.groups|, data)
    {
      hide Uniques, TableOf;
      ghost var was := tables;
      assert tables[..0] == [];
      for i := 0 to |q.groups|
        invariant |tables| == |was| && tables[..i] == Tables(q, i, data)
        invariant forall j :: i <= j < |tables| ==> tables[j] == was[j]
      {
        assert tables[i] == was[i];
        if q.emf {
          NestedScan(q, i, data);
        } else {
          LookupScan(q, i, data);
        }
        assert tables[..i + 1] == tables[..i] + [tables[i]];
      }
      assert tables[..|tables|] == tables;
    }

    /** Fills in the selected numbers and erases the rows that fail the HAVING condition, stepping
        back after each erasure. The lookup still finds the original position of each key. */
    method Fill(q: Query, select: seq<Selected>, having: Having)
      requires |q.groups| > 0 && Aligned(q, uniques, tables) && DistinctKeys(q, uniques) && Selectable(q, select)
      requires |answer| == |uniques|
      requires forall p :: 0 <= p < |answer| ==> answer[p] == Answer(Key(q, uniques[p]), [])
      modifies this`answer
      ensures answer == AnswersAt(q, select, uniques, tables, Kept(having, tables, |uniques|))
    {
      hide Filling, Aligned, DistinctKeys, Selectable, AnswersAt, Kept;
      ghost var seen := 0;
      var at := 0;
      assert Filling(q, select, having, uniques, tables, answer, at, seen) by {
        FillStarts(q, select, having, uniques, tables, answer);
      }
      while at < |answer|
        invariant at <= |answer| && seen <= |uniques| && |answer| - at == |uniques| - seen
        invariant Filling(q, select, having, uniques, tables, answer, at, seen)
        decreases |answer| - at
      {
        FirstTable(q, uniques, tables, seen);
        var pos := Find(tables[0], answer[at].key);
        FillStep(q, select, having, uniques, tables, answer, at, seen, pos);
        if !having(tables, pos) || pos == -1 {
          answer := answer[..at] + answer[at + 1..];
        } else {
          var values := Values(q, select, pos);
          answer := answer[at := Answer(answer[at].key, values)];
          at := at + 1;
        }
        seen := seen + 1;
      }
      FillEnds(q, select, having, uniques, tables, answer);
    }

    method Values(q: Query, select: seq<Selected>, pos: nat) returns (values: seq<int>)
      requires Aligned(q, uniques, tables) && Selectable(q, select) && pos < |uniques|
      ensures values == ValuesAt(q, select, tables, pos)
    {
      hide ValuesAt, Key;
      values := [];
      for k := 0 to |select|
        invariant |values| == k
        invariant forall l :: 0 <= l < k ==> values[l] == ValuesAt(q, select, tables, pos)[l]
      {
        var s := select[k];
        assert s in select;
        assert AlignedTable(q, s.group, uniques, tables[s.group]);
        values := values + [Shown(tables[s.group][pos].cells[s.agg])];
      }
    }

    /** The whole emitted program. Grouping variable 0 always exists. */
    method Run(q: Query, select: seq<Selected>, having: Having, data: seq<Row>)
      requires |q.groups| > 0 && Selectable(q, select)
      modifies this
      ensures tables == Tables(q, |q.groups|, data)
      ensures answer == Answers(q, select, having, data)
    {
      hide Uniques, TableOf, Tables, Kept, AnswersAt;
      Prelim(q, data);
      Scans(q, data);
      UniquesFacts(q, data);
      TablesAligned(q, |q.groups|, data);
      Fill(q, select, having);
    }
  }

  lemma LookupStep(q: Query, i: nat, prior: seq<Table>, us: seq<Row>, rows: seq<Row>, n: nat, pos: nat, t: Table)
    requires i < |q.groups| && !q.emf && n < |rows| && DistinctKeys(q, us) && pos < |us|
    requires Key(q, us[pos]) == Key(q, rows[n]) && q.groups[i].cond(rows[n], rows[n], prior)
    requires t == TableOf(q, i, prior, us, rows[..n])
    ensures |t[pos].cells| == |q.groups[i].aggs|
    ensures TableOf(q, i, prior, us, rows[..n + 1])
         == t[pos := GroupRow(t[pos].key, Bump(q.groups[i].aggs, t[pos].cells, rows[n]))]
  {
    hide Key, CellsOf, TableOf, Matching, Bump;
    forall p | 0 <= p < |us|
      ensures GroupRowOf(q, i, prior, us[p], rows[..n + 1])
           == if p == pos then GroupRow(t[pos].key, Bump(q.groups[i].aggs, t[pos].cells, rows[n])) else t[p]
    {
      OneMoreRow(q, i, prior, us[p], rows, n);
      assert p != pos ==> Key(q, us[p]) != Key(q, us[pos]);
    }
  }

  lemma LookupMiss(q: Query, i: nat, prior: seq<Table>, us: seq<Row>, rows: seq<Row>, n: nat)
    requires i < |q.groups| && !q.emf && n < |rows| && !q.groups[i].cond(rows[n], rows[n], prior)
    ensures TableOf(q, i, prior, us, rows[..n + 1]) == TableOf(q, i, prior, us, rows[..n])
  {
    hide Key, CellsOf, TableOf, Matching, Bump;
    forall p | 0 <= p < |us|
      ensures GroupRowOf(q, i, prior, us[p], rows[..n + 1]) == GroupRowOf(q, i, prior, us[p], rows[..n])
    {
      OneMoreRow(q, i, prior, us[p], rows, n);
    }
  }

  lemma NestedStep(q: Query, i: nat, prior: seq<Table>, u: Row, rows: seq<Row>, n: nat)
    requires i < |q.groups| && q.emf && n < |rows|
    ensures
      var g := GroupRowOf(q, i, prior, u, rows[..n]);
      && |g.cells| == |q.groups[i].aggs|
      && GroupRowOf(q, i, prior, u, rows[..n + 1])
         == if q.groups[i].cond(u, rows[n], prior) then GroupRow(g.key, Bump(q.groups[i].aggs, g.cells, rows[n])) else g
  {
    hide Key, CellsOf, Matching, Bump;
    OneMoreRow(q, i, prior, u, rows, n);
  }

  lemma {:induction false} TablesAligned(q: Query, n: nat, rows: seq<Row>)
    requires n <= |q.groups|
    ensures forall i :: 0 <= i < n ==> AlignedTable(q, i, Uniques(q, rows), Tables(q, n, rows)[i])
    decreases n
  {
    hide Uniques, TableOf, Key, CellsOf, Matching;
    if n > 0 {
      TablesAligned(q, n - 1, rows);
    }
  }

  lemma FirstTable(q: Query, us: seq<Row>, ts: seq<Table>, p: nat)
    requires |q.groups| > 0 && Aligned(q, us, ts) && DistinctKeys(q, us) && p < |us|
    ensures |ts| > 0 && |ts[0]| == |us| && ts[0][p].key == Key(q, us[p])
    ensures forall k :: 0 <= k < |us| && k != p ==> ts[0][k].key != Key(q, us[p])
  {
    hide Key;
    assert AlignedTable(q, 0, us, ts[0]);
  }

  /** The answer while it is filled: final up to `at`, untouched from there on, where the
      next key is the one at position `seen` of the tables. */
  ghost predicate Filling(q: Query, select: seq<Selected>, having: Having, us: seq<Row>, ts: seq<Table>,
                          answer: seq<Answer>, at: nat, seen: nat)
    requires at <= |answer| && seen <= |us| && |answer| - at == |us| - seen
  {
    && answer[..at] == AnswersAt(q, select, us, ts, Kept(having, ts, seen))
    && forall k :: at <= k < |answer| ==> answer[k] == Answer(Key(q, us[k - at + seen]), [])
  }

  lemma FillStarts(q: Query, select: seq<Selected>, having: Having, us: seq<Row>, ts: seq<Table>, answer: seq<Answer>)
    requires |answer| == |us|
    requires forall p :: 0 <= p < |answer| ==> answer[p] == Answer(Key(q, us[p]), [])
    ensures Filling(q, select, having, us, ts, answer, 0, 0)
  {
    KeptStep(having, ts, 0);
  }

  lemma FillStep(q: Query, select: seq<Selected>, having: Having, us: seq<Row>, ts: seq<Table>,
                 answer: seq<Answer>, at: nat, seen: nat, pos: int)
    requires |q.groups| > 0 && Aligned(q, us, ts) && DistinctKeys(q, us)
    requires at < |answer| && seen < |us| && |answer| - at == |us| - seen
    requires Filling(q, select, having, us, ts, answer, at, seen)
    requires |ts| > 0 && -1 <= pos < |ts[0]|
    requires pos == -1 ==> forall p :: 0 <= p < |ts[0]| ==> ts[0][p].key != answer[at].key
    requires pos >= 0 ==> ts[0][pos].key == answer[at].key
    ensures pos == seen
    ensures !having(ts, seen) ==>
      Filling(q, select, having, us, ts, answer[..at] + answer[at + 1..], at, seen + 1)
    ensures having(ts, seen) ==>
      Filling(q, select, having, us, ts,
              answer[at := Answer(answer[at].key, ValuesAt(q, select, ts, seen))], at + 1, seen + 1)
  {
    hide Key, ValuesAt, AnswersAt, Kept, Aligned, DistinctKeys;
    FirstTable(q, us, ts, seen);
    KeptStep(having, ts, seen);
    if having(ts, seen) {
      AnswersStep(q, select, us, ts, Kept(having, ts, seen), seen);
      var next := answer[at := Answer(answer[at].key, ValuesAt(q, select, ts, seen))];
      assert next[..at + 1] == answer[..at] + [next[at]];
    } else {
      var next := answer[..at] + answer[at + 1..];
      assert next[..at] == answer[..at];
    }
  }

  lemma FillEnds(q: Query, select: seq<Selected>, having: Having, us: seq<Row>, ts: seq<Table>, answer: seq<Answer>)
    requires Filling(q, select, having, us, ts, answer, |answer|, |us|)
    ensures answer == AnswersAt(q, select, us, ts, Kept(having, ts, |us|))
  {
    assert answer[..|answer|] == answer;
  }

  lemma KeptStep(having: Having, ts: seq<Table>, n: nat)
    ensures Kept(having, ts, 0) == []
    ensures Kept(having, ts, n + 1) == Kept(having, ts, n) + (if having(ts, n) then [n] else [])
  {
  }

  lemma AnswersStep(q: Query, select: seq<Selected>, us: seq<Row>, ts: seq<Table>, ps: seq<nat>, p: nat)
    requires p < |us| && forall k :: 0 <= k < |ps| ==> ps[k] < |us|
    ensures AnswersAt(q, select, us, ts, ps + [p])
         == AnswersAt(q, select, us, ts, ps) + [Answer(Key(q, us[p]), ValuesAt(q, select, ts, p))]
  {
    hide Key, ValuesAt;
    assert (ps + [p])[..|ps|] == ps;
  }

  /** The answer of the emitted program to a query. */
  method Evaluate(q: Query, select: seq<Selected>, having: Having, data: seq<Row>) returns (answer: seq<Answer>)
    requires |q.groups| > 0 && Selectable(q, select)
    ensures answer == Answers(q, select, having, data) && Answered(q, select, having, data, answer)
  {
    hide Answers, Selectable, Tables, Answered;
    AnswersAreAnswered(q, select, having, data);
    var p := new Program();
    p.Run(q, select, having, data);
    answer := p.answer;
  }
}
