/** Splitting of text, and the names of aggregates that are read with it. */
module Explode {

  import opened Wrappers

  predicate IsBlank(c: char) { c == ' ' || c == '\n' || c == '\r' }

  predicate AllBlank(s: string) { forall i :: 0 <= i < |s| ==> IsBlank(s[i]) }

  /** Only leading blanks go: the character that ends the text stops the search from the end. */
  method Trim(str: string) returns (r: string)
    ensures exists n :: 0 <= n <= |str| && r == str[n..] && AllBlank(str[..n]) && (r != "" ==> !IsBlank(r[0]))
    ensures r == "" <==> AllBlank(str)
  {
    var start, end := 0, |str|;
    while start < |str| && IsBlank(str[start])
      invariant start <= |str| && AllBlank(str[..start])
    {
      start := start + 1;
    }
    assert start < |str| ==> !IsBlank(str[start]);
    r := if end - start == 0 then "" else str[start..end];
    assert str[start..] == r && str[..|str|] == str;
  }

  /** What is split off from position `i` on; after each split the search starts at position 1. */
  function Scan(q: char, subj: string, i: nat): seq<string>
    decreases |subj|, |subj| - i
  {
    if i + 1 < |subj| then
      if subj[i] == q then [subj[..i]] + Scan(q, subj[i + 1..], 1) else Scan(q, subj, i + 1)
    else if AllBlank(subj) then [] else [subj]
  }

  /** The empty text is refused: its size minus one wraps around. */
  method CExplode(q: char, subject: string) returns (r: Option<seq<string>>)
    ensures r == if subject == "" then None else Some(Scan(q, subject, 0))
  {
    if subject == "" {
      return None;
    }
    var out: seq<string> := [];
    var subj, i := subject, 0;
    while i + 1 < |subj|
      invariant out + Scan(q, subj, i) == Scan(q, subject, 0)
      decreases |subj|, |subj| - i
    {
      if q == subj[i] {
        assert out + ([subj[..i]] + Scan(q, subj[i + 1..], 1)) == out + [subj[..i]] + Scan(q, subj[i + 1..], 1);
        out := out + [subj[..i]];
        subj := subj[i + 1..];
        i := 0;
      }
      i := i + 1;
    }
    ScanEnd(q, subj, i);
    var trimmed := Trim(subj);
    if |trimmed| > 0 {
      out := out + [subj];
    } else {
      assert out + [] == out;
    }
    return Some(out);
  }

  // Joining

  function Join(q: char, fields: seq<string>): string {
    if fields == [] then ""
    else if |fields| == 1 then fields[0]
    else fields[0] + ([q] + Join(q, fields[1..]))
  }

  predicate Free(q: char, s: string) { q !in s }

  /** What the fields must be for splitting to give them back. */
  predicate Splittable(fields: seq<string>)
    requires fields != []
  {
    (forall i :: 1 <= i < |fields| ==> fields[i] != "") && !AllBlank(fields[|fields| - 1])
  }

  lemma {:induction false} ScanSkips(q: char, subj: string, i: nat, n: nat)
    requires i <= n < |subj| && forall k :: i <= k < n ==> subj[k] != q
    ensures Scan(q, subj, i) == Scan(q, subj, n)
    decreases n - i
  {
    if i < n {
      ScanSkips(q, subj, i + 1, n);
    }
  }

  lemma ScanEnd(q: char, subj: string, i: nat)
    requires |subj| <= i + 1
    ensures Scan(q, subj, i) == if AllBlank(subj) then [] else [subj]
  {
  }

  lemma {:induction false} ScanJoined(q: char, fields: seq<string>, i: nat)
    requires fields != [] && Splittable(fields) && i <= |fields[0]|
    requires forall k :: 0 <= k < |fields| ==> Free(q, fields[k])
    ensures Scan(q, Join(q, fields), i) == fields
    decreases |fields|
  {
    hide AllBlank;
    var f, s := fields[0], Join(q, fields);
    if |fields| == 1 {
      if i < |f| {
        ScanSkips(q, f, i, |f| - 1);
        ScanEnd(q, f, |f| - 1);
      } else {
        ScanEnd(q, f, i);
      }
      assert fields == [f];
    } else {
      var rest := fields[1..];
      JoinNonEmpty(q, rest);
      assert s[..|f|] == f && s[|f|] == q && s[|f| + 1..] == Join(q, rest);
      assert rest[|rest| - 1] == fields[|fields| - 1];
      assert forall k :: 0 <= k < |f| ==> s[k] == f[k];
      ScanSkips(q, s, i, |f|);
      ScanJoined(q, rest, 1);
      assert fields == [f] + rest;
    }
  }

  lemma JoinNonEmpty(q: char, fields: seq<string>)
    requires fields != [] && fields[0] != ""
    ensures Join(q, fields) != ""
  {
  }

  function Count(q: char, s: string): nat {
    if s == "" then 0 else (if s[0] == q then 1 else 0) + Count(q, s[1..])
  }

  lemma {:induction false} CountAppend(q: char, a: string, b: string)
    ensures Count(q, a + b) == Count(q, a) + Count(q, b)
    decreases |a|
  {
    if a == "" {
      assert a + b == b;
    } else {
      assert (a + b)[1..] == a[1..] + b;
      CountAppend(q, a[1..], b);
    }
  }

  lemma {:induction false} CountFree(q: char, s: string)
    requires Free(q, s)
    ensures Count(q, s) == 0
    decreases |s|
  {
    if s != "" {
      CountFree(q, s[1..]);
    }
  }

  lemma CountSplit(q: char, a: string, b: string)
    ensures Count(q, a + ([q] + b)) == Count(q, a) + 1 + Count(q, b)
  {
    CountAppend(q, a, [q] + b);
    assert ([q] + b)[1..] == b;
  }

  /** What splitting gives: fields that are not empty after the first, and either the whole text
      with a last field that is not blank, or a shorter text, its blank end having been dropped. */
  ghost predicate Split(q: char, subj: string, i: nat, fs: seq<string>) {
    && (forall k :: (if i > 0 then 0 else 1) <= k < |fs| ==> fs[k] != "")
    && (fs == [] || (|Join(q, fs)| < |subj| && |fs| <= Count(q, subj))
      || (Join(q, fs) == subj && !AllBlank(fs[|fs| - 1])))
    && |fs| <= Count(q, subj) + 1
  }

  lemma {:induction false} ScanSplits(q: char, subj: string, i: nat)
    requires i <= |subj| && subj != ""
    ensures Split(q, subj, i, Scan(q, subj, i))
    decreases |subj|, |subj| - i
  {
    hide AllBlank, Count;
    if i + 1 < |subj| {
      if subj[i] == q {
        var t := subj[i + 1..];
        ScanSplits(q, t, 1);
        var fs := Scan(q, t, 1);
        var gs := [subj[..i]] + fs;
        assert gs[1..] == fs;
        assert subj == subj[..i] + ([q] + t);
        CountSplit(q, subj[..i], t);
        assert fs != [] ==> Join(q, gs) == subj[..i] + ([q] + Join(q, fs));
      } else {
        ScanSplits(q, subj, i + 1);
      }
    } else if !AllBlank(subj) {
      assert Scan(q, subj, i) == [subj];
    }
  }

  /** Splitting inverts joining exactly for these fields. */
  lemma ExplodeInvertsJoin(q: char, fields: seq<string>)
    requires fields != [] && forall k :: 0 <= k < |fields| ==> Free(q, fields[k])
    requires Join(q, fields) != ""
    ensures Scan(q, Join(q, fields), 0) == fields <==> Splittable(fields)
  {
    hide AllBlank;
    if Splittable(fields) {
      ScanJoined(q, fields, 0);
    }
    ScanSplits(q, Join(q, fields), 0);
  }

  // Aggregates

  const IntMax: int := 0x7fff_ffff

  /** An aggregate of a grouping variable. The least integer is left out: it cannot be negated. */
  datatype Aggregate = Aggregate(group: int, func: string, column: string)

  predicate IsInt(i: int) { -IntMax <= i <= IntMax }

  function Digit(d: nat): char
    requires d < 10
  {
    '0' + d as char
  }

  function Itoa(i: int): string
    decreases if i < 0 then 1 - i else i
  {
    if i < 0 then "-" + Itoa(-i)
    else if i >= 10 then Itoa(i / 10) + [Digit(i % 10)]
    else [Digit(i)]
  }

  /** The number that a text starts with. */
  function Leading(s: string, acc: nat): nat
    decreases |s|
  {
    if s == "" || !('0' <= s[0] <= '9') then acc else Leading(s[1..], 10 * acc + (s[0] - '0') as nat)
  }

  function Atoi(s: string): int { if s != "" && s[0] == '-' then 0 - Leading(s[1..], 0) else Leading(s, 0) }

  lemma {:induction false} LeadingSnoc(s: string, c: char, acc: nat)
    requires (forall k :: 0 <= k < |s| ==> '0' <= s[k] <= '9') && '0' <= c <= '9'
    ensures Leading(s + [c], acc) == 10 * Leading(s, acc) + (c - '0') as nat
    decreases |s|
  {
    if s == "" {
      assert (s + [c])[1..] == "";
    } else {
      assert (s + [c])[1..] == s[1..] + [c];
      LeadingSnoc(s[1..], c, 10 * acc + (s[0] - '0') as nat);
    }
  }

  lemma {:induction false} ItoaDigits(n: nat)
    ensures Itoa(n) != "" && forall k :: 0 <= k < |Itoa(n)| ==> '0' <= Itoa(n)[k] <= '9'
    ensures Leading(Itoa(n), 0) == n
    decreases n
  {
    if n >= 10 {
      ItoaDigits(n / 10);
      LeadingSnoc(Itoa(n / 10), Digit(n % 10), 0);
    } else {
      assert Itoa(n)[1..] == "";
    }
  }

  lemma AtoiInvertsItoa(i: int)
    ensures Atoi(Itoa(i)) == i && Free('_', Itoa(i)) && Itoa(i) != ""
  {
    if i < 0 {
      ItoaDigits(-i);
      assert Itoa(i)[1..] == Itoa(-i);
    } else {
      ItoaDigits(i);
    }
  }

  function ToString(a: Aggregate): string {
    (if a.group != 0 then Itoa(a.group) + "_" else "") + a.func + "_" + a.column
  }

  /** Three fields have a group; otherwise the first two are taken and a missing one is an error. */
  function Parse(s: string): Option<Aggregate> {
    if s == "" then None
    else
      var data := Scan('_', s, 0);
      if |data| == 3 then Some(Aggregate(Atoi(data[0]), data[1], data[2]))
      else if |data| < 2 then None
      else Some(Aggregate(0, data[0], data[1]))
  }

  method NewAggregate(aggr: string) returns (r: Option<Aggregate>)
    ensures r == Parse(aggr)
  {
    var data := CExplode('_', aggr);
    if data.None? {
      return None;
    }
    var fields := data.value;
    if |fields| == 3 {
      return Some(Aggregate(Atoi(fields[0]), fields[1], fields[2]));
    }
    if |fields| < 2 {
      return None;
    }
    return Some(Aggregate(0, fields[0], fields[1]));
  }

  function FieldsOf(a: Aggregate): (fields: seq<string>)
    ensures |fields| >= 2 && fields[|fields| - 1] == a.column && fields[|fields| - 2] == a.func
  {
    if a.group == 0 then [a.func, a.column] else [Itoa(a.group), a.func, a.column]
  }

  lemma JoinedFields(a: Aggregate)
    ensures Join('_', FieldsOf(a)) == ToString(a)
  {
    hide Itoa;
    var two := [a.func, a.column];
    assert two[1..] == [a.column];
    assert Join('_', two) == a.func + ("_" + a.column);
    if a.group != 0 {
      var three := [Itoa(a.group), a.func, a.column];
      assert three[1..] == two;
      assert Join('_', three) == Itoa(a.group) + ("_" + (a.func + ("_" + a.column)));
      assert Itoa(a.group) + ("_" + (a.func + ("_" + a.column))) == ToString(a);
    }
  }

  /** Reading the printed form gives the aggregate back if and only if the column is not blank and,
      where a group is printed, there is a function name. */
  lemma AggregateRoundTrip(a: Aggregate)
    requires IsInt(a.group) && Free('_', a.func) && Free('_', a.column)
    ensures Parse(ToString(a)) == Some(a) <==> !AllBlank(a.column) && (a.group != 0 ==> a.func != "")
  {
    hide Itoa, Scan, Join, AllBlank;
    var fields := FieldsOf(a);
    JoinedFields(a);
    AtoiInvertsItoa(a.group);
    ExplodeInvertsJoin('_', fields);
    BlankEmpty();
    if Parse(ToString(a)) == Some(a) {
      NotMisread(a);
    }
  }

  lemma FieldCount(a: Aggregate)
    requires Free('_', a.func) && Free('_', a.column)
    ensures Count('_', ToString(a)) == |FieldsOf(a)| - 1
  {
    hide Itoa, Count;
    CountSplit('_', a.func, a.column);
    CountFree('_', a.func);
    CountFree('_', a.column);
    var two := a.func + ("_" + a.column);
    if a.group != 0 {
      AtoiInvertsItoa(a.group);
      CountFree('_', Itoa(a.group));
      CountSplit('_', Itoa(a.group), two);
      assert ToString(a) == Itoa(a.group) + ("_" + two);
    } else {
      assert ToString(a) == two;
    }
  }

  /** An aggregate that is read back was split into its own fields. */
  lemma NotMisread(a: Aggregate)
    requires Free('_', a.func) && Free('_', a.column) && Parse(ToString(a)) == Some(a)
    ensures Scan('_', ToString(a), 0) == FieldsOf(a)
  {
    hide Itoa, Scan, Join, AllBlank, Count;
    var s, data := ToString(a), Scan('_', ToString(a), 0);
    FieldCount(a);
    ScanSplits('_', s, 0);
    if a.group == 0 {
      assert data == [data[0], data[1]];
    } else {
      assert data == [data[0], data[1], data[2]];
      JoinedFields(a);
      ThreeJoined('_', data[0], a.func, a.column);
      ThreeJoined('_', Itoa(a.group), a.func, a.column);
      SameHead(data[0], Itoa(a.group), "_" + (a.func + ("_" + a.column)));
    }
  }

  lemma ThreeJoined(q: char, a: string, b: string, c: string)
    ensures Join(q, [a, b, c]) == a + ([q] + (b + ([q] + c)))
  {
    assert [a, b, c][1..] == [b, c];
    assert [b, c][1..] == [c];
    assert Join(q, [b, c]) == b + ([q] + c);
  }

  lemma SameHead(a: string, b: string, t: string)
    requires a + t == b + t
    ensures a == b
  {
    assert |a| == |b|;
    assert (a + t)[..|a|] == a && (b + t)[..|b|] == b;
  }

  lemma BlankEmpty()
    ensures AllBlank("")
  {
  }
}
