/**
 Streaming sample selection: a heap of bounded size over the manifest, then a sort and a cut into splits.
 `rank` stands for the truncated hash of seed and path; it need not be injective.
 */
module Sampling {
  import opened Wrappers
  import opened Text
  import opened Sorting
  import opened Heaps

  datatype Row = Row(path: string, size: nat, sha256: string, contentType: string)

  type Rank = string -> nat

  /** Order of the heap's items (-rank, path). */
  predicate HeapLeq(rank: Rank, a: Row, b: Row) {
    rank(a.path) > rank(b.path) || (rank(a.path) == rank(b.path) && StrLeq(a.path, b.path))
  }

  /** Order of the final list: (rank, path). */
  predicate ListLeq(rank: Rank, a: Row, b: Row) {
    rank(a.path) < rank(b.path) || (rank(a.path) == rank(b.path) && StrLeq(a.path, b.path))
  }

  function ByHeap(rank: Rank): (Row, Row) -> bool { (a, b) => HeapLeq(rank, a, b) }

  function ByList(rank: Rank): (Row, Row) -> bool { (a, b) => ListLeq(rank, a, b) }

  lemma OrdersAreTotal(rank: Rank)
    ensures TotalPreorder(ByHeap(rank)) && TotalPreorder(ByList(rank))
  {
    forall a, b
      ensures ByHeap(rank)(a, b) || ByHeap(rank)(b, a)
      ensures ByList(rank)(a, b) || ByList(rank)(b, a)
    {
      StrLessTrichotomy(a.path, b.path);
    }
    forall a, b, c
      ensures ByHeap(rank)(a, b) && ByHeap(rank)(b, c) ==> ByHeap(rank)(a, c)
      ensures ByList(rank)(a, b) && ByList(rank)(b, c) ==> ByList(rank)(a, c)
    {
      if StrLeq(a.path, b.path) && StrLeq(b.path, c.path) { StrLeqTransitive(a.path, b.path, c.path); }
    }
  }

  /** One row per path; two different rows of one path cannot be compared and Python would raise. */
  ghost predicate Comparable(rows: multiset<Row>) {
    forall a, b :: a in rows && b in rows && a.path == b.path ==> a == b
  }

  lemma TiesAreEqual(rank: Rank, rows: multiset<Row>, a: Row, b: Row)
    requires Comparable(rows) && a in rows && b in rows
    ensures HeapLeq(rank, a, b) && HeapLeq(rank, b, a) ==> a == b
    ensures ListLeq(rank, a, b) && ListLeq(rank, b, a) ==> a == b
  {
    StrLessTrichotomy(a.path, b.path);
  }

  // ----- The selection, as a specification

  /** `sel` is the `k` greatest of `all`: nothing left out beats anything kept. */
  ghost predicate Greatest(rank: Rank, sel: multiset<Row>, all: multiset<Row>, k: nat) {
    && sel <= all && |sel| == (if k < |all| then k else |all|)
    && forall x, y :: x in sel && y in all - sel ==> HeapLeq(rank, y, x)
  }

  /** Sort, then take the greatest `k`. */
  function SortAndTake(rank: Rank, rows: seq<Row>, k: nat): seq<Row> {
    var sorted := Sort(ByHeap(rank), rows);
    if k < |sorted| then sorted[|sorted| - k..] else sorted
  }

  lemma SubsetOfEqualSize<T>(a: multiset<T>, b: multiset<T>)
    requires a <= b && |a| == |b|
    ensures a == b
  {
    assert b == a + (b - a);
    assert |b - a| == 0;
  }

  lemma GreatestUnique(rank: Rank, a: multiset<Row>, b: multiset<Row>, all: multiset<Row>, k: nat)
    requires Comparable(all) && Greatest(rank, a, all, k) && Greatest(rank, b, all, k)
    ensures a == b
  {
    if !(a <= b) {
      var x :| a[x] > b[x];
      if b <= a { SubsetOfEqualSize(b, a); }
      var y :| b[y] > a[y];
      assert x in a && x in all - b && y in b && y in all - a;
      TiesAreEqual(rank, all, x, y);
      assert false;
    }
    SubsetOfEqualSize(a, b);
  }

  /** A suffix of a sorted list holds the greatest of its elements. */
  lemma SuffixIsGreatest(rank: Rank, sorted: seq<Row>, cut: nat)
    requires SortedBy(ByHeap(rank), sorted) && cut <= |sorted|
    ensures multiset(sorted[cut..]) <= multiset(sorted)
    ensures forall x, y :: x in multiset(sorted[cut..]) && y in multiset(sorted) - multiset(sorted[cut..]) ==> HeapLeq(rank, y, x)
  {
    assert sorted == sorted[..cut] + sorted[cut..];
    assert multiset(sorted) - multiset(sorted[cut..]) == multiset(sorted[..cut]);
    forall x, y | x in multiset(sorted[cut..]) && y in multiset(sorted[..cut])
      ensures HeapLeq(rank, y, x)
    {
      var i :| 0 <= i < |sorted[cut..]| && sorted[cut..][i] == x;
      var j :| 0 <= j < |sorted[..cut]| && sorted[..cut][j] == y;
      assert ByHeap(rank)(sorted[j], sorted[cut + i]);
    }
  }

  lemma SortAndTakeIsGreatest(rank: Rank, rows: seq<Row>, k: nat)
    ensures Greatest(rank, multiset(SortAndTake(rank, rows, k)), multiset(rows), k)
  {
    OrdersAreTotal(rank);
    var sorted := Sort(ByHeap(rank), rows);
    SortSorts(ByHeap(rank), rows);
    var cut := if k < |sorted| then |sorted| - k else 0;
    SuffixIsGreatest(rank, sorted, cut);
    assert SortAndTake(rank, rows, k) == sorted[cut..];
    assert |multiset(rows)| == |sorted| && |multiset(sorted[cut..])| == |sorted[cut..]|;
  }

  // ----- The streaming heap

  /** One more row either completes the sample, replaces the least kept row, or is dropped. */
  lemma GreatestStep(rank: Rank, sel: multiset<Row>, all: multiset<Row>, k: nat, x: Row, least: Row)
    requires Comparable(all + multiset{x}) && Greatest(rank, sel, all, k) && 0 < k
    requires |sel| == k ==> least in sel && forall y :: y in sel ==> HeapLeq(rank, least, y)
    ensures |sel| < k ==> Greatest(rank, sel + multiset{x}, all + multiset{x}, k)
    ensures |sel| == k && !HeapLeq(rank, x, least) ==> Greatest(rank, sel - multiset{least} + multiset{x}, all + multiset{x}, k)
    ensures |sel| == k && HeapLeq(rank, x, least) ==> Greatest(rank, sel, all + multiset{x}, k)
  {
    OrdersAreTotal(rank);
    if |sel| < k {
      SubsetOfEqualSize(sel, all);
    } else if HeapLeq(rank, x, least) {
      KeepStep(rank, sel, all, x, least);
    } else {
      ReplaceStep(rank, sel, all, x, least);
    }
  }

  lemma Chain(rank: Rank, a: Row, b: Row, c: Row)
    requires HeapLeq(rank, a, b) && HeapLeq(rank, b, c)
    ensures HeapLeq(rank, a, c)
  {
    if StrLeq(a.path, b.path) && StrLeq(b.path, c.path) { StrLeqTransitive(a.path, b.path, c.path); }
  }

  lemma KeepStep(rank: Rank, sel: multiset<Row>, all: multiset<Row>, x: Row, least: Row)
    requires sel <= all && least in sel && HeapLeq(rank, x, least)
    requires forall y :: y in sel ==> HeapLeq(rank, least, y)
    requires forall a, b :: a in sel && b in all - sel ==> HeapLeq(rank, b, a)
    ensures forall a, b :: a in sel && b in all + multiset{x} - sel ==> HeapLeq(rank, b, a)
  {
    forall a, b | a in sel && b in all + multiset{x} - sel
      ensures HeapLeq(rank, b, a)
    {
      if b == x { Chain(rank, x, least, a); } else { assert b in all - sel; }
    }
  }

  lemma ReplaceStep(rank: Rank, sel: multiset<Row>, all: multiset<Row>, x: Row, least: Row)
    requires sel <= all && least in sel && !HeapLeq(rank, x, least)
    requires forall y :: y in sel ==> HeapLeq(rank, least, y)
    requires forall a, b :: a in sel && b in all - sel ==> HeapLeq(rank, b, a)
    ensures
      var kept := sel - multiset{least} + multiset{x};
      forall a, b :: a in kept && b in all + multiset{x} - kept ==> HeapLeq(rank, b, a)
  {
    var kept := sel - multiset{least} + multiset{x};
    assert HeapLeq(rank, least, x) by { OrdersAreTotal(rank); assert ByHeap(rank)(least, x) || ByHeap(rank)(x, least); }
    assert HeapLeq(rank, least, least) by { OrdersAreTotal(rank); assert ByHeap(rank)(least, least); }
    forall a, b | a in kept && b in all + multiset{x} - kept
      ensures HeapLeq(rank, b, a)
    {
      assert HeapLeq(rank, least, a);
      assert b == least || b in all - sel;
      if b != least { Chain(rank, b, least, a); }
    }
  }

  lemma RootBelowAll(rank: Rank, heap: seq<Row>)
    requires HeapOrder(ByHeap(rank), heap) && heap != []
    ensures forall y :: y in multiset(heap) ==> HeapLeq(rank, heap[0], y)
  {
    OrdersAreTotal(rank);
    forall y | y in multiset(heap)
      ensures HeapLeq(rank, heap[0], y)
    {
      var j :| 0 <= j < |heap| && heap[j] == y;
      RootIsLeast(ByHeap(rank), heap, j);
      assert ByHeap(rank)(heap[0], y);
    }
  }

  /** One iteration: push while there is room, else replace the root when the row beats it. */
  method Offer(heap: seq<Row>, row: Row, rank: Rank, total: nat, ghost seen: multiset<Row>) returns (r: seq<Row>)
    requires 0 < total && Comparable(seen + multiset{row})
    requires HeapOrder(ByHeap(rank), heap) && Greatest(rank, multiset(heap), seen, total)
    ensures HeapOrder(ByHeap(rank), r) && Greatest(rank, multiset(r), seen + multiset{row}, total)
  {
    OrdersAreTotal(rank);
    assert |multiset(heap)| == |heap|;
    if heap != [] {
      RootBelowAll(rank, heap);
    }
    GreatestStep(rank, multiset(heap), seen, total, row, if heap == [] then row else heap[0]);
    hide HeapOrder, Greatest, TotalPreorder, Comparable;
    if |heap| < total {
      r := HeapPush(ByHeap(rank), heap, row);
    } else if !HeapLeq(rank, row, heap[0]) {
      r := HeapReplace(ByHeap(rank), heap, row);
    } else {
      r := heap;
    }
  }

  lemma PrefixComparable(rows: seq<Row>, i: nat)
    requires i < |rows| && Comparable(multiset(rows))
    ensures multiset(rows[..i + 1]) == multiset(rows[..i]) + multiset{rows[i]}
    ensures Comparable(multiset(rows[..i]) + multiset{rows[i]})
  {
    assert rows[..i + 1] == rows[..i] + [rows[i]] && rows == rows[..i + 1] + rows[i + 1..];
    assert multiset(rows[..i + 1]) <= multiset(rows);
  }

  lemma NothingSeen(rank: Rank, k: nat)
    ensures Greatest(rank, multiset([]), multiset([]), k) && HeapOrder(ByHeap(rank), [])
    ensures SortAndTake(rank, [], k) == []
  {
  }

  /** The loop over the manifest: at every point the heap holds exactly what sort-and-take would. */
  method StreamGreatest(rows: seq<Row>, rank: Rank, total: nat) returns (heap: seq<Row>)
    requires 0 < total && Comparable(multiset(rows))
    ensures multiset(heap) == multiset(SortAndTake(rank, rows, total))
  {
    hide HeapOrder, Greatest, Comparable, SortAndTake;
    NothingSeen(rank, total);
    heap := [];
    for i := 0 to |rows|
      invariant HeapOrder(ByHeap(rank), heap)
      invariant Greatest(rank, multiset(heap), multiset(rows[..i]), total)
      invariant multiset(heap) == multiset(SortAndTake(rank, rows[..i], total))
    {
      PrefixComparable(rows, i);
      heap := Offer(heap, rows[i], rank, total, multiset(rows[..i]));
      SortAndTakeIsGreatest(rank, rows[..i + 1], total);
      GreatestUnique(rank, multiset(heap), multiset(SortAndTake(rank, rows[..i + 1], total)), multiset(rows[..i + 1]), total);
    }
    assert rows[..|rows|] == rows;
  }

  lemma SelectionSize(rank: Rank, rows: seq<Row>, total: nat, heap: seq<Row>)
    requires multiset(heap) == multiset(SortAndTake(rank, rows, total))
    ensures |heap| == if total < |rows| then total else |rows|
  {
    SameSize(heap, SortAndTake(rank, rows, total));
  }

  lemma SelectionComparable(rank: Rank, rows: seq<Row>, total: nat)
    requires Comparable(multiset(rows))
    ensures Comparable(multiset(SortAndTake(rank, rows, total)))
  {
    SortAndTakeIsGreatest(rank, rows, total);
  }

  lemma ArrangementUnique(rank: Rank, a: seq<Row>, b: seq<Row>)
    requires multiset(a) == multiset(b) && Comparable(multiset(a))
    ensures Sort(ByList(rank), a) == Sort(ByList(rank), b)
  {
    OrdersAreTotal(rank);
    SortSorts(ByList(rank), a);
    SortSorts(ByList(rank), b);
    var sa, sb := Sort(ByList(rank), a), Sort(ByList(rank), b);
    forall x, y | x in sa && y in sa && ByList(rank)(x, y) && ByList(rank)(y, x)
      ensures x == y
    {
      assert x in multiset(sa) && y in multiset(sa);
      TiesAreEqual(rank, multiset(a), x, y);
    }
    SortedUnique(ByList(rank), sa, sb);
  }

  /** The heap's layout leaves no trace in the final order. */
  lemma SelectionOrder(rank: Rank, rows: seq<Row>, total: nat, heap: seq<Row>)
    requires Comparable(multiset(rows)) && multiset(heap) == multiset(SortAndTake(rank, rows, total))
    ensures Sort(ByList(rank), heap) == Selected(rank, rows, total)
  {
    SelectionComparable(rank, rows, total);
    ArrangementUnique(rank, heap, SortAndTake(rank, rows, total));
  }

  // ----- The sample

  datatype Split = Development | Validation | Test

  datatype Assignment = Assignment(row: Row, split: Split)

  datatype Sample = Sample(assignments: seq<Assignment>, counts: map<Split, nat>, rowCount: nat, totalBytes: nat)

  datatype SampleError = BadCounts | TooFewRows(found: nat)

  /** The selected rows in their final order. */
  function Selected(rank: Rank, rows: seq<Row>, total: nat): seq<Row> {
    Sort(ByList(rank), SortAndTake(rank, rows, total))
  }

  function Assign(rows: seq<Row>, split: Split): seq<Assignment> {
    seq(|rows|, i requires 0 <= i < |rows| => Assignment(rows[i], split))
  }

  function Bytes(rows: seq<Row>): nat {
    if rows == [] then 0 else Bytes(rows[..|rows| - 1]) + rows[|rows| - 1].size
  }

  function SplitAt(s: nat): Split { if s == 0 then Development else if s == 1 then Validation else Test }

  /** Where the s-th split starts. */
  function OffsetOf(sizes: seq<nat>, s: nat): nat
    requires s <= |sizes|
  {
    if s == 0 then 0 else OffsetOf(sizes, s - 1) + sizes[s - 1]
  }

  lemma {:induction false} OffsetsGrow(sizes: seq<nat>, s: nat, t: nat)
    requires s <= t <= |sizes|
    ensures OffsetOf(sizes, s) <= OffsetOf(sizes, t)
  {
    if s < t { OffsetsGrow(sizes, s, t - 1); }
  }

  /** The assignments of the first `s` splits. */
  function Cut(selected: seq<Row>, sizes: seq<nat>, s: nat): seq<Assignment>
    requires s <= |sizes| && OffsetOf(sizes, |sizes|) <= |selected|
  {
    if s == 0 then []
    else
      OffsetsGrow(sizes, s, |sizes|);
      Cut(selected, sizes, s - 1) + Assign(selected[OffsetOf(sizes, s - 1)..OffsetOf(sizes, s)], SplitAt(s - 1))
  }

  /** The loop over the requested splits: slice, label, advance. */
  method CutSplits(selected: seq<Row>, sizes: seq<nat>) returns (assignments: seq<Assignment>, counts: map<Split, nat>)
    requires |sizes| == 3 && OffsetOf(sizes, 3) == |selected|
    ensures assignments == Cut(selected, sizes, 3)
    ensures counts == map[Development := sizes[0], Validation := sizes[1], Test := sizes[2]]
  {
    hide Assign;
    assignments, counts := [], map[];
    var offset := 0;
    for s := 0 to 3
      invariant offset == OffsetOf(sizes, s) && offset <= |selected|
      invariant assignments == Cut(selected, sizes, s)
      invariant forall p :: p in counts <==> exists k :: 0 <= k < s && SplitAt(k) == p
      invariant forall k :: 0 <= k < s ==> SplitAt(k) in counts && counts[SplitAt(k)] == sizes[k]
    {
      OffsetsGrow(sizes, s + 1, 3);
      assignments := assignments + Assign(selected[offset..offset + sizes[s]], SplitAt(s));
      counts := counts[SplitAt(s) := sizes[s]];
      offset := offset + sizes[s];
    }
    assert SplitAt(0) == Development && SplitAt(1) == Validation && SplitAt(2) == Test;
  }

  method TotalBytes(rows: seq<Row>) returns (bytes: nat)
    ensures bytes == Bytes(rows)
  {
    bytes := 0;
    for i := 0 to |rows|
      invariant bytes == Bytes(rows[..i])
    {
      assert rows[..i + 1][..i] == rows[..i];
      bytes := bytes + rows[i].size;
    }
    assert rows[..|rows|] == rows;
  }

  lemma {:induction false} CutLength(selected: seq<Row>, sizes: seq<nat>, s: nat)
    requires s <= |sizes| && OffsetOf(sizes, |sizes|) <= |selected|
    ensures |Cut(selected, sizes, s)| == OffsetOf(sizes, s)
  {
    if s > 0 {
      OffsetsGrow(sizes, s, |sizes|);
      CutLength(selected, sizes, s - 1);
    }
  }

  lemma ThreeCuts(selected: seq<Row>, sizes: seq<nat>)
    requires |sizes| == 3 && OffsetOf(sizes, 3) == |selected|
    ensures sizes[0] + sizes[1] + sizes[2] == |selected|
    ensures Cut(selected, sizes, 3) ==
      Assign(selected[..sizes[0]], Development)
      + Assign(selected[sizes[0]..sizes[0] + sizes[1]], Validation)
      + Assign(selected[sizes[0] + sizes[1]..], Test)
  {
    hide Assign;
    assert OffsetOf(sizes, 1) == sizes[0] && OffsetOf(sizes, 2) == sizes[0] + sizes[1];
    assert OffsetOf(sizes, 3) == OffsetOf(sizes, 2) + sizes[2];
    assert selected[0..sizes[0]] == selected[..sizes[0]];
    assert selected[sizes[0] + sizes[1]..OffsetOf(sizes, 3)] == selected[sizes[0] + sizes[1]..];
    assert Cut(selected, sizes, 0) == [];
    assert Cut(selected, sizes, 1) == Assign(selected[..sizes[0]], Development);
    assert Cut(selected, sizes, 2) == Cut(selected, sizes, 1) + Assign(selected[sizes[0]..sizes[0] + sizes[1]], Validation);
  }

  method SampleManifest(rows: seq<Row>, development: int, validation: int, test: int, rank: Rank)
    returns (r: Result<Sample, SampleError>)
    requires Comparable(multiset(rows))
    ensures var total := development + validation + test;
      && (r.Err? && r.error.BadCounts? <==> development < 0 || validation < 0 || test < 0 || total == 0)
      && (r.Err? && r.error.TooFewRows? ==> r.error.found == |rows| < total)
      && (r.Ok? ==>
            && 0 <= development && 0 <= validation && 0 <= test && total <= |rows|
            && var selected := Selected(rank, rows, total);
            && |selected| == total
            && r.value.assignments ==
                 Assign(selected[..development], Development)
                 + Assign(selected[development..development + validation], Validation)
                 + Assign(selected[development + validation..], Test)
            && r.value.counts == map[Development := development, Validation := validation, Test := test]
            && r.value.rowCount == total && r.value.totalBytes == Bytes(selected))
  {
    hide Comparable, Sort, SortAndTake, Cut, Assign;
    if development < 0 || validation < 0 || test < 0 || development + validation + test == 0 {
      return Err(BadCounts);
    }
    var total := development + validation + test;
    var heap := StreamGreatest(rows, rank, total);
    SelectionSize(rank, rows, total, heap);
    if |heap| < total {
      return Err(TooFewRows(|heap|));
    }
    var selected := Sort(ByList(rank), heap);
    SelectionOrder(rank, rows, total, heap);
    var sizes: seq<nat> := [development, validation, test];
    assert OffsetOf(sizes, 1) == development && OffsetOf(sizes, 2) == development + validation;
    var assignments, counts := CutSplits(selected, sizes);
    ThreeCuts(selected, sizes);
    CutLength(selected, sizes, 3);
    var bytes := TotalBytes(selected);
    r := Ok(Sample(assignments, counts, |assignments|, bytes));
  }

  // ----- What the sample guarantees

  /** The selection does not depend on the order of the manifest. */
  lemma OrderIndependent(rank: Rank, rows: seq<Row>, other: seq<Row>, total: nat)
    requires multiset(rows) == multiset(other) && Comparable(multiset(rows))
    ensures Selected(rank, rows, total) == Selected(rank, other, total)
  {
    SortAndTakeIsGreatest(rank, rows, total);
    SortAndTakeIsGreatest(rank, other, total);
    var a, b := SortAndTake(rank, rows, total), SortAndTake(rank, other, total);
    GreatestUnique(rank, multiset(a), multiset(b), multiset(rows), total);
    SelectionComparable(rank, rows, total);
    ArrangementUnique(rank, a, b);
  }

  /** A larger sample of the same manifest contains the smaller one. */
  lemma SamplesAreNested(rank: Rank, rows: seq<Row>, small: nat, large: nat)
    requires small <= large
    ensures multiset(Selected(rank, rows, small)) <= multiset(Selected(rank, rows, large))
  {
    var a, b := SortAndTake(rank, rows, small), SortAndTake(rank, rows, large);
    assert b == b[..|b| - |a|] + a;
  }

  /** The list is in the order of rank, and of path between equal ranks. */
  lemma SelectedInOrder(rank: Rank, rows: seq<Row>, total: nat, i: nat, j: nat)
    requires i < j < |Selected(rank, rows, total)|
    ensures var s := Selected(rank, rows, total);
      && rank(s[i].path) <= rank(s[j].path)
      && (rank(s[i].path) == rank(s[j].path) ==> StrLeq(s[i].path, s[j].path))
  {
    OrdersAreTotal(rank);
    SortSorts(ByList(rank), SortAndTake(rank, rows, total));
    assert ByList(rank)(Selected(rank, rows, total)[i], Selected(rank, rows, total)[j]);
    hide Sort, SortAndTake, StrLeq;
  }

  lemma {:induction false} BytesAdd(a: seq<Row>, b: seq<Row>)
    ensures Bytes(a + b) == Bytes(a) + Bytes(b)
    ensures forall x :: Bytes([x]) == x.size
  {
    forall x
      ensures Bytes([x]) == x.size
    {
      assert [x][..0] == [];
    }
    if b == [] {
      assert a + b == a;
    } else {
      assert (a + b)[..|a + b| - 1] == a + b[..|b| - 1];
      BytesAdd(a, b[..|b| - 1]);
    }
  }

  /** Nothing outside the selection ranks before anything in it; of equal ranks the greater paths are kept. */
  lemma SelectedRankFirst(rank: Rank, rows: seq<Row>, total: nat, x: Row, y: Row)
    requires x in multiset(Selected(rank, rows, total))
    requires y in multiset(rows) - multiset(Selected(rank, rows, total))
    ensures rank(x.path) <= rank(y.path)
    ensures rank(x.path) == rank(y.path) ==> StrLeq(y.path, x.path)
    ensures multiset(Selected(rank, rows, total)) <= multiset(rows)
  {
    hide Sort, SortAndTake;
    SortAndTakeIsGreatest(rank, rows, total);
    assert multiset(Selected(rank, rows, total)) == multiset(SortAndTake(rank, rows, total));
  }

  function RowsOf(assignments: seq<Assignment>, split: Split): seq<Row> {
    if assignments == [] then []
    else
      var last := assignments[|assignments| - 1];
      RowsOf(assignments[..|assignments| - 1], split) + (if last.split == split then [last.row] else [])
  }

  lemma {:induction false} RowsOfConcat(a: seq<Assignment>, b: seq<Assignment>, split: Split)
    ensures RowsOf(a + b, split) == RowsOf(a, split) + RowsOf(b, split)
  {
    if b == [] {
      assert a + b == a;
    } else {
      assert (a + b)[..|a + b| - 1] == a + b[..|b| - 1];
      RowsOfConcat(a, b[..|b| - 1], split);
    }
  }

  lemma {:induction false} RowsOfAssigned(rows: seq<Row>, own: Split, split: Split)
    ensures RowsOf(Assign(rows, own), split) == if own == split then rows else []
  {
    if rows != [] {
      var front := rows[..|rows| - 1];
      assert Assign(rows, own)[..|rows| - 1] == Assign(front, own);
      RowsOfAssigned(front, own, split);
    }
  }

  /** The three splits have the requested sizes, share no path, and together are the selection. */
  lemma SplitsPartitionSelection(selected: seq<Row>, d: nat, v: nat, assignments: seq<Assignment>)
    requires d + v <= |selected|
    requires assignments ==
      Assign(selected[..d], Development) + Assign(selected[d..d + v], Validation) + Assign(selected[d + v..], Test)
    ensures RowsOf(assignments, Development) == selected[..d]
    ensures RowsOf(assignments, Validation) == selected[d..d + v]
    ensures RowsOf(assignments, Test) == selected[d + v..]
    ensures RowsOf(assignments, Development) + RowsOf(assignments, Validation) + RowsOf(assignments, Test) == selected
  {
    hide RowsOf, Assign;
    RowsOfSplit(selected, d, v, assignments, Development);
    RowsOfSplit(selected, d, v, assignments, Validation);
    RowsOfSplit(selected, d, v, assignments, Test);
  }

  lemma RowsOfSplit(selected: seq<Row>, d: nat, v: nat, assignments: seq<Assignment>, split: Split)
    requires d + v <= |selected|
    requires assignments ==
      Assign(selected[..d], Development) + Assign(selected[d..d + v], Validation) + Assign(selected[d + v..], Test)
    ensures RowsOf(assignments, split) ==
      if split.Development? then selected[..d] else if split.Validation? then selected[d..d + v] else selected[d + v..]
  {
    hide RowsOf, Assign;
    var a, b, c := Assign(selected[..d], Development), Assign(selected[d..d + v], Validation), Assign(selected[d + v..], Test);
    RowsOfConcat(a + b, c, split);
    RowsOfConcat(a, b, split);
    RowsOfAssigned(selected[..d], Development, split);
    RowsOfAssigned(selected[d..d + v], Validation, split);
    RowsOfAssigned(selected[d + v..], Test, split);
  }

  /** With one row per path in the manifest, no path is in two splits. */
  lemma SplitsShareNoPath(rank: Rank, rows: seq<Row>, total: nat, i: nat, j: nat)
    requires forall k, l :: 0 <= k < l < |rows| ==> rows[k].path != rows[l].path
    requires i < j < |Selected(rank, rows, total)|
    ensures Selected(rank, rows, total)[i].path != Selected(rank, rows, total)[j].path
  {
    var s := Selected(rank, rows, total);
    SortAndTakeIsGreatest(rank, rows, total);
    assert multiset(s) <= multiset(rows);
    if s[i].path == s[j].path {
      assert s[i] in multiset(rows) && s[j] in multiset(rows);
      var k :| 0 <= k < |rows| && rows[k] == s[i];
      var l :| 0 <= l < |rows| && rows[l] == s[j];
      assert s[i] == s[j];
      TwiceInList(s, i, j);
      OnceInList(rows, k);
    }
  }

  lemma TwiceInList(s: seq<Row>, i: nat, j: nat)
    requires i < j < |s| && s[i] == s[j]
    ensures multiset(s)[s[i]] >= 2
  {
    assert s == s[..i] + [s[i]] + s[i + 1..j] + [s[j]] + s[j + 1..];
  }

  lemma OnceInList(rows: seq<Row>, k: nat)
    requires forall a, b :: 0 <= a < b < |rows| ==> rows[a].path != rows[b].path
    requires k < |rows|
    ensures multiset(rows)[rows[k]] == 1
  {
    var x := rows[k];
    assert rows == rows[..k] + [x] + rows[k + 1..];
    assert x !in rows[..k] && x !in rows[k + 1..];
  }
}
