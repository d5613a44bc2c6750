/** `load_lineage`: the recursive query over DerivedFrom edges, bounded at depth 64. An edge's
    position in the table stands for its identifier. */
module Lineage {
  import opened Ledger
  import opened StableSort
  import opened Store
  import opened IngestClaim

  const MAX_DEPTH: nat := 64

  // ---- Walks --------------------------------------------------------------------------------

  datatype Walk = Here | Then(before: Walk, edge: nat)
  {
    function Length(): nat {
      if Here? then 0 else before.Length() + 1
    }

    /** Where the walk leads; a number that is no edge's leads nowhere. */
    function End(edges: seq<Edge>, start: ClaimRef): ClaimRef {
      if Here? || edge >= |edges| then start else edges[edge].to
    }
  }

  predicate Leaves(edges: seq<Edge>, c: ClaimRef, e: nat) {
    e < |edges| && edges[e].kind == DerivedFrom && edges[e].from == c
  }

  /** `w` follows DerivedFrom edges upward from `start`. */
  predicate IsWalk(edges: seq<Edge>, start: ClaimRef, w: Walk) {
    w.Then? ==> IsWalk(edges, start, w.before) && Leaves(edges, w.before.End(edges, start), w.edge)
  }

  /** The edges that leave `c`, among the first `n`. */
  function Leaving(edges: seq<Edge>, c: ClaimRef, n: nat): (r: seq<nat>)
    requires n <= |edges|
    ensures forall e: nat :: e in r <==> e < n && Leaves(edges, c, e)
  {
    if n == 0 then []
    else if Leaves(edges, c, n - 1) then Leaving(edges, c, n - 1) + [n - 1]
    else Leaving(edges, c, n - 1)
  }

  function Onward(w: Walk, es: seq<nat>): (r: seq<Walk>)
    ensures |r| == |es| && forall k :: 0 <= k < |r| ==> r[k] == Then(w, es[k])
  {
    seq(|es|, k requires 0 <= k < |es| => Then(w, es[k]))
  }

  function Extensions(edges: seq<Edge>, start: ClaimRef, w: Walk): seq<Walk> {
    Onward(w, Leaving(edges, w.End(edges, start), |edges|))
  }

  function ExtendAll(edges: seq<Edge>, start: ClaimRef, ws: seq<Walk>): seq<Walk> {
    if ws == [] then []
    else ExtendAll(edges, start, ws[..|ws| - 1]) + Extensions(edges, start, ws[|ws| - 1])
  }

  /** The walks of length `k`, in the order the query finds them. */
  function Walks(edges: seq<Edge>, start: ClaimRef, k: nat): seq<Walk> {
    if k == 0 then [Here] else ExtendAll(edges, start, Walks(edges, start, k - 1))
  }

  lemma InExtensions(edges: seq<Edge>, start: ClaimRef, w: Walk, v: Walk)
    ensures v in Extensions(edges, start, w) <==> v.Then? && v.before == w && Leaves(edges, w.End(edges, start), v.edge)
  {
    var es := Leaving(edges, w.End(edges, start), |edges|);
    if v.Then? && v.before == w && v.edge in es {
      var k :| 0 <= k < |es| && es[k] == v.edge;
      assert Extensions(edges, start, w)[k] == v;
    }
  }

  lemma {:induction false} InExtendAll(edges: seq<Edge>, start: ClaimRef, ws: seq<Walk>, v: Walk)
    ensures v in ExtendAll(edges, start, ws) <==>
            v.Then? && v.before in ws && Leaves(edges, v.before.End(edges, start), v.edge)
  {
    if ws != [] {
      var p, w := ws[..|ws| - 1], ws[|ws| - 1];
      assert ws == p + [w];
      InExtendAll(edges, start, p, v);
      InExtensions(edges, start, w, v);
    }
  }

  lemma StepToLevelBelow(edges: seq<Edge>, start: ClaimRef, k: nat, w: Walk)
    ensures w in Walks(edges, start, k + 1) <==>
            w.Then? && w.before in Walks(edges, start, k) && Leaves(edges, w.before.End(edges, start), w.edge)
  {
    InExtendAll(edges, start, Walks(edges, start, k), w);
  }

  /** The query's walks of length `k` are all the walks of length `k`. */
  lemma {:induction false} WalksAreAll(edges: seq<Edge>, start: ClaimRef, k: nat, w: Walk)
    ensures w in Walks(edges, start, k) <==> w.Length() == k && IsWalk(edges, start, w)
  {
    hide ExtendAll, Leaves;
    if k == 0 {
      assert w in [Here] <==> w == Here;
    } else {
      StepToLevelBelow(edges, start, k - 1, w);
      if w.Then? {
        WalksAreAll(edges, start, k - 1, w.before);
      }
    }
  }

  lemma NoneRepeats<T>(s: seq<T>)
    requires s == []
    ensures Distinct(s)
  {
  }

  lemma ConcatNoRepeats<T>(a: seq<T>, b: seq<T>)
    requires Distinct(a) && Distinct(b) && forall x :: x in b ==> x !in a
    ensures Distinct(a + b)
  {
    forall i, j | 0 <= i < j < |a + b| ensures (a + b)[i] != (a + b)[j] {
      if i < |a| <= j {
        assert (a + b)[j] in b;
      }
    }
  }

  lemma {:induction false} LeavingNoRepeats(edges: seq<Edge>, c: ClaimRef, n: nat)
    requires n <= |edges|
    ensures Distinct(Leaving(edges, c, n))
  {
    if n > 0 {
      LeavingNoRepeats(edges, c, n - 1);
    }
  }

  lemma {:induction false} ExtendAllNoRepeats(edges: seq<Edge>, start: ClaimRef, ws: seq<Walk>)
    requires Distinct(ws)
    ensures Distinct(ExtendAll(edges, start, ws))
  {
    if ws != [] {
      var p, w := ws[..|ws| - 1], ws[|ws| - 1];
      ExtendAllNoRepeats(edges, start, p);
      var a, b := ExtendAll(edges, start, p), Extensions(edges, start, w);
      LeavingNoRepeats(edges, w.End(edges, start), |edges|);
      forall v | v in b ensures v !in a {
        InExtensions(edges, start, w, v);
        InExtendAll(edges, start, p, v);
      }
      ConcatNoRepeats(a, b);
    }
  }

  lemma {:induction false} WalksNoRepeats(edges: seq<Edge>, start: ClaimRef, k: nat)
    ensures Distinct(Walks(edges, start, k))
  {
    if k > 0 {
      WalksNoRepeats(edges, start, k - 1);
      ExtendAllNoRepeats(edges, start, Walks(edges, start, k - 1));
    }
  }

  /** The walks of length 1 to `k`, shortest first. */
  function AllWalks(edges: seq<Edge>, start: ClaimRef, k: nat): seq<Walk> {
    if k == 0 then [] else AllWalks(edges, start, k - 1) + Walks(edges, start, k)
  }

  /** They are all the walks up to that length, each once. */
  lemma {:induction false} AllWalksAreAll(edges: seq<Edge>, start: ClaimRef, k: nat)
    ensures forall w :: w in AllWalks(edges, start, k) <==> 1 <= w.Length() <= k && IsWalk(edges, start, w)
    ensures Distinct(AllWalks(edges, start, k))
  {
    hide Walks, IsWalk, Distinct;
    if k == 0 {
      NoneRepeats<Walk>([]);
    } else {
      AllWalksAreAll(edges, start, k - 1);
      WalksNoRepeats(edges, start, k);
      var shorter, longest := AllWalks(edges, start, k - 1), Walks(edges, start, k);
      forall w ensures w in longest <==> w.Length() == k && IsWalk(edges, start, w) {
        WalksAreAll(edges, start, k, w);
      }
      ConcatNoRepeats(shorter, longest);
      NextWalks(edges, start, k - 1);
    }
  }

  // ---- The query ----------------------------------------------------------------------------

  datatype Row = Row(edge: nat, depth: nat)

  predicate NonEmpty(ws: seq<Walk>) {
    forall k :: 0 <= k < |ws| ==> ws[k].Then?
  }

  /** One row for each walk: its last edge, and its length. */
  function RowsOf(ws: seq<Walk>): (r: seq<Row>)
    requires NonEmpty(ws)
    ensures |r| == |ws| && forall k :: 0 <= k < |ws| ==> r[k] == Row(ws[k].edge, ws[k].Length())
  {
    seq(|ws|, k requires 0 <= k < |ws| => Row(ws[k].edge, ws[k].Length()))
  }

  function RowsLeaving(es: seq<nat>, depth: nat): (r: seq<Row>)
    ensures |r| == |es| && forall k :: 0 <= k < |es| ==> r[k] == Row(es[k], depth)
  {
    seq(|es|, k requires 0 <= k < |es| => Row(es[k], depth))
  }

  lemma LevelShape(edges: seq<Edge>, start: ClaimRef, k: nat, w: Walk)
    requires w in Walks(edges, start, k)
    ensures w.Length() == k && (w.Then? ==> w.edge < |edges|)
  {
    WalksAreAll(edges, start, k, w);
  }

  lemma NextWalks(edges: seq<Edge>, start: ClaimRef, k: nat)
    ensures Walks(edges, start, k + 1) == ExtendAll(edges, start, Walks(edges, start, k))
    ensures AllWalks(edges, start, k + 1) == AllWalks(edges, start, k) + Walks(edges, start, k + 1)
  {
  }

  lemma {:induction false} NothingBeyond(edges: seq<Edge>, start: ClaimRef, d: nat, k: nat)
    requires d <= k && Walks(edges, start, d + 1) == []
    ensures AllWalks(edges, start, k) == AllWalks(edges, start, d)
    ensures Walks(edges, start, k + 1) == []
  {
    if k > d {
      NothingBeyond(edges, start, d, k - 1);
      NextWalks(edges, start, k - 1);
      NextWalks(edges, start, k);
    }
  }

  /** Of level `d`, `i` walks are done, and their extensions wait behind the rest of the level. */
  ghost predicate Underway(edges: seq<Edge>, start: ClaimRef, d: nat, i: nat, waiting: seq<Walk>, done: seq<Walk>) {
    var level := Walks(edges, start, d);
    && 1 <= d <= MAX_DEPTH && i <= |level|
    && waiting == level[i..] + (if d < MAX_DEPTH then ExtendAll(edges, start, level[..i]) else [])
    && done == AllWalks(edges, start, d - 1) + level[..i]
  }

  /** A finished level is replaced by its extensions. */
  lemma NextLevel(edges: seq<Edge>, start: ClaimRef, d: nat, waiting: seq<Walk>, done: seq<Walk>)
    requires Underway(edges, start, d, |Walks(edges, start, d)|, waiting, done) && waiting != []
    ensures d < MAX_DEPTH && Underway(edges, start, d + 1, 0, waiting, done) && Walks(edges, start, d + 1) == waiting
  {
    var level := Walks(edges, start, d);
    assert level[..|level|] == level && level[|level|..] == [];
    if d < MAX_DEPTH {
      var next := Walks(edges, start, d + 1);
      assert next[0..] == next && next[..0] == [];
      assert waiting == next + [];
    }
  }

  lemma ExtendOneMore(edges: seq<Edge>, start: ClaimRef, level: seq<Walk>, i: nat)
    requires i < |level|
    ensures ExtendAll(edges, start, level[..i + 1]) == ExtendAll(edges, start, level[..i]) + Extensions(edges, start, level[i])
  {
    assert level[..i + 1][..i] == level[..i];
  }

  lemma Regroup<T>(a: seq<T>, x: T, rest: seq<T>, b: seq<T>, c: seq<T>)
    requires a == [x] + rest
    ensures (a + b)[1..] + c == rest + (b + c)
  {
  }

  /** The walks still waiting after one row. */
  function StillWaiting(edges: seq<Edge>, start: ClaimRef, d: nat, waiting: seq<Walk>): seq<Walk>
    requires waiting != []
  {
    waiting[1..] + if d < MAX_DEPTH then Extensions(edges, start, waiting[0]) else []
  }

  lemma OneRow(edges: seq<Edge>, start: ClaimRef, d: nat, i: nat, waiting: seq<Walk>, done: seq<Walk>)
    requires Underway(edges, start, d, i, waiting, done) && i < |Walks(edges, start, d)|
    ensures |waiting| > 0 && waiting[0].Length() == d && waiting[0].edge < |edges|
    ensures Underway(edges, start, d, i + 1, StillWaiting(edges, start, d, waiting), done + [waiting[0]])
  {
    hide Walks, ExtendAll, AllWalks, Extensions, IsWalk;
    var level := Walks(edges, start, d);
    LevelShape(edges, start, d, level[i]);
    assert level[..i + 1] == level[..i] + [level[i]];
    assert level[i..] == [level[i]] + level[i + 1..];
    ExtendOneMore(edges, start, level, i);
    var b := if d < MAX_DEPTH then ExtendAll(edges, start, level[..i]) else [];
    var c := if d < MAX_DEPTH then Extensions(edges, start, level[i]) else [];
    Regroup(level[i..], level[i], level[i + 1..], b, c);
  }

  lemma AllDone(edges: seq<Edge>, start: ClaimRef, d: nat, i: nat, done: seq<Walk>)
    requires Underway(edges, start, d, i, [], done)
    ensures done == AllWalks(edges, start, MAX_DEPTH)
  {
    hide Walks, ExtendAll, AllWalks;
    var level := Walks(edges, start, d);
    NextWalks(edges, start, d - 1);
    NextWalks(edges, start, d);
    assert level[i..] == [];
    assert level[..i] == level;
    if d < MAX_DEPTH {
      NothingBeyond(edges, start, d, MAX_DEPTH);
    }
  }

  lemma FirstLevel(edges: seq<Edge>, start: ClaimRef)
    ensures Underway(edges, start, 1, 0, Walks(edges, start, 1), [])
    ensures Walks(edges, start, 1) == Extensions(edges, start, Here)
  {
    var none: seq<Walk> := [];
    assert Walks(edges, start, 0) == [Here] && [Here][..0] == none;
    assert ExtendAll(edges, start, [Here]) == ExtendAll(edges, start, none) + Extensions(edges, start, Here);
    var level := Walks(edges, start, 1);
    assert level[0..] == level && level[..0] == [];
    assert ExtendAll(edges, start, none) == [];
  }

  lemma RowsOfConcat(a: seq<Walk>, b: seq<Walk>)
    requires NonEmpty(a) && NonEmpty(b)
    ensures NonEmpty(a + b) && RowsOf(a + b) == RowsOf(a) + RowsOf(b)
  {
  }

  lemma RowsOfRest(a: seq<Walk>)
    requires NonEmpty(a) && a != []
    ensures NonEmpty(a[1..]) && RowsOf(a[1..]) == RowsOf(a)[1..]
  {
  }

  lemma RowsOnward(w: Walk, es: seq<nat>)
    ensures NonEmpty(Onward(w, es)) && RowsOf(Onward(w, es)) == RowsLeaving(es, w.Length() + 1)
  {
  }

  /** The rows a row puts behind the queue. */
  function Successors(edges: seq<Edge>, row: Row): seq<Row> {
    if row.depth < MAX_DEPTH && row.edge < |edges| then
      RowsLeaving(Leaving(edges, edges[row.edge].to, |edges|), row.depth + 1)
    else []
  }

  lemma RowsWaiting(edges: seq<Edge>, start: ClaimRef, d: nat, waiting: seq<Walk>)
    requires waiting != [] && NonEmpty(waiting) && waiting[0].Length() == d && waiting[0].edge < |edges|
    ensures NonEmpty(StillWaiting(edges, start, d, waiting))
    ensures RowsOf(StillWaiting(edges, start, d, waiting)) == RowsOf(waiting)[1..] + Successors(edges, RowsOf(waiting)[0])
  {
    var w := waiting[0];
    RowsOfRest(waiting);
    if d < MAX_DEPTH {
      RowsOnward(w, Leaving(edges, w.End(edges, start), |edges|));
      RowsOfConcat(waiting[1..], Extensions(edges, start, w));
    }
  }

  /** The queue and the result hold the rows of the walks that wait and those that are done. */
  ghost predicate Rows(waiting: seq<Walk>, done: seq<Walk>, queue: seq<Row>, rows: seq<Row>) {
    && NonEmpty(waiting) && queue == RowsOf(waiting)
    && NonEmpty(done) && rows == RowsOf(done)
  }

  lemma RowsStep(edges: seq<Edge>, start: ClaimRef, d: nat, waiting: seq<Walk>, done: seq<Walk>, queue: seq<Row>, rows: seq<Row>)
    requires Rows(waiting, done, queue, rows) && waiting != [] && waiting[0].Length() == d && waiting[0].edge < |edges|
    ensures Rows(StillWaiting(edges, start, d, waiting), done + [waiting[0]],
                 queue[1..] + Successors(edges, queue[0]), rows + [queue[0]])
  {
    RowsWaiting(edges, start, d, waiting);
    RowsOfConcat(done, [waiting[0]]);
  }

  /** The query's queue at walk `i` of level `d`. */
  ghost predicate InQuery(edges: seq<Edge>, start: ClaimRef, d: nat, i: nat, waiting: seq<Walk>, done: seq<Walk>,
                          queue: seq<Row>, rows: seq<Row>) {
    Underway(edges, start, d, i, waiting, done) && Rows(waiting, done, queue, rows)
  }

  ghost function Remaining(edges: seq<Edge>, start: ClaimRef, d: nat, i: nat): int {
    |Walks(edges, start, d)| - i
  }

  lemma FirstRows(edges: seq<Edge>, start: ClaimRef)
    ensures Rows(Extensions(edges, start, Here), [], RowsLeaving(Leaving(edges, start, |edges|), 1), [])
  {
    RowsOnward(Here, Leaving(edges, start, |edges|));
  }

  lemma QueryBegins(edges: seq<Edge>, start: ClaimRef)
    ensures InQuery(edges, start, 1, 0, Walks(edges, start, 1), [], RowsLeaving(Leaving(edges, start, |edges|), 1), [])
  {
    FirstLevel(edges, start);
    FirstRows(edges, start);
  }

  lemma StepInLevel(edges: seq<Edge>, start: ClaimRef, d: nat, i: nat, waiting: seq<Walk>, done: seq<Walk>,
                    queue: seq<Row>, rows: seq<Row>)
    requires InQuery(edges, start, d, i, waiting, done, queue, rows) && i < |Walks(edges, start, d)|
    ensures |waiting| > 0 && |queue| > 0
    ensures InQuery(edges, start, d, i + 1, StillWaiting(edges, start, d, waiting), done + [waiting[0]],
                    queue[1..] + Successors(edges, queue[0]), rows + [queue[0]])
  {
    OneRow(edges, start, d, i, waiting, done);
    RowsStep(edges, start, d, waiting, done, queue, rows);
  }

  lemma StepToLevel(edges: seq<Edge>, start: ClaimRef, d: nat, i: nat, waiting: seq<Walk>, done: seq<Walk>,
                    queue: seq<Row>, rows: seq<Row>) returns (d': nat, i': nat)
    requires InQuery(edges, start, d, i, waiting, done, queue, rows) && queue != []
    ensures InQuery(edges, start, d', i', waiting, done, queue, rows) && i' < |Walks(edges, start, d')|
    ensures (d' == d && i' == i) || d < d' <= MAX_DEPTH
  {
    hide Walks, ExtendAll, AllWalks, RowsOf;
    d', i' := d, i;
    if i == |Walks(edges, start, d)| {
      NextLevel(edges, start, d, waiting, done);
      d', i' := d + 1, 0;
    }
  }

  lemma QueryStep(edges: seq<Edge>, start: ClaimRef, d: nat, i: nat, waiting: seq<Walk>, done: seq<Walk>,
                  queue: seq<Row>, rows: seq<Row>)
    returns (d': nat, i': nat, waiting': seq<Walk>, done': seq<Walk>)
    requires InQuery(edges, start, d, i, waiting, done, queue, rows) && queue != []
    ensures InQuery(edges, start, d', i', waiting', done', queue[1..] + Successors(edges, queue[0]), rows + [queue[0]])
    ensures (d' == d && Remaining(edges, start, d', i') < Remaining(edges, start, d, i)) || d < d' <= MAX_DEPTH
  {
    var at: nat;
    d', at := StepToLevel(edges, start, d, i, waiting, done, queue, rows);
    StepInLevel(edges, start, d', at, waiting, done, queue, rows);
    i', waiting', done' := at + 1, StillWaiting(edges, start, d', waiting), done + [waiting[0]];
  }

  lemma QueryEnds(edges: seq<Edge>, start: ClaimRef, d: nat, i: nat, waiting: seq<Walk>, done: seq<Walk>, rows: seq<Row>)
    requires InQuery(edges, start, d, i, waiting, done, [], rows)
    ensures IsTraversal(rows, edges, start)
  {
    AllDone(edges, start, d, i, done);
  }

  ghost predicate IsTraversal(rows: seq<Row>, edges: seq<Edge>, start: ClaimRef) {
    var ws := AllWalks(edges, start, MAX_DEPTH);
    NonEmpty(ws) && rows == RowsOf(ws)
  }

  /** The recursive query: a queue of rows, each of which puts those of its successors behind it. It
      ends on every set of edges, with a row for each walk of length 1 to 64, shortest first. */
  method Traverse(edges: seq<Edge>, start: ClaimRef) returns (rows: seq<Row>)
    ensures IsTraversal(rows, edges, start)
  {
    rows := [];
    var queue := RowsLeaving(Leaving(edges, start, |edges|), 1);
    QueryBegins(edges, start);
    ghost var d: nat, i: nat, waiting, done := 1, 0, Walks(edges, start, 1), [];
    while queue != []
      invariant InQuery(edges, start, d, i, waiting, done, queue, rows)
      decreases MAX_DEPTH - d, Remaining(edges, start, d, i)
    {
      d, i, waiting, done := QueryStep(edges, start, d, i, waiting, done, queue, rows);
      var row := queue[0];
      rows, queue := rows + [row], queue[1..] + Successors(edges, row);
    }
    QueryEnds(edges, start, d, i, waiting, done, rows);
  }

  // ---- The answer ---------------------------------------------------------------------------

  predicate KnownRow(edges: seq<Edge>, r: Row) {
    r.edge < |edges|
  }

  /** ORDER BY depth, then creation time. */
  function RowBefore(edges: seq<Edge>): (Row, Row) -> bool {
    (a: Row, b: Row) =>
      || a.depth < b.depth
      || (a.depth == b.depth && a.edge < |edges| && b.edge < |edges| && edges[a.edge].createdAt < edges[b.edge].createdAt)
  }

  lemma RowsKnown(edges: seq<Edge>, start: ClaimRef, rows: seq<Row>)
    requires IsTraversal(rows, edges, start)
    ensures forall k :: 0 <= k < |rows| ==> KnownRow(edges, rows[k])
  {
    AllWalksAreAll(edges, start, MAX_DEPTH);
    var ws := AllWalks(edges, start, MAX_DEPTH);
    forall k | 0 <= k < |rows| ensures KnownRow(edges, rows[k]) {
      assert ws[k] in ws;
    }
  }

  function EdgesAt(edges: seq<Edge>, rows: seq<Row>): seq<Edge>
    requires forall k :: 0 <= k < |rows| ==> KnownRow(edges, rows[k])
  {
    seq(|rows|, k requires 0 <= k < |rows| && KnownRow(edges, rows[k]) => edges[rows[k].edge])
  }

  /** A lineage: the traversal's rows in order, ties in any order, and their edges. */
  ghost predicate IsLineage(lineage: seq<Edge>, rows: seq<Row>, edges: seq<Edge>, start: ClaimRef) {
    && (exists found :: IsTraversal(found, edges, start) && multiset(rows) == multiset(found))
    && Sorted(rows, RowBefore(edges))
    && (forall k :: 0 <= k < |rows| ==> KnownRow(edges, rows[k]))
    && lineage == EdgesAt(edges, rows)
  }

  lemma RowBeforeOrders(edges: seq<Edge>, rows: seq<Row>, x: Row)
    requires forall k :: 0 <= k < |rows| ==> KnownRow(edges, rows[k])
    requires Sorted(rows, RowBefore(edges)) && KnownRow(edges, x)
    ensures Sorted(Insert(x, rows, RowBefore(edges)), RowBefore(edges))
    ensures forall k :: 0 <= k <= |rows| ==> KnownRow(edges, Insert(x, rows, RowBefore(edges))[k])
  {
    var before := RowBefore(edges);
    var all := Insert(x, rows, before);
    forall k | 0 <= k < |all| ensures KnownRow(edges, all[k]) {
      assert all[k] in multiset(all);
      assert all[k] == x || all[k] in rows;
    }
    if rows == [] {
    } else if before(x, rows[0]) {
      forall j | 0 <= j < |rows| ensures !before(rows[j], x) {
        assert j > 0 ==> !before(rows[j], rows[0]);
      }
    } else {
      RowBeforeOrders(edges, rows[1..], x);
      var t := Insert(x, rows[1..], before);
      forall k | 0 <= k < |t| ensures !before(t[k], rows[0]) {
        assert t[k] in multiset(t);
        assert t[k] == x || t[k] in rows[1..];
      }
    }
  }

  method OrderRows(edges: seq<Edge>, found: seq<Row>) returns (rows: seq<Row>)
    requires forall k :: 0 <= k < |found| ==> KnownRow(edges, found[k])
    ensures multiset(rows) == multiset(found) && Sorted(rows, RowBefore(edges))
    ensures forall k :: 0 <= k < |rows| ==> KnownRow(edges, rows[k])
  {
    rows := [];
    for n := 0 to |found|
      invariant multiset(rows) == multiset(found[..n]) && Sorted(rows, RowBefore(edges))
      invariant forall k :: 0 <= k < |rows| ==> KnownRow(edges, rows[k])
    {
      assert found[..n + 1] == found[..n] + [found[n]];
      RowBeforeOrders(edges, rows, found[n]);
      rows := Insert(found[n], rows, RowBefore(edges));
    }
    assert found[..|found|] == found;
  }

  method LoadLineage(edges: seq<Edge>, start: ClaimRef) returns (lineage: seq<Edge>)
    ensures exists rows :: IsLineage(lineage, rows, edges, start)
  {
    var found := Traverse(edges, start);
    RowsKnown(edges, start, found);
    var ordered := OrderRows(edges, found);
    lineage := EdgesAt(edges, ordered);
    assert IsLineage(lineage, ordered, edges, start);
  }

  /** Row `k` of a lineage is the end of a walk. */
  ghost predicate Returned(edges: seq<Edge>, start: ClaimRef, e: nat) {
    exists w :: IsWalk(edges, start, w) && 1 <= w.Length() <= 64 && w.edge == e
  }

  /** The rows are in one-to-one correspondence with the walks of length 1 to 64, and come by depth. */
  lemma LineageIsWalks(lineage: seq<Edge>, rows: seq<Row>, edges: seq<Edge>, start: ClaimRef)
    requires IsLineage(lineage, rows, edges, start)
    ensures var ws := AllWalks(edges, start, MAX_DEPTH);
            && |lineage| == |ws| && Distinct(ws) && NonEmpty(ws) && multiset(rows) == multiset(RowsOf(ws))
            && (forall w :: w in ws <==> IsWalk(edges, start, w) && 1 <= w.Length() <= 64)
    ensures forall i, j :: 0 <= i < j < |rows| ==>
              rows[i].depth < rows[j].depth || (rows[i].depth == rows[j].depth && lineage[i].createdAt <= lineage[j].createdAt)
    ensures forall k :: 0 <= k < |rows| ==>
              rows[k].edge < |edges| && lineage[k] == edges[rows[k].edge]
    ensures forall e :: (exists k :: 0 <= k < |rows| && rows[k].edge == e) <==> Returned(edges, start, e)
  {
    hide Walks, AllWalks, IsWalk;
    AllWalksAreAll(edges, start, MAX_DEPTH);
    var ws := AllWalks(edges, start, MAX_DEPTH);
    assert |rows| == |multiset(rows)| == |multiset(RowsOf(ws))|;
    forall i, j | 0 <= i < j < |rows|
      ensures rows[i].depth < rows[j].depth || (rows[i].depth == rows[j].depth && lineage[i].createdAt <= lineage[j].createdAt)
    {
      assert !RowBefore(edges)(rows[j], rows[i]);
    }
    forall e | Returned(edges, start, e) ensures exists k :: 0 <= k < |rows| && rows[k].edge == e {
      var w :| IsWalk(edges, start, w) && 1 <= w.Length() <= MAX_DEPTH && w.edge == e;
      var n :| 0 <= n < |ws| && ws[n] == w;
      assert RowsOf(ws)[n] in multiset(rows);
    }
    forall k | 0 <= k < |rows| ensures Returned(edges, start, rows[k].edge) {
      assert rows[k] in multiset(RowsOf(ws));
      var n :| 0 <= n < |ws| && RowsOf(ws)[n] == rows[k];
      assert ws[n] in ws;
    }
  }

  /** Every edge returned is a DerivedFrom edge, from the start or from where another one leads. */
  lemma ReturnedLeaves(edges: seq<Edge>, start: ClaimRef, e: nat)
    requires Returned(edges, start, e)
    ensures e < |edges| && edges[e].kind == DerivedFrom
    ensures edges[e].from == start
            || exists f: nat :: Returned(edges, start, f) && f < |edges| && edges[f].to == edges[e].from
  {
    var w :| IsWalk(edges, start, w) && 1 <= w.Length() <= 64 && w.edge == e;
    if w.before.Then? {
      assert Returned(edges, start, w.before.edge);
    }
  }

  // ---- When the answer is complete ----------------------------------------------------------

  /** Every edge that leaves the start, or leaves where a returned edge leads, is returned. */
  ghost predicate Complete(edges: seq<Edge>, start: ClaimRef) {
    && (forall e: nat :: Leaves(edges, start, e) ==> Returned(edges, start, e))
    && (forall e: nat, f: nat :: Returned(edges, start, e) && e < |edges| && Leaves(edges, edges[e].to, f) ==> Returned(edges, start, f))
  }

  /** Every ancestor edge can be reached in 64 steps. */
  ghost predicate Shallow(edges: seq<Edge>, start: ClaimRef) {
    forall w: Walk :: w.Then? && IsWalk(edges, start, w) ==> Returned(edges, start, w.edge)
  }

  lemma {:induction false} CompleteReaches(edges: seq<Edge>, start: ClaimRef, w: Walk)
    requires Complete(edges, start) && w.Then? && IsWalk(edges, start, w)
    ensures Returned(edges, start, w.edge)
  {
    if w.before.Then? {
      CompleteReaches(edges, start, w.before);
    }
  }

  /** The bound loses nothing exactly when every ancestor edge is within 64 steps. */
  lemma CompleteExactly(edges: seq<Edge>, start: ClaimRef)
    ensures Complete(edges, start) <==> Shallow(edges, start)
  {
    if Complete(edges, start) {
      forall w: Walk | w.Then? && IsWalk(edges, start, w) ensures Returned(edges, start, w.edge) {
        CompleteReaches(edges, start, w);
      }
    }
    if Shallow(edges, start) {
      forall e: nat | Leaves(edges, start, e) ensures Returned(edges, start, e) {
        assert IsWalk(edges, start, Here) && Here.End(edges, start) == start;
        assert IsWalk(edges, start, Then(Here, e)) && Then(Here, e).Length() == 1;
      }
      forall e: nat, f: nat | Returned(edges, start, e) && e < |edges| && Leaves(edges, edges[e].to, f)
        ensures Returned(edges, start, f)
      {
        var w :| IsWalk(edges, start, w) && 1 <= w.Length() <= MAX_DEPTH && w.edge == e;
        assert IsWalk(edges, start, Then(w, f));
      }
    }
  }

  // ---- Stores built by ingest ---------------------------------------------------------------

  datatype Ingested = Ingested(ref: ClaimRef, claim: Claim, d: Disposition, now: Instant)

  function InsertEdges(t: Option<Tables>, es: seq<Edge>): Option<Tables> {
    if es == [] then t
    else
      var before := InsertEdges(t, es[..|es| - 1]);
      if before.None? then None else InsertEdge(es[|es| - 1])(before.value)
  }

  /** One ingest: claim, ledger entry and lineage edges under the schema's constraints, or nothing. */
  function DoIngest(t: Tables, s: Ingested): Tables {
    var withClaim := InsertClaim(s.ref, s.claim)(t);
    if withClaim.None? then t
    else
      var done := InsertEdges(InsertEntry(CommitEntry(s.ref, s.d, s.now))(withClaim.value),
                              LineageEdges(s.ref, s.claim.derivedFrom, s.now));
      if done.None? then t else done.value
  }

  function Built(steps: seq<Ingested>): Tables {
    if steps == [] then Tables(map[], [], [], [], [])
    else DoIngest(Built(steps[..|steps| - 1]), steps[|steps| - 1])
  }

  /** The position of the ingest that stored the claim. */
  function Rank(steps: seq<Ingested>, c: ClaimRef): nat {
    if steps == [] then 0
    else if c in Built(steps[..|steps| - 1]).claims then Rank(steps[..|steps| - 1], c)
    else |steps|
  }

  lemma {:induction false} EdgesInserted(t: Tables, es: seq<Edge>)
    requires InsertEdges(Some(t), es).Some?
    ensures var t' := InsertEdges(Some(t), es).value;
            && t'.claims == t.claims && t'.edges == t.edges + es
            && forall k :: 0 <= k < |es| ==> es[k].from in t.claims && es[k].to in t.claims
  {
    if es != [] {
      EdgesInserted(t, es[..|es| - 1]);
      assert es == es[..|es| - 1] + [es[|es| - 1]];
    } else {
      assert t.edges + es == t.edges;
    }
  }

  /** The edge is a DerivedFrom edge to a claim stored before, or to the claim itself. */
  ghost predicate Descends(steps: seq<Ingested>, e: Edge) {
    && e.kind == DerivedFrom && e.from in Built(steps).claims && e.to in Built(steps).claims
    && (e.from != e.to ==> Rank(steps, e.to) < Rank(steps, e.from))
  }

  lemma {:induction false} RankInBounds(steps: seq<Ingested>, c: ClaimRef)
    ensures Rank(steps, c) <= |steps|
    ensures c in Built(steps).claims ==> Rank(steps, c) > 0
  {
    if steps != [] {
      RankInBounds(steps[..|steps| - 1], c);
    }
  }

  lemma IngestAdds(t: Tables, s: Ingested)
    ensures DoIngest(t, s) == t ||
            (&& s.ref !in t.claims
             && DoIngest(t, s).claims == t.claims[s.ref := s.claim]
             && DoIngest(t, s).edges == t.edges + LineageEdges(s.ref, s.claim.derivedFrom, s.now)
             && forall k :: 0 <= k < |s.claim.derivedFrom| ==> s.claim.derivedFrom[k] == s.ref || s.claim.derivedFrom[k] in t.claims)
  {
    if s.ref !in t.claims {
      var t1 := t.(claims := t.claims[s.ref := s.claim], ledger := t.ledger + [CommitEntry(s.ref, s.d, s.now)]);
      var es := LineageEdges(s.ref, s.claim.derivedFrom, s.now);
      assert InsertEntry(CommitEntry(s.ref, s.d, s.now))(InsertClaim(s.ref, s.claim)(t).value) == Some(t1);
      if InsertEdges(Some(t1), es).Some? {
        EdgesInserted(t1, es);
        forall k | 0 <= k < |s.claim.derivedFrom| ensures s.claim.derivedFrom[k] == s.ref || s.claim.derivedFrom[k] in t.claims {
          assert es[k].to in t1.claims;
        }
      }
    }
  }

  lemma {:induction false} EdgesDescend(steps: seq<Ingested>)
    ensures forall k :: 0 <= k < |Built(steps).edges| ==> Descends(steps, Built(steps).edges[k])
  {
    hide DoIngest, InsertEdges;
    if steps != [] {
      var p, s := steps[..|steps| - 1], steps[|steps| - 1];
      EdgesDescend(p);
      IngestAdds(Built(p), s);
      var t, es := Built(steps), LineageEdges(s.ref, s.claim.derivedFrom, s.now);
      forall k | 0 <= k < |t.edges| ensures Descends(steps, t.edges[k]) {
        if k < |Built(p).edges| {
          assert Descends(p, Built(p).edges[k]);
        } else {
          assert t.edges[k] == es[k - |Built(p).edges|];
          RankInBounds(p, t.edges[k].to);
        }
      }
    }
  }

  ghost predicate Acyclic(edges: seq<Edge>) {
    forall c, w: Walk :: w.Then? && IsWalk(edges, c, w) ==> w.End(edges, c) != c
  }

  ghost predicate NoSelfEdge(edges: seq<Edge>) {
    forall k :: 0 <= k < |edges| ==> edges[k].from != edges[k].to
  }

  lemma {:induction false} WalkDescends(steps: seq<Ingested>, start: ClaimRef, w: Walk)
    requires NoSelfEdge(Built(steps).edges) && IsWalk(Built(steps).edges, start, w)
    ensures Rank(steps, w.End(Built(steps).edges, start)) + w.Length() <= Rank(steps, start)
  {
    if w.Then? {
      WalkDescends(steps, start, w.before);
      EdgesDescend(steps);
      assert Descends(steps, Built(steps).edges[w.edge]);
    }
  }

  /** The claim graph of a store built by ingest has no cycle, as long as no ingest names its own new
      reference as a parent; the schema alone would let that pass. */
  lemma AcyclicExactly(steps: seq<Ingested>)
    ensures Acyclic(Built(steps).edges) <==> NoSelfEdge(Built(steps).edges)
  {
    var edges := Built(steps).edges;
    EdgesDescend(steps);
    if NoSelfEdge(edges) {
      forall c, w: Walk | w.Then? && IsWalk(edges, c, w) ensures w.End(edges, c) != c {
        WalkDescends(steps, c, w);
      }
    } else {
      var k :| 0 <= k < |edges| && edges[k].from == edges[k].to;
      assert Descends(steps, edges[k]);
      assert Here.End(edges, edges[k].from) == edges[k].from;
      assert Leaves(edges, edges[k].from, k) && IsWalk(edges, edges[k].from, Here);
      assert IsWalk(edges, edges[k].from, Then(Here, k));
    }
  }

  /** On such a store a claim among the first 65 has its complete lineage returned, and in general one
      whose chains of parents are no longer than 64. */
  lemma ShortChainsAreComplete(steps: seq<Ingested>, start: ClaimRef)
    requires NoSelfEdge(Built(steps).edges)
    requires || Rank(steps, start) <= 65
             || forall w :: IsWalk(Built(steps).edges, start, w) ==> w.Length() <= 64
    ensures Complete(Built(steps).edges, start)
  {
    var edges := Built(steps).edges;
    forall w: Walk | w.Then? && IsWalk(edges, start, w) ensures Returned(edges, start, w.edge) {
      WalkDescends(steps, start, w);
      EdgesDescend(steps);
      assert Descends(steps, edges[w.edge]);
      RankInBounds(steps, edges[w.edge].to);
    }
    CompleteExactly(edges, start);
  }
}
