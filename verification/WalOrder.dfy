/**
  The order of segments (OpenSegment, RollSegment, ListSegments and ReopenLatestSegment in
  src/persist/Persister.cc). Files are found again by name only, so recovery reads them in the order of
  the index in their names; this is the order in which they were written as long as no entry is appended
  below the first index of the open segment.
 */
module WalOrder {
  import opened RaftTypes
  import opened WalReplay

  /** A segment file: the first index of its name, the last one once it is closed, and what it holds. */
  datatype Seg = Seg(first: int, last: int, open: bool, entries: seq<Entry>)

  /** The directory in order of creation, the segment being written, and the last index written to it. */
  datatype Dir = Dir(segs: seq<Seg>, cur: nat, segLast: int)

  datatype Op = Put(entry: Entry) | RollOver | CrashInRoll | Restart

  // ------------------------------------------------------------------ listing

  /** The comparison of ListSegments: by first index, closed before open. */
  predicate Before(a: Seg, b: Seg) {
    a.first < b.first || (a.first == b.first && !a.open && b.open)
  }

  function Insert(l: seq<Seg>, x: Seg): seq<Seg>
    decreases |l|
  {
    if l == [] || !Before(x, l[|l| - 1]) then l + [x] else Insert(l[..|l| - 1], x) + [l[|l| - 1]]
  }

  /** The directory in the order in which recovery reads it. */
  function Listing(segs: seq<Seg>): seq<Seg>
    decreases |segs|
  {
    if segs == [] then [] else Insert(Listing(segs[..|segs| - 1]), segs[|segs| - 1])
  }

  /** Recovery reads all segments, by first index, and of two with the same one the closed one first. */
  predicate InReadingOrder(a: Seg, b: Seg) {
    a.first < b.first || (a.first == b.first && (a.open ==> b.open))
  }

  predicate AllInReadingOrder(l: seq<Seg>) {
    forall i, j :: 0 <= i < j < |l| ==> InReadingOrder(l[i], l[j])
  }

  lemma SortedSnoc(l: seq<Seg>, x: Seg)
    requires AllInReadingOrder(l) && forall y <- l :: InReadingOrder(y, x)
    ensures AllInReadingOrder(l + [x])
  {}

  lemma {:induction false} InsertSorted(l: seq<Seg>, x: Seg)
    requires AllInReadingOrder(l)
    ensures multiset(Insert(l, x)) == multiset(l) + multiset{x} && AllInReadingOrder(Insert(l, x))
    decreases |l|
  {
    if l != [] {
      var before, y := l[..|l| - 1], l[|l| - 1];
      assert l == before + [y];
      assert forall z <- before :: InReadingOrder(z, y);
      if Before(x, y) {
        InsertSorted(before, x);
        var r := Insert(before, x);
        forall z <- r ensures InReadingOrder(z, y) {
          assert z in multiset(r);
          assert z == x || z in multiset(before);
        }
        SortedSnoc(r, y);
      } else {
        SortedSnoc(l, x);
      }
    }
  }

  lemma {:induction false} ListingSorted(segs: seq<Seg>)
    ensures var l := Listing(segs);
      multiset(l) == multiset(segs) && AllInReadingOrder(l)
    decreases |segs|
  {
    if segs != [] {
      var before, x := segs[..|segs| - 1], segs[|segs| - 1];
      assert segs == before + [x];
      ListingSorted(before);
      InsertSorted(Listing(before), x);
    }
  }

  predicate FirstsIncrease(segs: seq<Seg>) {
    forall i, j :: 0 <= i < j < |segs| ==> segs[i].first < segs[j].first
  }

  lemma {:induction false} ListingInOrder(segs: seq<Seg>)
    requires FirstsIncrease(segs)
    ensures Listing(segs) == segs
    decreases |segs|
  {
    if segs != [] {
      ListingInOrder(segs[..|segs| - 1]);
    }
  }

  predicate Sorted(l: seq<Seg>) {
    forall i, j :: 0 <= i < j < |l| ==> !Before(l[j], l[i])
  }

  /** Whatever order the file system lists the files in, sorting them gives the order of creation. */
  lemma {:induction false} AnyListing(l: seq<Seg>, segs: seq<Seg>)
    requires FirstsIncrease(segs) && multiset(l) == multiset(segs)
    requires Sorted(l)
    ensures l == segs
    decreases |segs|
  {
    hide FirstsIncrease, Sorted;
    SameLength(l, segs);
    if segs != [] {
      var k := |segs| - 1;
      LastIsGreatest(l, segs);
      WithoutLast(l, segs);
      PrefixOrdered(l, segs, k);
      AnyListing(l[..k], segs[..k]);
      assert l == l[..k] + [l[k]] && segs == segs[..k] + [segs[k]];
    }
  }

  lemma PrefixOrdered(l: seq<Seg>, segs: seq<Seg>, k: nat)
    requires Sorted(l) && FirstsIncrease(segs) && k <= |l| && k <= |segs|
    ensures Sorted(l[..k]) && FirstsIncrease(segs[..k])
  {}

  lemma SameLength(l: seq<Seg>, segs: seq<Seg>)
    requires multiset(l) == multiset(segs)
    ensures |l| == |segs|
  {
    assert |l| == |multiset(l)| == |multiset(segs)| == |segs|;
  }

  lemma WithoutLast(l: seq<Seg>, segs: seq<Seg>)
    requires multiset(l) == multiset(segs) && l != [] && segs != [] && l[|l| - 1] == segs[|segs| - 1]
    ensures multiset(l[..|l| - 1]) == multiset(segs[..|segs| - 1])
  {
    var x := l[|l| - 1];
    LastCounts(l);
    LastCounts(segs);
    Cancel(multiset(l[..|l| - 1]), multiset(segs[..|segs| - 1]), x);
  }

  lemma LastCounts(l: seq<Seg>)
    requires l != []
    ensures multiset(l) == multiset(l[..|l| - 1]) + multiset{l[|l| - 1]}
  {
    assert l == l[..|l| - 1] + [l[|l| - 1]];
  }

  lemma Cancel(a: multiset<Seg>, b: multiset<Seg>, x: Seg)
    requires a + multiset{x} == b + multiset{x}
    ensures a == b
  {
    assert a == (a + multiset{x}) - multiset{x} && b == (b + multiset{x}) - multiset{x};
  }

  lemma LastIsGreatest(l: seq<Seg>, segs: seq<Seg>)
    requires FirstsIncrease(segs) && multiset(l) == multiset(segs) && segs != [] && |l| == |segs|
    requires Sorted(l)
    ensures l[|l| - 1] == segs[|segs| - 1]
  {
    var k := |segs| - 1;
    assert segs[k] in multiset(segs) && segs[k] in multiset(l);
    assert l[k] in multiset(l) && l[k] in multiset(segs);
    var i :| 0 <= i < |l| && l[i] == segs[k];
    var j :| 0 <= j < |segs| && segs[j] == l[k];
    assert forall m :: 0 <= m < k ==> !Before(l[k], l[m]);
    assert forall m :: 0 <= m < k ==> segs[m].first < segs[k].first;
  }

  // ------------------------------------------------------------------ operations

  function OpenSegment(d: Dir, first: int): Dir {
    Dir(d.segs + [Seg(first, -1, true, [])], |d.segs|, first - 1)
  }

  predicate Writing(d: Dir) {
    d.cur < |d.segs| && d.segs[d.cur].open
  }

  function Close(d: Dir): Dir
    requires Writing(d)
  {
    d.(segs := d.segs[d.cur := d.segs[d.cur].(last := d.segLast, open := false)])
  }

  function Do(d: Dir, op: Op): Dir {
    match op
    case Put(e) =>
      if Writing(d) then Dir(d.segs[d.cur := d.segs[d.cur].(entries := d.segs[d.cur].entries + [e])], d.cur, e.index) else d
    case RollOver =>
      if Writing(d) && d.segs[d.cur].entries != [] then OpenSegment(Close(d), d.segLast + 1) else d
    case CrashInRoll =>
      if Writing(d) && d.segs[d.cur].entries != [] then Close(d) else d
    case Restart =>
      var l := Listing(d.segs);
      if l == [] then OpenSegment(d, 1) else
      var latest := l[|l| - 1];
      if !latest.open then OpenSegment(d, latest.last + 1)
      else d.(cur := Position(d.segs, latest),
              segLast := if latest.entries == [] then latest.first - 1 else latest.entries[|latest.entries| - 1].index)
  }

  function Position(segs: seq<Seg>, s: Seg): nat
    decreases |segs|
  {
    if segs == [] || segs[|segs| - 1] == s then (if segs == [] then 0 else |segs| - 1)
    else Position(segs[..|segs| - 1], s)
  }

  /** No entry is appended below the first index of the open segment. */
  predicate Allowed(d: Dir, op: Op) {
    op.Put? && Writing(d) ==> d.segs[d.cur].first <= op.entry.index
  }

  function Run(ops: seq<Op>): Dir
    decreases |ops|
  {
    if ops == [] then Dir([], 0, 0) else Do(Run(ops[..|ops| - 1]), ops[|ops| - 1])
  }

  ghost predicate AllAllowed(ops: seq<Op>)
    decreases |ops|
  {
    ops != [] ==> AllAllowed(ops[..|ops| - 1]) && Allowed(Run(ops[..|ops| - 1]), ops[|ops| - 1])
  }

  /** The entries in the order in which they were appended. */
  function Appended(ops: seq<Op>): seq<Entry>
    decreases |ops|
  {
    if ops == [] then []
    else
      var before, op := ops[..|ops| - 1], ops[|ops| - 1];
      if op.Put? && Writing(Run(before)) then Appended(before) + [op.entry] else Appended(before)
  }

  function Concat(segs: seq<Seg>): seq<Entry>
    decreases |segs|
  {
    if segs == [] then [] else Concat(segs[..|segs| - 1]) + segs[|segs| - 1].entries
  }

  /** What recovery reads. */
  function OnDisk(d: Dir): seq<Entry> {
    Concat(Listing(d.segs))
  }

  // ------------------------------------------------------------------ the invariant

  ghost predicate Ordered(d: Dir) {
    && FirstsIncrease(d.segs)
    && (forall i :: 0 <= i < |d.segs| - 1 ==> !d.segs[i].open)
    && (d.segs != [] ==> d.cur == |d.segs| - 1)
    && (d.segs != [] ==> LatestOk(d.segs[|d.segs| - 1], d.segLast))
  }

  /** The latest segment and the last index written to it. */
  ghost predicate LatestOk(s: Seg, segLast: int) {
    && (s.entries == [] ==> s.open && segLast == s.first - 1)
    && (s.entries != [] ==> segLast == s.entries[|s.entries| - 1].index >= s.first)
    && (!s.open ==> s.last == segLast)
  }

  lemma ConcatLast(segs: seq<Seg>, x: Seg)
    ensures Concat(segs + [x]) == Concat(segs) + x.entries
  {
    assert (segs + [x])[..|segs + [x]| - 1] == segs;
  }

  /** The operation keeps the order, adds exactly es to what was appended, and opens only later segments. */
  ghost predicate Keeps(d: Dir, r: Dir, es: seq<Entry>) {
    Ordered(r) && Concat(r.segs) == Concat(d.segs) + es
  }

  lemma PutOrdered(d: Dir, e: Entry)
    requires Ordered(d) && Writing(d) && d.segs[d.cur].first <= e.index
    ensures Keeps(d, Do(d, Put(e)), [e])
  {
    var k := |d.segs| - 1;
    var before, s, r := d.segs[..k], d.segs[k], Do(d, Put(e));
    var s' := s.(entries := s.entries + [e]);
    assert d.segs == before + [s] && r.segs == before + [s'];
    ConcatLast(before, s);
    ConcatLast(before, s');
    assert Concat(before) + (s.entries + [e]) == Concat(before) + s.entries + [e];
  }

  lemma CloseOrdered(d: Dir)
    requires Ordered(d) && Writing(d) && d.segs[d.cur].entries != []
    ensures Keeps(d, Close(d), []) && Close(d).segs != [] && !Close(d).segs[|Close(d).segs| - 1].open
    ensures Close(d).segs[|Close(d).segs| - 1].first <= d.segLast
  {
    var k := |d.segs| - 1;
    var before, s, r := d.segs[..k], d.segs[k], Close(d);
    assert forall i :: 0 <= i < |r.segs| ==> r.segs[i].first == d.segs[i].first;
    assert Ordered(r);
    assert d.segs == before + [s] && r.segs == before + [r.segs[k]];
    ConcatLast(before, s);
    ConcatLast(before, r.segs[k]);
    assert Concat(d.segs) + [] == Concat(d.segs);
  }

  lemma OpenOrdered(d: Dir, first: int)
    requires Ordered(d) && (d.segs != [] ==> !d.segs[|d.segs| - 1].open && d.segs[|d.segs| - 1].first < first)
    ensures Keeps(d, OpenSegment(d, first), [])
  {
    ConcatLast(d.segs, Seg(first, -1, true, []));
    var k := |d.segs| - 1;
    forall i | 0 <= i < |d.segs| ensures d.segs[i].first < first && !d.segs[i].open {
      assert i < k ==> d.segs[i].first < d.segs[k].first;
    }
  }

  lemma RestartOrdered(d: Dir)
    requires Ordered(d)
    ensures Keeps(d, Do(d, Restart), [])
  {
    hide Concat, Listing, FirstsIncrease;
    ListingInOrder(d.segs);
    assert Concat(d.segs) + [] == Concat(d.segs);
    if d.segs == [] {
      OpenOrdered(d, 1);
    } else {
      var s := d.segs[|d.segs| - 1];
      if s.open {
        assert Do(d, Restart) == d;
      } else {
        OpenOrdered(d, s.last + 1);
      }
    }
  }

  lemma DoOrdered(d: Dir, op: Op)
    requires Ordered(d) && Allowed(d, op)
    ensures Keeps(d, Do(d, op), if op.Put? && Writing(d) then [op.entry] else [])
  {
    hide Ordered, Concat, Close;
    assert Concat(d.segs) + [] == Concat(d.segs);
    if op.Restart? {
      RestartOrdered(d);
    } else if Writing(d) {
      if op.Put? {
        PutOrdered(d, op.entry);
      } else if d.segs[d.cur].entries != [] {
        CloseOrdered(d);
        if op.RollOver? {
          OpenOrdered(Close(d), d.segLast + 1);
        }
      }
    }
  }

  lemma {:induction false} RunOrdered(ops: seq<Op>)
    requires AllAllowed(ops)
    ensures Ordered(Run(ops)) && Concat(Run(ops).segs) == Appended(ops)
    decreases |ops|
  {
    if ops != [] {
      RunOrdered(ops[..|ops| - 1]);
      DoOrdered(Run(ops[..|ops| - 1]), ops[|ops| - 1]);
    }
  }

  /**
    Across any rolls, crashes in the middle of one, and restarts, the first indices strictly increase, and
    reading the sorted directory gives the entries in the order in which they were appended.
   */
  lemma AppendOrder(ops: seq<Op>)
    requires AllAllowed(ops)
    ensures FirstsIncrease(Run(ops).segs) && OnDisk(Run(ops)) == Appended(ops)
  {
    RunOrdered(ops);
    ListingInOrder(Run(ops).segs);
  }

  /** A crash in a roll, after the closed segment has got its name, does not show after the restart. */
  lemma CrashInRollResumed(d: Dir)
    requires Ordered(d)
    ensures Do(Do(d, CrashInRoll), Restart) == if Do(d, RollOver) == d then Do(d, Restart) else Do(d, RollOver)
  {
    if Writing(d) && d.segs[d.cur].entries != [] {
      var r := Close(d);
      assert FirstsIncrease(r.segs);
      ListingInOrder(r.segs);
    }
  }

  /** Rolling keeps the order exactly when the last index written is not below the segment's first. */
  lemma RollExact(d: Dir)
    requires Writing(d) && FirstsIncrease(d.segs) && d.cur == |d.segs| - 1 && d.segs[d.cur].entries != []
    ensures FirstsIncrease(Do(d, RollOver).segs) <==> d.segs[d.cur].first <= d.segLast
  {
    var r := Do(d, RollOver);
    assert r.segs[d.cur].first == d.segs[d.cur].first && r.segs[d.cur + 1].first == d.segLast + 1;
    forall i, j | 0 <= i < j < |r.segs| && d.segs[d.cur].first <= d.segLast ensures r.segs[i].first < r.segs[j].first {
      if j == |d.segs| {
        assert i < d.cur ==> d.segs[i].first < d.segs[d.cur].first;
      }
    }
  }

  // ------------------------------------------------------------------ when it is not kept

  /**
    A follower's conflicting entry appended below the open segment's first index: after the next roll the
    directory is read out of order, and the replay loses an entry that was on disk and acknowledged.
   */
  lemma OutOfOrder()
    ensures var a, b, c, d := Entry("a", 1, 1), Entry("b", 1, 2), Entry("c", 2, 1), Entry("d", 2, 2);
      var ops := [Restart, Put(a), Put(b), RollOver, Put(c), RollOver, Put(d)];
      && Appended(ops) == [a, b, c, d] && OnDisk(Run(ops)) == [a, b, d, c]
      && Replay(0, Appended(ops)) == [c, d] && Replay(0, OnDisk(Run(ops))) == [c]
  {
    var a, b, c, d := Entry("a", 1, 1), Entry("b", 1, 2), Entry("c", 2, 1), Entry("d", 2, 2);
    var ops := [Restart, Put(a), Put(b), RollOver, Put(c), RollOver, Put(d)];
    var x, y := Seg(1, 2, false, [a, b]), Seg(3, 1, false, [c]);
    hide Run, Do, Appended, Listing, Insert, Concat, Replay, Close;
    assert [] + [a] == [a] && [] + [c] == [c] && [] + [d] == [d] && [] + [x] == [x];
    var o1 := [] + [Restart];
    FirstStart();
    var o2, o3 := o1 + [Put(a)], o1 + [Put(a)] + [Put(b)];
    PutAfter(o1, [], 1, [], 0, a);
    PutAfter(o2, [], 1, [a], 1, b);
    var o4 := o3 + [RollOver];
    assert [a] + [b] == [a, b];
    RollAfter(o3, [], 1, [a, b], 2);
    var o5 := o4 + [Put(c)];
    PutAfter(o4, [x], 3, [], 2, c);
    var o6 := o5 + [RollOver];
    RollAfter(o5, [x], 3, [c], 1);
    PutAfter(o6, [x] + [y], 2, [], 1, d);
    assert o6 + [Put(d)] == ops;
    assert [] + [a] + [b] + [c] + [d] == [a, b, c, d];
    ReadOutOfOrder(x, y, Seg(2, -1, true, [d]));
    assert [a, b] + [d] + [c] == [a, b, d, c];
    Replayed(a, b, c, d);
  }

  /** The directory with closed segments before, and one being written. */
  function Written(before: seq<Seg>, first: int, es: seq<Entry>, segLast: int): Dir {
    Dir(before + [Seg(first, -1, true, es)], |before|, segLast)
  }

  lemma After(before: seq<Op>, op: Op)
    ensures Run(before + [op]) == Do(Run(before), op)
    ensures Appended(before + [op])
            == if op.Put? && Writing(Run(before)) then Appended(before) + [op.entry] else Appended(before)
  {
    assert (before + [op])[..|before + [op]| - 1] == before;
  }

  lemma FirstStart()
    ensures Run([] + [Restart]) == Written([], 1, [], 0) && Appended([] + [Restart]) == []
  {
    After([], Restart);
    assert Listing([]) == [];
  }

  lemma PutAfter(before: seq<Op>, segs: seq<Seg>, first: int, es: seq<Entry>, segLast: int, e: Entry)
    requires Run(before) == Written(segs, first, es, segLast)
    ensures Run(before + [Put(e)]) == Written(segs, first, es + [e], e.index)
    ensures Appended(before + [Put(e)]) == Appended(before) + [e]
  {
    After(before, Put(e));
  }

  lemma RollAfter(before: seq<Op>, segs: seq<Seg>, first: int, es: seq<Entry>, segLast: int)
    requires Run(before) == Written(segs, first, es, segLast) && es != []
    ensures Run(before + [RollOver]) == Written(segs + [Seg(first, segLast, false, es)], segLast + 1, [], segLast)
    ensures Appended(before + [RollOver]) == Appended(before)
  {
    After(before, RollOver);
    assert Close(Run(before)).segs == segs + [Seg(first, segLast, false, es)];
  }

  lemma ReadOutOfOrder(x: Seg, y: Seg, z: Seg)
    requires x.first < z.first < y.first
    ensures Concat(Listing([x] + [y] + [z])) == x.entries + z.entries + y.entries
  {
    ListingInOrder([x] + [y]);
    assert ([x] + [y] + [z])[..2] == [x] + [y] && ([x] + [y])[..1] == [x];
    assert Insert([x], z) == [x] + [z];
    assert Listing([x] + [y] + [z]) == [x] + [z] + [y];
    ConcatLast([x] + [z], y);
    ConcatLast([x], z);
    ConcatLast([], x);
  }

  lemma Replayed(a: Entry, b: Entry, c: Entry, d: Entry)
    requires a.index == 1 && b.index == 2 && c.index == 1 && d.index == 2
    ensures Replay(0, [a, b, c, d]) == [c, d] && Replay(0, [a, b, d, c]) == [c]
  {
    assert [a] == [] + [a] && [a, b] == [a] + [b];
    ReplayNext(0, [], a);
    ReplayNext(0, [a], b);
    assert [a, b, c] == [a, b] + [c] && [a, b, c, d] == [a, b, c] + [d];
    ReplayNext(0, [a, b], c);
    ReplayNext(0, [a, b, c], d);
    assert [a, b, d] == [a, b] + [d] && [a, b, d, c] == [a, b, d] + [c];
    ReplayNext(0, [a, b], d);
    ReplayNext(0, [a, b, d], c);
  }
}
