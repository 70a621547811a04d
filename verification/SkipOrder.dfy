/**
  The order of a skip list's nodes: the header followed by the nodes of the bottom level. A node of
  level l is on levels 0 to l, so each level is the subsequence of the nodes that reach it, and the link
  of a node at a level is the next node that reaches it.
 */
module SkipOrder {

  /** A node; keys and values are of one type, compared by < and == only. */
  class Node {
    const key: int
    const value: int
    const level: nat
    const forward: array<Node?>

    constructor (k: int, v: int, l: nat)
      ensures key == k && value == v && level == l
      ensures fresh(forward) && forward.Length == l + 1 && forall i :: 0 <= i <= l ==> forward[i] == null
    {
      key, value, level := k, v, l;
      forward := new Node?[l + 1](_ => null);
    }
  }

  // ------------------------------------------------------------------ sequences of nodes

  ghost predicate Sorted(s: seq<Node>) {
    forall p, q :: 1 <= p < q < |s| ==> s[p].key < s[q].key
  }

  /** The nodes and their arrays are all different, and the arrays reach exactly the nodes' levels. */
  ghost predicate Apart(s: seq<Node>) {
    && (forall p, q :: 0 <= p < q < |s| ==> s[p] != s[q] && s[p].forward != s[q].forward)
    && (forall p :: 0 <= p < |s| ==> s[p].forward.Length == s[p].level + 1)
  }

  /** The next node after position p that reaches level i; |s| if there is none. */
  ghost function Next(s: seq<Node>, p: nat, i: nat): (q: nat)
    requires p < |s|
    ensures p < q <= |s| && (q < |s| ==> s[q].level >= i)
    ensures forall r :: p < r < q ==> s[r].level < i
    decreases |s| - p
  {
    if p + 1 == |s| || s[p + 1].level >= i then p + 1 else Next(s, p + 1, i)
  }

  lemma NextIs(s: seq<Node>, p: nat, i: nat, q: nat)
    requires p < q <= |s| && (q < |s| ==> s[q].level >= i)
    requires forall r :: p < r < q ==> s[r].level < i
    ensures Next(s, p, i) == q
  {}

  ghost function Link(s: seq<Node>, q: nat): Node? {
    if q < |s| then s[q] else null
  }

  ghost function Arrays(s: seq<Node>): set<array<Node?>> {
    set p | 0 <= p < |s| :: s[p].forward
  }

  /** Every node on level i is linked to the next one there. */
  ghost predicate Linked(s: seq<Node>, i: nat)
    requires Apart(s)
    reads Arrays(s)
  {
    forall p :: 0 <= p < |s| && s[p].level >= i ==> s[p].forward[i] == Link(s, Next(s, p, i))
  }

  /** The key-value pairs behind the header. */
  ghost function Contents(s: seq<Node>): map<int, int>
    decreases |s|
  {
    if |s| <= 1 then map[] else Contents(s[..|s| - 1])[s[|s| - 1].key := s[|s| - 1].value]
  }

  lemma {:induction false} ContentsHave(s: seq<Node>, q: nat)
    requires Sorted(s) && 1 <= q < |s|
    ensures s[q].key in Contents(s) && Contents(s)[s[q].key] == s[q].value
    decreases |s|
  {
    if q < |s| - 1 {
      ContentsHave(s[..|s| - 1], q);
    }
  }

  lemma {:induction false} ContentsOnly(s: seq<Node>, key: int)
    requires forall q :: 1 <= q < |s| ==> s[q].key != key
    ensures key !in Contents(s)
    decreases |s|
  {
    if |s| > 1 {
      ContentsOnly(s[..|s| - 1], key);
    }
  }

  /** As many pairs as nodes. */
  lemma {:induction false} ContentsSize(s: seq<Node>)
    requires Sorted(s) && |s| > 0
    ensures |Contents(s)| == |s| - 1
    decreases |s|
  {
    if |s| > 1 {
      var t, n := s[..|s| - 1], s[|s| - 1];
      ContentsSize(t);
      ContentsOnly(t, n.key);
      assert Contents(s).Keys == Contents(t).Keys + {n.key};
    }
  }

  // ------------------------------------------------------------------ predecessors

  /** Position p is the last one on level i with a smaller key. */
  ghost predicate IsPred(s: seq<Node>, p: nat, i: nat, key: int) {
    && p < |s| && s[p].level >= i && (p == 0 || s[p].key < key)
    && forall q :: p < q < |s| && s[q].level >= i ==> s[q].key >= key
  }

  lemma PredBounds(s: seq<Node>, p: nat, i: nat, key: int)
    requires IsPred(s, p, i, key)
    ensures p < |s| && s[p].level >= i
  {}

  lemma PredFound(s: seq<Node>, p: nat, i: nat, key: int)
    requires Sorted(s) && p < |s| && s[p].level >= i && (p == 0 || s[p].key < key)
    requires var q := Next(s, p, i); q < |s| ==> s[q].key >= key
    ensures IsPred(s, p, i, key)
  {
    var n := Next(s, p, i);
    forall q | p < q < |s| && s[q].level >= i ensures s[q].key >= key {
      assert q >= n;
      assert q > n ==> s[n].key < s[q].key;
    }
  }

  /** The bottom predecessor divides the nodes into smaller and not smaller keys. */
  lemma PredDivides(s: seq<Node>, p: nat, key: int)
    requires Sorted(s) && IsPred(s, p, 0, key)
    ensures forall q :: 1 <= q <= p ==> s[q].key < key
    ensures forall q :: p < q < |s| ==> s[q].key >= key
    ensures forall q :: p + 1 < q < |s| ==> s[q].key > key
    ensures key in Contents(s) <==> p + 1 < |s| && s[p + 1].key == key
    ensures key in Contents(s) ==> Contents(s)[key] == s[p + 1].value
  {
    forall q | 1 <= q <= p ensures s[q].key < key {
      assert q < p ==> s[q].key < s[p].key;
    }
    forall q | p + 1 < q < |s| ensures s[q].key > key {
      assert s[p + 1].key < s[q].key;
    }
    if p + 1 < |s| && s[p + 1].key == key {
      ContentsHave(s, p + 1);
    } else {
      ContentsOnly(s, key);
    }
  }

  // ------------------------------------------------------------------ inserting

  ghost function Inserted(s: seq<Node>, at: nat, n: Node): (t: seq<Node>)
    requires at <= |s|
    ensures |t| == |s| + 1 && t[at] == n
    ensures forall q :: 0 <= q < at ==> t[q] == s[q]
    ensures forall q :: at < q < |t| ==> t[q] == s[q - 1]
  {
    s[..at] + [n] + s[at..]
  }

  lemma InsertedSorted(s: seq<Node>, p: nat, n: Node)
    requires Sorted(s) && IsPred(s, p, 0, n.key) && n.key !in Contents(s)
    ensures Sorted(Inserted(s, p + 1, n))
    ensures Contents(Inserted(s, p + 1, n)) == Contents(s)[n.key := n.value]
  {
    hide Inserted, Contents, IsPred;
    PredDivides(s, p, n.key);
    PredBounds(s, p, 0, n.key);
    var t := Inserted(s, p + 1, n);
    assert forall q :: p < q < |s| ==> s[q].key > n.key;
    InsertedContents(s, p + 1, n);
  }

  lemma {:induction false} InsertedContents(s: seq<Node>, at: nat, n: Node)
    requires 1 <= at <= |s| && forall q :: at <= q < |s| ==> s[q].key != n.key
    ensures Contents(Inserted(s, at, n)) == Contents(s)[n.key := n.value]
    decreases |s|
  {
    var t := Inserted(s, at, n);
    if at == |s| {
      assert t[..|t| - 1] == s;
    } else {
      assert t[..|t| - 1] == Inserted(s[..|s| - 1], at, n);
      InsertedContents(s[..|s| - 1], at, n);
    }
  }

  /** Where a position of the old sequence is found in the new one. */
  function Shift(at: nat, q: nat): nat {
    if q < at then q else q + 1
  }

  /** Above its level a new node changes no links. */
  lemma InsertedAbove(s: seq<Node>, at: nat, n: Node, q: nat, i: nat)
    requires 1 <= at <= |s| && q < |s| && n.level < i
    ensures var t := Inserted(s, at, n);
      Link(t, Next(t, Shift(at, q), i)) == Link(s, Next(s, q, i))
  {
    hide Inserted;
    var t, m := Inserted(s, at, n), Next(s, q, i);
    NextIs(t, Shift(at, q), i, Shift(at, m));
  }

  /** On its levels its link is the one its predecessor had. */
  lemma InsertedOnward(s: seq<Node>, at: nat, n: Node, i: nat, p: nat)
    requires 1 <= at <= |s| && p < at && s[p].level >= i && forall r :: p < r < at ==> s[r].level < i
    ensures var t := Inserted(s, at, n); Link(t, Next(t, at, i)) == Link(s, Next(s, p, i))
  {
    hide Inserted;
    NextIs(Inserted(s, at, n), at, i, Next(s, p, i) + 1);
  }

  /** Its predecessor is linked to it, and no other link changes. */
  lemma InsertedBetween(s: seq<Node>, at: nat, n: Node, q: nat, i: nat, p: nat)
    requires 1 <= at <= |s| && q < |s| && s[q].level >= i && n.level >= i
    requires p < at && s[p].level >= i && forall r :: p < r < at ==> s[r].level < i
    ensures var t := Inserted(s, at, n);
      Link(t, Next(t, Shift(at, q), i)) == (if q == p then n else Link(s, Next(s, q, i)))
  {
    hide Inserted, Next;
    var t, m := Inserted(s, at, n), Next(s, q, i);
    if q == p {
      NextIs(t, q, i, at);
    } else if q < at {
      assert q < p && m <= p;
      NextIs(t, q, i, m);
    } else {
      NextIs(t, q + 1, i, m + 1);
    }
  }

  /** The links of level i after a new node has been linked in there, given those from before. */
  ghost predicate LinkedIn(s: seq<Node>, n: Node, i: nat, p: nat)
    requires Apart(s) && n.forward.Length == n.level + 1 && i <= n.level && p < |s|
    reads Arrays(s), n.forward
  {
    && n.forward[i] == Link(s, Next(s, p, i))
    && forall q :: 0 <= q < |s| && s[q].level >= i ==> s[q].forward[i] == if q == p then n else Link(s, Next(s, q, i))
  }

  lemma InsertedLinkAt(s: seq<Node>, at: nat, n: Node, i: nat, p: nat, r: nat)
    requires 1 <= at <= |s| && Apart(s) && n.forward.Length == n.level + 1 && i <= n.level
    requires p < at && s[p].level >= i && forall q :: p < q < at ==> s[q].level < i
    requires LinkedIn(s, n, i, p) && r < |Inserted(s, at, n)| && Inserted(s, at, n)[r].level >= i
    ensures var t := Inserted(s, at, n);
      t[r].forward.Length == t[r].level + 1 && t[r].forward[i] == Link(t, Next(t, r, i))
  {
    hide Inserted, Next;
    var t := Inserted(s, at, n);
    if r == at {
      InsertedOnward(s, at, n, i, p);
    } else {
      var q := if r < at then r else r - 1;
      assert t[r] == s[q] && r == Shift(at, q);
      InsertedBetween(s, at, n, q, i, p);
    }
  }

  lemma InsertedLinked(s: seq<Node>, at: nat, n: Node, i: nat, p: nat)
    requires 1 <= at <= |s| && Apart(s) && Apart(Inserted(s, at, n)) && n.forward.Length == n.level + 1 && i <= n.level
    requires p < at && s[p].level >= i && forall r :: p < r < at ==> s[r].level < i
    requires LinkedIn(s, n, i, p)
    ensures Linked(Inserted(s, at, n), i)
  {
    hide Inserted, Next, LinkedIn;
    var t := Inserted(s, at, n);
    forall r | 0 <= r < |t| && t[r].level >= i ensures t[r].forward[i] == Link(t, Next(t, r, i)) {
      InsertedLinkAt(s, at, n, i, p, r);
    }
  }

  /** Above the level of the new node nothing changes. */
  lemma InsertedLinkedAbove(s: seq<Node>, at: nat, n: Node, i: nat)
    requires 1 <= at <= |s| && Apart(s) && Apart(Inserted(s, at, n)) && n.level < i && Linked(s, i)
    ensures Linked(Inserted(s, at, n), i)
  {
    hide Inserted, Next;
    var t := Inserted(s, at, n);
    forall r | 0 <= r < |t| && t[r].level >= i ensures t[r].forward[i] == Link(t, Next(t, r, i)) {
      var q := if r < at then r else r - 1;
      assert r != at && t[r] == s[q] && r == Shift(at, q);
      InsertedAbove(s, at, n, q, i);
    }
  }

  // ------------------------------------------------------------------ deleting

  ghost function Deleted(s: seq<Node>, at: nat): (t: seq<Node>)
    requires at < |s|
    ensures |t| == |s| - 1
    ensures forall q :: 0 <= q < at ==> t[q] == s[q]
    ensures forall q :: at <= q < |t| ==> t[q] == s[q + 1]
  {
    s[..at] + s[at + 1..]
  }

  lemma ContentsSnoc(s: seq<Node>, n: Node)
    requires |s| > 0
    ensures Contents(s + [n]) == Contents(s)[n.key := n.value]
  {
    assert (s + [n])[..|s + [n]| - 1] == s;
  }

  lemma {:induction false} DeletedContents(s: seq<Node>, at: nat)
    requires Sorted(s) && 1 <= at < |s|
    ensures Contents(Deleted(s, at)) == Contents(s) - {s[at].key}
    decreases |s|
  {
    hide Contents;
    var last := |s| - 1;
    var before, n := s[..last], s[last];
    assert s == before + [n];
    ContentsSnoc(before, n);
    if at == last {
      assert Deleted(s, at) == before;
      ContentsOnly(before, n.key);
    } else {
      assert Deleted(s, at) == Deleted(before, at) + [n];
      ContentsSnoc(Deleted(before, at), n);
      DeletedContents(before, at);
      assert s[at].key < n.key;
    }
  }

  lemma DeletedSorted(s: seq<Node>, at: nat)
    requires Sorted(s) && 1 <= at < |s|
    ensures Sorted(Deleted(s, at))
  {
    hide Deleted;
    var t := Deleted(s, at);
    forall p, q | 1 <= p < q < |t| ensures t[p].key < t[q].key {
      assert t[p] == s[if p < at then p else p + 1] && t[q] == s[if q < at then q else q + 1];
    }
  }

  /** Deleting a node changes exactly the links to it. */
  lemma DeletedLinks(s: seq<Node>, at: nat, q: nat, i: nat)
    requires 1 <= at < |s| && q < |s| && q != at && s[q].level >= i
    ensures var t, r := Deleted(s, at), if q < at then q else q - 1;
      && r < |t| && t[r] == s[q]
      && Link(t, Next(t, r, i)) == (if Next(s, q, i) == at then Link(s, Next(s, at, i)) else Link(s, Next(s, q, i)))
  {
    hide Deleted;
    var t, r, m := Deleted(s, at), if q < at then q else q - 1, Next(s, q, i);
    if m == at {
      NextIs(t, r, i, Next(s, at, i) - 1);
    } else {
      NextIs(t, r, i, if m < at then m else m - 1);
    }
  }

  /** The links of level i after the node at position at has been linked out there. */
  ghost predicate LinkedOut(s: seq<Node>, at: nat, i: nat)
    requires Apart(s) && at < |s|
    reads Arrays(s)
  {
    forall q :: 0 <= q < |s| && q != at && s[q].level >= i ==>
      s[q].forward[i] == if Next(s, q, i) == at then Link(s, Next(s, at, i)) else Link(s, Next(s, q, i))
  }

  lemma DeletedApart(s: seq<Node>, at: nat)
    requires Apart(s) && at < |s|
    ensures Apart(Deleted(s, at))
  {
    hide Deleted;
    var t := Deleted(s, at);
    forall p, q | 0 <= p < q < |t| ensures t[p] != t[q] && t[p].forward != t[q].forward {
      assert t[p] == s[if p < at then p else p + 1] && t[q] == s[if q < at then q else q + 1];
    }
  }

  lemma DeletedLinked(s: seq<Node>, at: nat, i: nat)
    requires 1 <= at < |s| && Apart(s) && Apart(Deleted(s, at)) && LinkedOut(s, at, i)
    ensures Linked(Deleted(s, at), i)
  {
    hide Deleted, Next, LinkedOut;
    var t := Deleted(s, at);
    forall r | 0 <= r < |t| && t[r].level >= i ensures t[r].forward[i] == Link(t, Next(t, r, i)) {
      DeletedLinkAt(s, at, i, r);
    }
  }

  lemma DeletedLinkAt(s: seq<Node>, at: nat, i: nat, r: nat)
    requires 1 <= at < |s| && Apart(s) && LinkedOut(s, at, i)
    requires r < |Deleted(s, at)| && Deleted(s, at)[r].level >= i
    ensures var t := Deleted(s, at);
      t[r].forward.Length == t[r].level + 1 && t[r].forward[i] == Link(t, Next(t, r, i))
  {
    hide Deleted, Next;
    var q := if r < at then r else r + 1;
    assert Deleted(s, at)[r] == s[q];
    DeletedLinks(s, at, q, i);
  }

  /** On levels the node does not reach, nothing is linked to it. */
  lemma DeletedAbove(s: seq<Node>, at: nat, i: nat)
    requires at < |s| && Apart(s) && s[at].level < i && Linked(s, i)
    ensures LinkedOut(s, at, i)
  {
    hide Next;
  }

  // ------------------------------------------------------------------ levels

  /** Level i, read along the links from position p on. */
  ghost function Follow(s: seq<Node>, p: nat, i: nat): seq<Node>
    requires Apart(s) && Linked(s, i) && p < |s| && s[p].level >= i
    reads Arrays(s)
    decreases |s| - p
  {
    if s[p].forward[i] == null then [] else [s[p].forward[i]] + Follow(s, Next(s, p, i), i)
  }

  /** The positions of the nodes read. */
  ghost function Path(s: seq<Node>, p: nat, i: nat): (r: seq<nat>)
    requires p < |s|
    ensures forall k :: 0 <= k < |r| ==> p < r[k] < |s| && s[r[k]].level >= i
    decreases |s| - p
  {
    var q := Next(s, p, i);
    if q == |s| then [] else [q] + Path(s, q, i)
  }

  lemma {:induction false} PathOrdered(s: seq<Node>, p: nat, i: nat)
    requires p < |s|
    ensures var r := Path(s, p, i);
      && (forall j, k :: 0 <= j < k < |r| ==> r[j] < r[k])
      && (forall q :: p < q < |s| && s[q].level >= i ==> q in r)
    decreases |s| - p
  {
    var q := Next(s, p, i);
    if q < |s| {
      PathOrdered(s, q, i);
      assert Path(s, p, i) == [q] + Path(s, q, i);
    }
  }

  lemma {:induction false} FollowPath(s: seq<Node>, p: nat, i: nat)
    requires Apart(s) && Linked(s, i) && p < |s| && s[p].level >= i
    ensures var f, r := Follow(s, p, i), Path(s, p, i);
      |f| == |r| && forall k :: 0 <= k < |f| ==> f[k] == s[r[k]]
    decreases |s| - p
  {
    hide Linked, Next, Follow;
    FollowStep(s, p, i);
    var q := Next(s, p, i);
    if q < |s| {
      FollowPath(s, q, i);
      assert Path(s, p, i) == [q] + Path(s, q, i);
    }
  }

  /** Reading a level from the header gives exactly the nodes that reach it, in strict key order. */
  lemma LevelSorted(s: seq<Node>, i: nat)
    requires Apart(s) && Linked(s, i) && Sorted(s) && |s| > 0 && s[0].level >= i
    ensures var f := Follow(s, 0, i);
      && (forall q :: 0 < q < |s| && s[q].level >= i ==> s[q] in f)
      && (forall n <- f :: n.level >= i && n in s[1..])
      && (forall a, b :: 0 <= a < b < |f| ==> f[a].key < f[b].key)
  {
    hide Follow, Path, Linked, Apart;
    var f, r := Follow(s, 0, i), Path(s, 0, i);
    FollowPath(s, 0, i);
    PathOrdered(s, 0, i);
    forall q | 0 < q < |s| && s[q].level >= i ensures s[q] in f {
      var k :| 0 <= k < |r| && r[k] == q;
      assert f[k] == s[q];
    }
    forall n <- f ensures n.level >= i && n in s[1..] {
      var k :| 0 <= k < |f| && f[k] == n;
      assert s[1..][r[k] - 1] == n;
    }
    KeysAlong(s, f, r);
  }

  lemma KeysAlong(s: seq<Node>, f: seq<Node>, r: seq<nat>)
    requires Sorted(s) && |f| == |r| && forall j, k :: 0 <= j < k < |r| ==> r[j] < r[k]
    requires forall k :: 0 <= k < |r| ==> 0 < r[k] < |s| && f[k] == s[r[k]]
    ensures forall a, b :: 0 <= a < b < |f| ==> f[a].key < f[b].key
  {
    forall a, b | 0 <= a < b < |f| ensures f[a].key < f[b].key {
      assert r[a] < r[b];
    }
  }

  ghost predicate Subsequence(a: seq<Node>, b: seq<Node>)
    decreases |b|
  {
    a == [] || (b != [] && if a[0] == b[0] then Subsequence(a[1..], b[1..]) else Subsequence(a, b[1..]))
  }

  /** The rest of a level, from its last node up to q on, is a subsequence of the level below from q on. */
  lemma {:induction false} LevelsNest(s: seq<Node>, p: nat, q: nat, i: nat)
    requires Apart(s) && Linked(s, i) && Linked(s, i + 1)
    requires p <= q < |s| && s[p].level >= i + 1 && s[q].level >= i
    requires forall r :: p < r <= q ==> s[r].level < i + 1
    ensures Subsequence(Follow(s, p, i + 1), Follow(s, q, i))
    decreases |s| - q
  {
    hide Linked, Next, Follow, Apart;
    FollowStep(s, q, i);
    FollowStep(s, p, i + 1);
    var m := Next(s, q, i);
    if m == |s| {
      NextIs(s, p, i + 1, |s|);
    } else if s[m].level >= i + 1 {
      NextIs(s, p, i + 1, m);
      LevelsNest(s, m, m, i);
    } else {
      LevelsNest(s, p, m, i);
      assert Next(s, p, i + 1) > m;
      ApartAfter(s, m, Next(s, p, i + 1));
    }
  }

  lemma ApartAfter(s: seq<Node>, p: nat, q: nat)
    requires Apart(s) && p < q <= |s|
    ensures q < |s| ==> s[p] != s[q]
  {}

  lemma FollowStep(s: seq<Node>, p: nat, i: nat)
    requires Apart(s) && Linked(s, i) && p < |s| && s[p].level >= i
    ensures var q := Next(s, p, i);
      Follow(s, p, i) == if q == |s| then [] else [s[q]] + Follow(s, q, i)
  {}
}
