/**
  The skip list (include/common/skipList.h) as a linked structure, proved to be a map. The ghost sequence
  s holds the header and the nodes of the bottom level in order; SkipOrder says what the links then are.
 */
module SkipList {
  import opened SkipOrder

  class SkipList {
    const maxLevel: nat
    const header: Node
    var level: nat
    var count: nat
    ghost var s: seq<Node>

    /** The nodes: the header first, on every level; all others up to the current level; keys in order. */
    ghost predicate Nodes()
      reads this
    {
      && |s| > 0 && s[0] == header && header.level == maxLevel && level <= maxLevel
      && Apart(s) && Sorted(s)
      && (forall p :: 1 <= p < |s| ==> s[p].level <= level)
      && count == |s| - 1
    }

    /** The current level is that of some node. */
    ghost predicate Shape()
      reads this
    {
      Nodes() && (level > 0 ==> exists p :: 1 <= p < |s| && s[p].level == level)
    }

    ghost predicate Valid()
      reads this, Arrays(s)
    {
      Shape() && forall i :: 0 <= i <= maxLevel ==> Linked(s, i)
    }

    /** The map that the list stands for. */
    ghost function Map(): map<int, int>
      reads this
    {
      Contents(s)
    }

    constructor (max: nat)
      ensures Valid() && Map() == map[] && maxLevel == max && fresh(Arrays(s))
    {
      maxLevel, level, count := max, 0, 0;
      var h := new Node(0, 0, max);
      header := h;
      s := [h];
    }

    /** Levels above the current one are empty, the count is the number of pairs, and levels nest. */
    lemma Structure(i: nat)
      requires Valid() && i <= maxLevel
      ensures i > level ==> header.forward[i] == null
      ensures i == level > 0 ==> header.forward[i] != null
      ensures count == |Map()|
      ensures forall a, b :: 0 <= a < b < |Follow(s, 0, i)| ==> Follow(s, 0, i)[a].key < Follow(s, 0, i)[b].key
      ensures i < maxLevel ==> Subsequence(Follow(s, 0, i + 1), Follow(s, 0, i))
    {
      ContentsSize(s);
      LevelSorted(s, i);
      assert Linked(s, i);
      if i > level {
        NextIs(s, 0, i, |s|);
      }
      if i < maxLevel {
        LevelsNest(s, 0, 0, i);
      }
    }

    /** Along level i, from a node with a smaller key to the last one. */
    method Advance(from: Node, ghost p: nat, i: nat, key: int) returns (current: Node, ghost q: nat)
      requires Valid() && i <= maxLevel && p < |s| && from == s[p] && s[p].level >= i && (p == 0 || s[p].key < key)
      ensures Valid() && IsPred(s, q, i, key) && q < |s| && current == s[q] && s[q].level >= i && (q == 0 || s[q].key < key)
    {
      hide Next, Contents;
      current, q := from, p;
      assert Linked(s, i);
      while current.forward[i] != null && current.forward[i].key < key
        invariant q < |s| && current == s[q] && s[q].level >= i && (q == 0 || s[q].key < key)
        decreases |s| - q
      {
        current := current.forward[i];
        q := Next(s, q, i);
      }
      PredFound(s, q, i, key);
    }

    /** The descent: on every level, the last node with a smaller key. */
    method Descend(key: int) returns (update: array<Node?>, ghost at: seq<nat>)
      requires Valid()
      ensures Valid() && fresh(update) && update !in Arrays(s) && update.Length == maxLevel + 1 && |at| == level + 1
      ensures forall i :: 0 <= i <= level ==> IsPred(s, at[i], i, key) && update[i] == s[at[i]]
      ensures forall i :: level < i <= maxLevel ==> update[i] == null
    {
      hide Contents, Linked, Sorted;
      update := new Node?[maxLevel + 1](_ => null);
      assert update !in Arrays(s);
      at := seq(level + 1, _ => 0);
      var current := header;
      ghost var p: nat := 0;
      var i := level;
      while i >= 0
        invariant -1 <= i <= level && p < |s| && current == s[p] && (p == 0 || s[p].key < key)
        invariant Valid() && update !in Arrays(s) && |at| == level + 1 && s[p].level >= i
        invariant forall j :: i < j <= level ==> IsPred(s, at[j], j, key) && update[j] == s[at[j]]
        invariant forall j :: level < j <= maxLevel ==> update[j] == null
        decreases i
      {
        current, p := Advance(current, p, i, key);
        update[i] := current;
        at := at[i := p];
        i := i - 1;
      }
    }

    /** The descent without a record of it. */
    method Floor(key: int) returns (current: Node, ghost p: nat)
      requires Valid()
      ensures Valid() && IsPred(s, p, 0, key) && p < |s| && current == s[p]
    {
      hide Contents, Sorted, IsPred, Next, Linked;
      current, p := header, 0;
      var i := level;
      while i >= 0
        invariant Valid()
        invariant -1 <= i <= level && p < |s| && current == s[p] && (p == 0 || s[p].key < key) && s[p].level >= i
        invariant i < level ==> IsPred(s, p, i + 1, key)
        decreases i
      {
        current, p := Advance(current, p, i, key);
        i := i - 1;
      }
    }

    /** The node behind the floor of a key has that key, or no node has it. */
    method Candidate(current: Node, ghost p: nat, key: int) returns (next: Node?)
      requires Valid() && p < |s| && current == s[p] && IsPred(s, p, 0, key)
      ensures Valid() && next == Link(s, p + 1)
      ensures key in Map() <==> next != null && next.key == key
      ensures key in Map() ==> Map()[key] == next.value
    {
      hide Contents, Sorted;
      PredDivides(s, p, key);
      assert Linked(s, 0);
      next := current.forward[0];
      NextIs(s, p, 0, p + 1);
    }

    /** search_element */
    method Search(key: int) returns (found: bool, value: int)
      requires Valid()
      ensures Valid() && (found <==> key in Map())
      ensures found ==> value == Map()[key]
    {
      hide Contents, Sorted, IsPred, Next, Linked, Shape;
      var current, p := Floor(key);
      var next := Candidate(current, p, key);
      found := next != null && next.key == key;
      value := if found then next.value else 0;
    }

    // ---------------------------------------------------------------- inserting

    /** n takes over the link of pred on level i, and pred is linked to n. */
    method Relink(n: Node, pred: Node, i: nat, ghost p: nat)
      requires Apart(s) && n.forward.Length == n.level + 1 && i <= n.level && n.forward !in Arrays(s)
      requires p < |s| && pred == s[p] && s[p].level >= i
      modifies n.forward, pred.forward
      ensures n.forward[i] == old(pred.forward[i]) && pred.forward[i] == n
      ensures forall j :: 0 <= j <= n.level && j != i ==> n.forward[j] == old(n.forward[j])
      ensures forall q, j :: 0 <= q < |s| && 0 <= j <= s[q].level && (j != i || q != p) ==>
        s[q].forward[j] == old(s[q].forward[j])
    {
      assert forall q :: 0 <= q < |s| && q != p ==> s[q].forward != pred.forward && s[q].forward in Arrays(s);
      n.forward[i] := pred.forward[i];
      pred.forward[i] := n;
    }

    /** The node n is linked in on level i, behind its predecessor there; other levels stay as they are. */
    method LinkIn(n: Node, pred: Node, i: nat, ghost p: nat)
      requires Apart(s) && n.forward.Length == n.level + 1 && i <= n.level && n.forward !in Arrays(s)
      requires p < |s| && pred == s[p] && s[p].level >= i && Linked(s, i)
      modifies n.forward, pred.forward
      ensures LinkedIn(s, n, i, p)
      ensures forall j :: j != i && old(Linked(s, j)) ==> Linked(s, j)
      ensures forall j: nat, r: nat :: j <= n.level && j != i && r < |s| && old(LinkedIn(s, n, j, r)) ==> LinkedIn(s, n, j, r)
    {
      hide Next, Apart;
      Relink(n, pred, i, p);
    }

    /** get_random_level: one more for each coin that comes up, at most the maximum. */
    method RandomLevel(coins: nat) returns (k: nat)
      ensures k == if 1 + coins < maxLevel then 1 + coins else maxLevel
    {
      k := 1;
      var left := coins;
      while left > 0
        invariant k + left == 1 + coins
      {
        k, left := k + 1, left - 1;
      }
      k := if k < maxLevel then k else maxLevel;
    }

    /** The new node takes its place on all its levels. */
    method LinkAll(n: Node, update: array<Node?>, ghost pr: seq<nat>)
      requires Shape() && forall i :: 0 <= i <= maxLevel ==> Linked(s, i)
      requires n.level <= maxLevel && n.forward.Length == n.level + 1 && n.forward !in Arrays(s)
      requires update !in Arrays(s) && update != n.forward && update.Length == maxLevel + 1 && |pr| > n.level
      requires forall i :: 0 <= i <= n.level ==> pr[i] < |s| && update[i] == s[pr[i]] && s[pr[i]].level >= i
      modifies n.forward, Arrays(s)
      ensures forall i :: 0 <= i <= n.level ==> LinkedIn(s, n, i, pr[i])
      ensures forall i :: n.level < i <= maxLevel ==> Linked(s, i)
    {
      hide Next, Contents, Sorted;
      for i := 0 to n.level + 1
        invariant Shape()
        invariant forall j :: 0 <= j < i ==> LinkedIn(s, n, j, pr[j])
        invariant forall j :: i <= j <= maxLevel ==> Linked(s, j)
        invariant forall j :: 0 <= j <= n.level ==> update[j] == s[pr[j]]
      {
        assert s[pr[i]].forward in Arrays(s);
        LinkIn(n, update[i], i, pr[i]);
      }
    }

    /** Above the current level there are no nodes, so the header is the predecessor there. */
    lemma HeaderPrecedes(i: nat, key: int)
      requires Shape() && level < i <= maxLevel
      ensures IsPred(s, 0, i, key)
    {}

    /** The predecessors of a key on the bottom level and on another one agree on the position in between. */
    lemma Between(p: nat, at: nat, i: nat, key: int)
      requires Sorted(s) && IsPred(s, p, 0, key) && IsPred(s, at, i, key)
      ensures at < p + 1 && s[at].level >= i && forall r :: at < r < p + 1 ==> s[r].level < i
    {
      PredDivides(s, p, key);
    }

    /** The sequence of nodes with the new one in it. */
    lemma GrownShape(n: Node, p: nat, l: nat)
      requires Shape() && IsPred(s, p, 0, n.key) && n.key !in Map() && n.level <= maxLevel
      requires n.forward.Length == n.level + 1 && n.forward !in Arrays(s) && n !in s
      requires l == (if n.level > level then n.level else level)
      ensures var t := Inserted(s, p + 1, n);
        && |t| == |s| + 1 && t[0] == header && Apart(t) && Sorted(t)
        && (forall q :: 1 <= q < |t| ==> t[q].level <= l)
        && (l > 0 ==> exists q :: 1 <= q < |t| && t[q].level == l)
        && Contents(t) == Map()[n.key := n.value] && Arrays(t) == Arrays(s) + {n.forward}
    {
      hide Inserted, Contents, IsPred;
      PredBounds(s, p, 0, n.key);
      var t := Inserted(s, p + 1, n);
      InsertedSorted(s, p, n);
      GrownApart(n, p + 1);
      if n.level > level {
        assert t[p + 1].level == l;
      } else if level > 0 {
        var q :| 1 <= q < |s| && s[q].level == level;
        assert t[if q < p + 1 then q else q + 1].level == l;
      }
    }

    lemma GrownAt(n: Node, at: nat, a: nat)
      requires at <= |s| && a <= |s|
      ensures var t := Inserted(s, at, n);
        if a == at then t[a] == n else t[a] == s[if a < at then a else a - 1] && t[a].forward in Arrays(s)
    {}

    lemma GrownApart(n: Node, at: nat)
      requires Apart(s) && 1 <= at <= |s| && n.forward.Length == n.level + 1 && n.forward !in Arrays(s) && n !in s
      ensures Apart(Inserted(s, at, n)) && Arrays(Inserted(s, at, n)) == Arrays(s) + {n.forward}
    {
      hide Inserted, Arrays;
      var t := Inserted(s, at, n);
      forall a, b | 0 <= a < b < |t| ensures t[a] != t[b] && t[a].forward != t[b].forward {
        GrownAt(n, at, a);
        GrownAt(n, at, b);
      }
      forall a | 0 <= a < |t| ensures t[a].forward.Length == t[a].level + 1 {
        GrownAt(n, at, a);
      }
      GrownArrays(n, at);
    }

    lemma GrownArrays(n: Node, at: nat)
      requires at <= |s|
      ensures Arrays(Inserted(s, at, n)) == Arrays(s) + {n.forward}
    {
      hide Inserted;
      var t := Inserted(s, at, n);
      forall a | 0 <= a < |t| ensures t[a].forward in Arrays(s) + {n.forward} {
        GrownAt(n, at, a);
      }
      assert Arrays(t) <= Arrays(s) + {n.forward};
      assert t[at] == n && n.forward in Arrays(t);
      forall q | 0 <= q < |s| ensures s[q].forward in Arrays(t) {
        assert t[Shift(at, q)] == s[q];
      }
      assert Arrays(s) <= Arrays(t);
    }

    /** Above the current level the new node's predecessor is the header. */
    method Raise(update: array<Node?>, ghost at: seq<nat>, top: nat, key: int) returns (ghost pr: seq<nat>)
      requires Valid() && update !in Arrays(s) && update.Length == maxLevel + 1 && |at| == level + 1 && top <= maxLevel
      requires forall i :: 0 <= i <= level ==> IsPred(s, at[i], i, key) && update[i] == s[at[i]]
      modifies update
      ensures Valid() && |pr| > top && at <= pr
      ensures forall i :: 0 <= i < |pr| ==> IsPred(s, pr[i], i, key) && update[i] == s[pr[i]]
    {
      hide Contents, Sorted, Apart, Linked, Next;
      pr := at;
      if top > level {
        for i := level + 1 to top + 1
          invariant Valid() && |pr| == i && at <= pr
          invariant forall j :: 0 <= j < i ==> IsPred(s, pr[j], j, key) && update[j] == s[pr[j]]
        {
          update[i] := header;
          HeaderPrecedes(i, key);
          pr := pr + [0];
        }
      }
    }

    /** insert_element: an existing key keeps its value. */
    method Insert(key: int, value: int, coins: nat) returns (exists_: bool)
      requires Valid()
      modifies this, Arrays(s)
      ensures Valid() && fresh(Arrays(s) - old(Arrays(s)))
      ensures exists_ <==> key in old(Map())
      ensures Map() == if key in old(Map()) then old(Map()) else old(Map())[key := value]
    {
      hide Contents, Sorted, Apart, Linked, IsPred, Next, Inserted;
      var update, at := Descend(key);
      ghost var p := at[0];
      PredBounds(s, p, 0, key);
      var current := Candidate(update[0], p, key);
      if current != null && current.key == key {
        return true;
      }
      var randomLevel := RandomLevel(coins);
      ghost var pr := Raise(update, at, randomLevel, key);
      var n := new Node(key, value, randomLevel);
      Place(n, update, pr, p);
      exists_ := false;
    }

    /** The new node is linked in, and counted. */
    method Place(n: Node, update: array<Node?>, ghost pr: seq<nat>, ghost p: nat)
      requires Valid() && n.level <= maxLevel && n.forward.Length == n.level + 1 && n.forward !in Arrays(s) && n !in s
      requires update !in Arrays(s) && update != n.forward && update.Length == maxLevel + 1 && |pr| > n.level
      requires forall i :: 0 <= i <= n.level ==> IsPred(s, pr[i], i, n.key) && update[i] == s[pr[i]]
      requires IsPred(s, p, 0, n.key) && n.key !in Map()
      modifies this, n.forward, Arrays(s)
      ensures Valid() && Arrays(s) == old(Arrays(s)) + {n.forward}
      ensures Map() == old(Map())[n.key := n.value]
    {
      hide Contents, Sorted, Apart, Linked, Next, Inserted, LinkedIn, IsPred;
      PredBounds(s, p, 0, n.key);
      ghost var t := Inserted(s, p + 1, n);
      forall i | 0 <= i <= n.level ensures pr[i] < |s| && s[pr[i]].level >= i {
        PredBounds(s, pr[i], i, n.key);
      }
      LinkAll(n, update, pr);
      ghost var l := if n.level > level then n.level else level;
      GrownShape(n, p, l);
      forall i | 0 <= i <= maxLevel ensures Linked(t, i) {
        PredBounds(s, p, 0, n.key);
        if i <= n.level {
          Between(p, pr[i], i, n.key);
          InsertedLinked(s, p + 1, n, i, pr[i]);
        } else {
          InsertedLinkedAbove(s, p + 1, n, i);
        }
      }
      if n.level > level {
        level := n.level;
      }
      count := count + 1;
      s := t;
    }

    // ---------------------------------------------------------------- deleting

    /** pred is linked past current on level i. */
    method LinkOut(current: Node, pred: Node, i: nat, ghost p: nat, ghost pos: nat)
      requires Apart(s) && 1 <= pos < |s| && current == s[pos] && p < pos && pred == s[p]
      requires i <= current.level && s[p].level >= i && Linked(s, i) && Next(s, p, i) == pos
      modifies pred.forward
      ensures LinkedOut(s, pos, i) && current.forward[i] == old(current.forward[i])
      ensures forall j :: j != i && old(Linked(s, j)) ==> Linked(s, j)
      ensures forall j :: j != i && old(LinkedOut(s, pos, j)) ==> LinkedOut(s, pos, j)
    {
      Bypass(current, pred, i, p, pos);
      assert forall q :: 0 <= q < |s| && s[q].level >= i && Next(s, q, i) == pos ==> q == p;
    }

    method Bypass(current: Node, pred: Node, i: nat, ghost p: nat, ghost pos: nat)
      requires Apart(s) && p < pos < |s| && current == s[pos] && pred == s[p] && i <= current.level && s[p].level >= i
      modifies pred.forward
      ensures pred.forward[i] == old(current.forward[i])
      ensures forall q, j :: 0 <= q < |s| && 0 <= j <= s[q].level && (j != i || q != p) ==>
        s[q].forward[j] == old(s[q].forward[j])
    {
      assert forall q :: 0 <= q < |s| && q != p ==> s[q].forward != pred.forward;
      pred.forward[i] := current.forward[i];
    }

    /** A predecessor of the key at position pos is linked to it exactly on the levels that it reaches. */
    lemma PredLinks(p: nat, i: nat, pos: nat)
      requires Apart(s) && Sorted(s) && 1 <= pos < |s| && IsPred(s, p, i, s[pos].key)
      ensures p < |s| && p < pos && (Next(s, p, i) == pos <==> s[pos].level >= i)
      ensures Link(s, Next(s, p, i)) == s[pos] <==> s[pos].level >= i
    {
      assert forall q :: pos < q < |s| ==> s[pos].key < s[q].key;
      assert forall q :: 1 <= q < pos ==> s[q].key < s[pos].key;
    }

    lemma ReachesLevel(p: nat)
      requires Apart(s) && p < |s|
      ensures s[p].forward.Length == s[p].level + 1
    {}

    lemma LinkAt(p: nat, i: nat)
      requires Apart(s) && p < |s| && s[p].level >= i && Linked(s, i)
      ensures s[p].forward[i] == Link(s, Next(s, p, i))
    {}

    /** The node leaves all its levels; the loop ends on the first level on which it is not next. */
    method LinkOutAll(current: Node, update: array<Node?>, ghost at: seq<nat>, ghost pos: nat)
      requires Valid() && 1 <= pos < |s| && current == s[pos]
      requires update !in Arrays(s) && update.Length == maxLevel + 1 && |at| == level + 1
      requires forall i :: 0 <= i <= level ==> IsPred(s, at[i], i, current.key) && update[i] == s[at[i]]
      modifies Arrays(s)
      ensures forall i :: 0 <= i <= maxLevel ==> LinkedOut(s, pos, i)
    {
      hide Next, Contents, Linked, LinkedOut, Apart, Sorted;
      var i := 0;
      while i <= level
        invariant 0 <= i <= level + 1 && Shape()
        invariant forall j :: 0 <= j < i ==> LinkedOut(s, pos, j)
        invariant forall j :: i <= j <= maxLevel ==> Linked(s, j)
        invariant forall j :: 0 <= j <= level ==> update[j] == s[at[j]]
        decreases level + 1 - i
      {
        PredLinks(at[i], i, pos);
        LinkAt(at[i], i);
        ReachesLevel(at[i]);
        if update[i].forward[i] != current {
          break;
        }
        assert s[at[i]].forward in Arrays(s);
        LinkOut(current, update[i], i, at[i], pos);
        i := i + 1;
      }
      forall j | i <= j <= maxLevel ensures LinkedOut(s, pos, j) {
        DeletedAbove(s, pos, j);
      }
    }

    /** What the header's link on the highest level that may have nodes says about that level. */
    lemma TopLevel(l: nat)
      requires Nodes() && 0 < l <= maxLevel && Linked(s, l) && forall p :: 1 <= p < |s| ==> s[p].level <= l
      ensures header.forward[l] == null ==> forall p :: 1 <= p < |s| ==> s[p].level < l
      ensures header.forward[l] != null ==> exists p :: 1 <= p < |s| && s[p].level == l
    {
      var q := Next(s, 0, l);
      assert header.forward[l] == Link(s, q);
      if q < |s| {
        assert s[q].level == l;
      }
    }

    /** The highest level with a node on it. */
    method Highest() returns (top: nat)
      requires Nodes() && forall i :: 0 <= i <= maxLevel ==> Linked(s, i)
      ensures top <= level && forall p :: 1 <= p < |s| ==> s[p].level <= top
      ensures top > 0 ==> exists p :: 1 <= p < |s| && s[p].level == top
    {
      hide Contents, Sorted, Linked, Next;
      top := level;
      while top > 0 && header.forward[top] == null
        invariant top <= level && forall p :: 1 <= p < |s| ==> s[p].level <= top
        invariant forall i :: 0 <= i <= maxLevel ==> Linked(s, i)
      {
        TopLevel(top);
        top := top - 1;
      }
      if top > 0 {
        TopLevel(top);
      }
    }

    /** Empty levels are given up. */
    method Lower()
      requires Nodes() && forall i :: 0 <= i <= maxLevel ==> Linked(s, i)
      modifies this`level
      ensures Valid()
    {
      hide Contents, Sorted, Next;
      level := Highest();
      forall i | 0 <= i <= maxLevel ensures Linked(s, i) {
        assert old(Linked(s, i));
        forall p | 0 <= p < |s| && s[p].level >= i ensures s[p].forward[i] == Link(s, Next(s, p, i)) {
          assert old(s[p].forward[i]) == s[p].forward[i];
        }
      }
    }

    /** delete_element */
    method Delete(key: int)
      requires Valid()
      modifies this, Arrays(s)
      ensures Valid() && Arrays(s) <= old(Arrays(s))
      ensures Map() == old(Map()) - {key}
    {
      hide Contents, Sorted, Apart, Linked, Next, IsPred, LinkedOut, Deleted;
      var update, at := Descend(key);
      ghost var p := at[0];
      PredBounds(s, p, 0, key);
      var current := Candidate(update[0], p, key);
      if current == null || current.key != key {
        assert Map() - {key} == Map();
        return;
      }
      ghost var pos, t := p + 1, Deleted(s, p + 1);
      LinkOutAll(current, update, at, pos);
      DeletedContents(s, pos);
      DeletedSorted(s, pos);
      DeletedApart(s, pos);
      forall i | 0 <= i <= maxLevel ensures Linked(t, i) {
        DeletedLinked(s, pos, i);
      }
      ShrunkNodes(pos);
      count := count - 1;
      s := t;
      Lower();
    }

    lemma ShrunkNodes(pos: nat)
      requires Nodes() && 1 <= pos < |s|
      ensures var t := Deleted(s, pos);
        && |t| == |s| - 1 && t[0] == header && (forall q :: 1 <= q < |t| ==> t[q].level <= level)
        && Arrays(t) <= Arrays(s)
    {
      hide Deleted, Contents, Sorted, Apart;
      var t := Deleted(s, pos);
      forall q | 0 <= q < |t| ensures t[q].forward in Arrays(s) {
        assert t[q] == s[if q < pos then q else q + 1];
      }
    }

    /** insert_set_element: an existing key is deleted first, so it gets the new value. */
    method InsertSet(key: int, value: int, coins: nat)
      requires Valid()
      modifies this, Arrays(s)
      ensures Valid() && fresh(Arrays(s) - old(Arrays(s)))
      ensures Map() == old(Map())[key := value]
    {
      hide Contents, Shape, Linked;
      var found, _ := Search(key);
      if found {
        Delete(key);
        assert key !in Map();
      }
      var e := Insert(key, value, coins);
      assert (old(Map()) - {key})[key := value] == old(Map())[key := value];
    }
  }
}
