/**
  Saving and restoring a skip list (dump_file and load_file in include/common/skipList.h). As written,
  loading inserts every key as its own value, and never replaces a key that is there already.
 */
module SkipDump {
  import opened SkipOrder
  import opened SkipList

  /** The map given by a list of keys and a list of values. */
  function FromLists(keys: seq<int>, values: seq<int>): map<int, int>
    requires |keys| == |values|
    decreases |keys|
  {
    if keys == [] then map[]
    else FromLists(keys[..|keys| - 1], values[..|keys| - 1])[keys[|keys| - 1] := values[|keys| - 1]]
  }

  /** What load_file makes of a map, as written. */
  function Loaded(m: map<int, int>, keys: seq<int>): map<int, int>
    decreases |keys|
  {
    if keys == [] then m
    else
      var r, k := Loaded(m, keys[..|keys| - 1]), keys[|keys| - 1];
      if k in r then r else r[k := k]
  }

  predicate Increasing(keys: seq<int>) {
    forall i, j :: 0 <= i < j < |keys| ==> keys[i] < keys[j]
  }

  // ------------------------------------------------------------------ the methods

  /** dump_file: the pairs in key order; together they are the map. */
  method Dump(l: SkipList) returns (keys: seq<int>, values: seq<int>)
    requires l.Valid()
    ensures l.Valid() && |keys| == |values| == l.count && Increasing(keys) && FromLists(keys, values) == l.Map()
  {
    hide Sorted, Apart, Linked, Next, FromLists, Contents;
    keys, values := [], [];
    var node := l.header;
    ghost var p: nat := 0;
    DumpNothing(l.s[0]);
    assert l.s[..1] == [l.s[0]];
    var next := Successor(l, node, p);
    while next != null
      invariant l.Valid() && p < |l.s| && next == Link(l.s, p + 1) && Dumped(l.s, p, keys, values)
      decreases |l.s| - p
    {
      DumpNext(l.s, p, keys, values);
      keys, values := keys + [next.key], values + [next.value];
      p := p + 1;
      next := Successor(l, next, p);
    }
    assert l.s[..p + 1] == l.s;
    KeysRise(l.s, keys);
  }

  lemma KeysRise(s: seq<Node>, keys: seq<int>)
    requires Sorted(s) && |keys| == |s| - 1 && forall i :: 0 <= i < |keys| ==> keys[i] == s[i + 1].key
    ensures Increasing(keys)
  {}

  /** The first p nodes have been dumped. */
  ghost predicate Dumped(s: seq<Node>, p: nat, keys: seq<int>, values: seq<int>) {
    && p < |s| && |keys| == |values| == p
    && (forall i :: 0 <= i < p ==> keys[i] == s[i + 1].key)
    && FromLists(keys, values) == Contents(s[..p + 1])
  }

  lemma DumpNothing(h: Node)
    ensures FromLists([], []) == map[] == Contents([h])
  {}

  lemma DumpNext(s: seq<Node>, p: nat, keys: seq<int>, values: seq<int>)
    requires Dumped(s, p, keys, values) && p + 1 < |s|
    ensures Dumped(s, p + 1, keys + [s[p + 1].key], values + [s[p + 1].value])
  {
    hide Contents;
    var n := s[p + 1];
    assert s[..p + 2] == s[..p + 1] + [n];
    ContentsSnoc(s[..p + 1], n);
    assert (keys + [n.key])[..p] == keys && (values + [n.value])[..p] == values;
  }

  /** The next node of the bottom level. */
  method Successor(l: SkipList, node: Node, ghost p: nat) returns (next: Node?)
    requires l.Valid() && p < |l.s| && node == l.s[p]
    ensures l.Valid() && next == Link(l.s, p + 1)
  {
    hide Sorted, Contents;
    assert Linked(l.s, 0);
    NextIs(l.s, p, 0, p + 1);
    next := node.forward[0];
  }

  /** load_file, as written; coins decides the levels. */
  method Load(l: SkipList, keys: seq<int>, coins: nat -> nat)
    requires l.Valid()
    modifies l, Arrays(l.s)
    ensures l.Valid() && l.Map() == Loaded(old(l.Map()), keys) && fresh(Arrays(l.s) - old(Arrays(l.s)))
  {
    ghost var fixed := Arrays(l.s);
    for i := 0 to |keys|
      invariant l.Valid() && fresh(Arrays(l.s) - fixed) && l.Map() == Loaded(old(l.Map()), keys[..i])
    {
      var e := l.Insert(keys[i], keys[i], coins(i));
      assert keys[..i + 1][..i] == keys[..i];
    }
    assert keys[..|keys|] == keys;
  }

  /** What loading is for: a list with exactly the saved pairs. */
  method Restore(max: nat, keys: seq<int>, values: seq<int>, coins: nat -> nat) returns (l: SkipList)
    requires |keys| == |values|
    ensures fresh(l) && fresh(Arrays(l.s)) && l.Valid() && l.Map() == FromLists(keys, values)
  {
    l := new SkipList(max);
    for i := 0 to |keys|
      invariant fresh(l) && fresh(Arrays(l.s)) && l.Valid() && l.Map() == FromLists(keys[..i], values[..i])
    {
      l.InsertSet(keys[i], values[i], coins(i));
      assert keys[..i + 1][..i] == keys[..i] && values[..i + 1][..i] == values[..i];
    }
    assert keys[..|keys|] == keys && values[..|values|] == values;
  }

  // ------------------------------------------------------------------ when loading restores

  lemma {:induction false} LoadedHas(m: map<int, int>, keys: seq<int>, k: int)
    ensures k in Loaded(m, keys) <==> k in m || k in keys
    ensures k in Loaded(m, keys) ==> Loaded(m, keys)[k] == if k in m then m[k] else k
    decreases |keys|
  {
    if keys != [] {
      LoadedHas(m, keys[..|keys| - 1], k);
      LoadedHas(m, keys[..|keys| - 1], keys[|keys| - 1]);
      assert keys == keys[..|keys| - 1] + [keys[|keys| - 1]];
    }
  }

  lemma {:induction false} FromListsAt(keys: seq<int>, values: seq<int>, i: nat)
    requires |keys| == |values| && Increasing(keys) && i < |keys|
    ensures keys[i] in FromLists(keys, values) && FromLists(keys, values)[keys[i]] == values[i]
    decreases |keys|
  {
    if i < |keys| - 1 {
      FromListsAt(keys[..|keys| - 1], values[..|keys| - 1], i);
    }
  }

  lemma {:induction false} FromListsOnly(keys: seq<int>, values: seq<int>, k: int)
    requires |keys| == |values| && k in FromLists(keys, values)
    ensures k in keys
    decreases |keys|
  {
    if k != keys[|keys| - 1] {
      FromListsOnly(keys[..|keys| - 1], values[..|keys| - 1], k);
    }
  }

  lemma FromListsHas(keys: seq<int>, values: seq<int>)
    requires |keys| == |values| && Increasing(keys)
    ensures forall k :: k in FromLists(keys, values) <==> k in keys
    ensures forall i :: 0 <= i < |keys| ==> FromLists(keys, values)[keys[i]] == values[i]
  {
    hide FromLists;
    forall i: nat | i < |keys| ensures keys[i] in FromLists(keys, values) && FromLists(keys, values)[keys[i]] == values[i] {
      FromListsAt(keys, values, i);
    }
    forall k | k in FromLists(keys, values) ensures k in keys {
      FromListsOnly(keys, values, k);
    }
  }

  /** The condition under which loading a dump into a list that holds m gives the dumped map. */
  predicate Restores(m: map<int, int>, keys: seq<int>, values: seq<int>)
    requires |keys| == |values|
  {
    && (forall k <- m :: k in keys)
    && (forall i :: 0 <= i < |keys| ==> values[i] == if keys[i] in m then m[keys[i]] else keys[i])
  }

  /**
    Loading as written restores a dump exactly when the list held no other keys, held the dumped values
    under those it did hold, and every other dumped value is its own key.
   */
  lemma LoadExact(m: map<int, int>, keys: seq<int>, values: seq<int>)
    requires |keys| == |values| && Increasing(keys)
    ensures Loaded(m, keys) == FromLists(keys, values) <==> Restores(m, keys, values)
  {
    hide FromLists, Loaded;
    var a, b := Loaded(m, keys), FromLists(keys, values);
    FromListsHas(keys, values);
    forall k ensures (k in a <==> k in m || k in keys) && (k in a ==> a[k] == if k in m then m[k] else k) {
      LoadedHas(m, keys, k);
    }
    if a == b {
      forall k <- m ensures k in keys {
        assert k in a && k in b;
      }
      forall i | 0 <= i < |keys| ensures values[i] == if keys[i] in m then m[keys[i]] else keys[i] {
        assert b[keys[i]] == values[i] && a[keys[i]] == b[keys[i]];
      }
    }
    if Restores(m, keys, values) {
      forall k | k in a ensures k in b && a[k] == b[k] {
        var i :| 0 <= i < |keys| && keys[i] == k;
        assert b[keys[i]] == values[i];
      }
      assert forall k :: k in b ==> k in keys && k in a;
      assert a.Keys == b.Keys;
    }
  }

  /** Into an empty list: exactly when every value equals its key. */
  lemma LoadIntoEmpty(keys: seq<int>, values: seq<int>)
    requires |keys| == |values| && Increasing(keys)
    ensures Loaded(map[], keys) == FromLists(keys, values) <==> keys == values
  {
    LoadExact(map[], keys, values);
  }

  /** A dump of one pair, loaded into an empty list: the key comes back as its own value. */
  lemma LoadLosesValue()
    ensures Loaded(map[], [1]) == map[1 := 1] && FromLists([1], [5]) == map[1 := 5]
  {
    var one := [1];
    assert one[..0] == [] && [5][..0] == [];
    assert Loaded(map[], []) == map[] && FromLists([], []) == map[];
  }
}
