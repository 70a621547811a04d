/**
  Snapshots on their way from Raft to the state machine. A snapshot is put into the channel while
  commands that were copied before may still be waiting to be put there, so it can overtake them.
  Loading a snapshot is modelled as written and as it is meant.
 */
module KvSnapshots {
  import opened KvStore

  datatype Image = Image(kv: map<int, int>, last: map<string, int>)
  datatype Msg = Cmd(index: int, op: Op) | Snap(index: int, image: Image)

  /** As written, loading adds keys as their own values; it is meant to replace the store. */
  datatype Loading = Adding | Replacing

  /** Keys that are there already keep their values, and new ones become their own values. */
  function Added(kv: map<int, int>, dumped: map<int, int>): map<int, int> {
    map k | k in kv.Keys + dumped.Keys :: if k in kv then kv[k] else k
  }

  /** GetSnapShotFromRaft */
  function Install(load: Loading, s: Store, i: int, image: Image): Store {
    s.(kv := if load.Adding? then Added(s.kv, image.kv) else image.kv, last := image.last, snapIndex := i)
  }

  function Consume(load: Loading, s: Store, m: Msg): Store {
    match m
    case Cmd(i, op) => ApplyCommand(s, i, op)
    case Snap(i, image) => Install(load, s, i, image)
  }

  function ConsumeAll(load: Loading, s: Store, ms: seq<Msg>): Store
    decreases |ms|
  {
    if ms == [] then s else Consume(load, ConsumeAll(load, s, ms[..|ms| - 1]), ms[|ms| - 1])
  }

  /** What a snapshot of the store would hold. */
  function ImageOf(s: Store): Image {
    Image(s.kv, s.last)
  }

  lemma {:induction false} ConsumeConcat(load: Loading, s: Store, ms: seq<Msg>, ns: seq<Msg>)
    ensures ConsumeAll(load, s, ms + ns) == ConsumeAll(load, ConsumeAll(load, s, ms), ns)
    decreases |ns|
  {
    if ns == [] {
      assert ms + ns == ms;
    } else {
      var all := ms + ns;
      assert all[..|all| - 1] == ms + ns[..|ns| - 1];
      ConsumeConcat(load, s, ms, ns[..|ns| - 1]);
    }
  }

  lemma ConsumeOne(load: Loading, s: Store, m: Msg)
    ensures ConsumeAll(load, s, [m]) == Consume(load, s, m)
  {
    assert [m][..0] == [];
  }

  // ------------------------------------------------------------------ loading

  /** Adding a dump to this map leaves the dumped value under this key, or nothing if there is none. */
  predicate FitsAt(kv: map<int, int>, dumped: map<int, int>, k: int) {
    && (k in kv ==> k in dumped)
    && (k in dumped ==> dumped[k] == if k in kv then kv[k] else k)
  }

  ghost predicate Fits(kv: map<int, int>, dumped: map<int, int>) {
    forall k :: FitsAt(kv, dumped, k)
  }

  predicate Agree(a: map<int, int>, b: map<int, int>, k: int) {
    (k in a <==> k in b) && (k in a ==> a[k] == b[k])
  }

  lemma AgreeIsEqual(a: map<int, int>, b: map<int, int>)
    ensures a == b <==> forall k :: Agree(a, b, k)
  {
    if forall k :: Agree(a, b, k) {
      forall k ensures k in a <==> k in b {
        assert Agree(a, b, k);
      }
      assert a.Keys == b.Keys;
      forall k <- a ensures a[k] == b[k] {
        assert Agree(a, b, k);
      }
    }
  }

  lemma AddedAgrees(kv: map<int, int>, dumped: map<int, int>)
    ensures forall k :: Agree(Added(kv, dumped), dumped, k) <==> FitsAt(kv, dumped, k)
    ensures Added(kv, dumped) == dumped <==> Fits(kv, dumped)
  {
    AgreeIsEqual(Added(kv, dumped), dumped);
  }

  /** A dump of more keys, added to two maps of which one grew out of the other. */
  lemma AddedToBoth(a: map<int, int>, b: map<int, int>, dumped: map<int, int>)
    requires a.Keys <= b.Keys <= dumped.Keys
    ensures Added(b, dumped) == Added(a, dumped) <==> Fits(a, b)
  {
    var x, y := Added(a, dumped), Added(b, dumped);
    if x == y {
      forall k ensures FitsAt(a, b, k) {
        if k in b {
          assert k in y && y[k] == x[k];
        }
      }
    }
    if Fits(a, b) {
      forall k ensures Agree(y, x, k) {
        assert FitsAt(a, b, k);
      }
      AgreeIsEqual(y, x);
    }
  }

  // ------------------------------------------------------------------ overtaking

  /** Commands up to index i. */
  predicate CommandsUpTo(ms: seq<Msg>, i: int) {
    forall m <- ms :: m.Cmd? && m.index <= i
  }

  lemma {:induction false} CoveredIgnored(load: Loading, s: Store, ms: seq<Msg>)
    requires CommandsUpTo(ms, s.snapIndex)
    ensures ConsumeAll(load, s, ms) == s
    decreases |ms|
  {
    if ms != [] {
      CoveredIgnored(load, s, ms[..|ms| - 1]);
      assert ms[|ms| - 1] in ms;
    }
  }

  /** The channel with a snapshot at position k. */
  function Overtaking(cs: seq<Msg>, k: nat, i: int, image: Image): seq<Msg>
    requires k <= |cs|
  {
    cs[..k] + [Snap(i, image)] + cs[k..]
  }

  lemma LoadedLast(load: Loading, s: Store, cs: seq<Msg>, k: nat, i: int, image: Image)
    requires k <= |cs| && CommandsUpTo(cs, i)
    ensures ConsumeAll(load, s, Overtaking(cs, k, i, image)) == Install(load, ConsumeAll(load, s, cs[..k]), i, image)
  {
    hide ConsumeAll;
    var before, snap, behind := cs[..k], [Snap(i, image)], cs[k..];
    ConsumeConcat(load, s, before + snap, behind);
    ConsumeConcat(load, s, before, snap);
    ConsumeOne(load, ConsumeAll(load, s, before), snap[0]);
    CoveredIgnored(load, Install(load, ConsumeAll(load, s, before), i, image), behind);
  }

  /**
    A snapshot of index i, and commands up to i copied before it: whichever way they interleave in the
    channel, and whatever the store held, table and index end up as the snapshot says. So does the map if
    loading replaces the store; as written, exactly if the store it came upon held the dumped values under
    the keys it had, no other keys, and all other dumped values are their own keys.
   */
  lemma OvertakingExact(load: Loading, s: Store, cs: seq<Msg>, k: nat, i: int, image: Image)
    requires k <= |cs| && CommandsUpTo(cs, i)
    ensures var met, r := ConsumeAll(load, s, cs[..k]), ConsumeAll(load, s, Overtaking(cs, k, i, image));
      && r.last == image.last && r.snapIndex == i
      && (r.kv == image.kv <==> load.Replacing? || Fits(met.kv, image.kv))
  {
    LoadedLast(load, s, cs, k, i, image);
    AddedAgrees(ConsumeAll(load, s, cs[..k]).kv, image.kv);
  }

  // ------------------------------------------------------------------ catching up

  /** The commands of the log from index a + 1 to index b. */
  function Commands(log: seq<Op>, a: nat, b: nat): (ms: seq<Msg>)
    requires a <= b <= |log|
    ensures |ms| == b - a && forall k :: 0 <= k < |ms| ==> ms[k] == Cmd(a + 1 + k, log[a + k])
    decreases b - a
  {
    if a == b then [] else Commands(log, a, b - 1) + [Cmd(b, log[b - 1])]
  }

  /** The store after the first n entries of the log. */
  function AppliedLog(log: seq<Op>, n: nat): Store
    requires n <= |log|
  {
    if n == 0 then Start(map[]) else ApplyCommand(AppliedLog(log, n - 1), n, log[n - 1])
  }

  lemma CommandsNext(load: Loading, s: Store, log: seq<Op>, a: nat, b: nat)
    requires a < b <= |log|
    ensures ConsumeAll(load, s, Commands(log, a, b))
            == ApplyCommand(ConsumeAll(load, s, Commands(log, a, b - 1)), b, log[b - 1])
  {
    var ms := Commands(log, a, b);
    assert ms[..|ms| - 1] == Commands(log, a, b - 1);
  }

  lemma {:induction false} NoSnapshotYet(log: seq<Op>, n: nat)
    requires n <= |log|
    ensures AppliedLog(log, n).snapIndex == 0
  {
    if n > 0 {
      NoSnapshotYet(log, n - 1);
    }
  }

  lemma {:induction false} AppliedSplit(load: Loading, log: seq<Op>, i: nat, n: nat)
    requires i <= n <= |log|
    ensures ConsumeAll(load, AppliedLog(log, i), Commands(log, i, n)) == AppliedLog(log, n)
    decreases n - i
  {
    hide ApplyCommand;
    if i < n {
      AppliedSplit(load, log, i, n - 1);
      CommandsNext(load, AppliedLog(log, i), log, i, n);
    }
  }

  lemma CommandsJoin(log: seq<Op>, a: nat, b: nat, c: nat)
    requires a <= b <= c <= |log|
    ensures Commands(log, a, c) == Commands(log, a, b) + Commands(log, b, c)
  {}

  /** The command at index j + 1 is executed: it is neither a retry nor a read. */
  predicate Effective(log: seq<Op>, j: nat)
    requires j < |log|
  {
    Executes(AppliedLog(log, j), j + 1, log[j])
  }

  /** A command from index a + 1 to index b is executed and stores a value under this key. */
  predicate StoredBetween(log: seq<Op>, a: nat, b: nat, k: int)
    requires b <= |log|
  {
    exists j :: a <= j < b && Effective(log, j) && log[j].key == k
  }

  /** One command on two stores with the same table. */
  lemma SameTable(s: Store, t: Store, i: int, op: Op)
    requires s.last == t.last && s.snapIndex < i && t.snapIndex < i
    ensures var u, v := ApplyCommand(s, i, op), ApplyCommand(t, i, op);
      && u.last == v.last && u.snapIndex == s.snapIndex
      && forall k :: Agree(u.kv, v.kv, k) <==> Agree(s.kv, t.kv, k) || (Executes(t, i, op) && op.key == k)
  {
    assert Executes(s, i, op) <==> Executes(t, i, op);
  }

  /**
    A store with the table of the first a entries of the log, and the commands behind them: the table
    stays the log's, and so do exactly the keys that were right or are written on the way.
   */
  lemma {:induction false} KeysOnward(load: Loading, s: Store, log: seq<Op>, a: nat, b: nat)
    requires a <= b <= |log| && s.last == AppliedLog(log, a).last && s.snapIndex <= a
    ensures var r, t := ConsumeAll(load, s, Commands(log, a, b)), AppliedLog(log, b);
      && r.last == t.last && r.snapIndex == s.snapIndex
      && forall k :: Agree(r.kv, t.kv, k) <==> Agree(s.kv, AppliedLog(log, a).kv, k) || StoredBetween(log, a, b, k)
    decreases b - a
  {
    hide ConsumeAll, Commands, AppliedLog, ApplyCommand, StoredBetween, Agree, Executes;
    if a < b {
      KeysOnward(load, s, log, a, b - 1);
      CommandsNext(load, s, log, a, b);
      AppliedNext(log, b - 1);
      SameTable(ConsumeAll(load, s, Commands(log, a, b - 1)), AppliedLog(log, b - 1), b, log[b - 1]);
      StoredBetweenNext(log, a, b);
    } else {
      NothingSent(load, s, log, a);
    }
  }

  lemma AppliedNext(log: seq<Op>, k: nat)
    requires k < |log|
    ensures AppliedLog(log, k + 1) == ApplyCommand(AppliedLog(log, k), k + 1, log[k])
    ensures AppliedLog(log, k).snapIndex == 0
  {
    NoSnapshotYet(log, k);
  }

  lemma NothingSent(load: Loading, s: Store, log: seq<Op>, a: nat)
    requires a <= |log|
    ensures ConsumeAll(load, s, Commands(log, a, a)) == s && forall k :: !StoredBetween(log, a, a, k)
  {}

  lemma StoredBetweenNext(log: seq<Op>, a: nat, b: nat)
    requires a < b <= |log|
    ensures forall k :: StoredBetween(log, a, b, k) <==> StoredBetween(log, a, b - 1, k) || (Effective(log, b - 1) && log[b - 1].key == k)
  {
    hide Effective;
    forall k | Effective(log, b - 1) && log[b - 1].key == k ensures StoredBetween(log, a, b, k) {}
  }

  /**
    A server that receives a snapshot of the first i entries, in any interleaving with commands copied
    before it, and then the commands behind it up to n, holds what applying the log from the start gives,
    if loading replaces the store. As written it does so exactly if every key that adding the dump did not
    bring right is written again by a command behind it.
   */
  lemma CatchesUp(load: Loading, s: Store, log: seq<Op>, cs: seq<Msg>, k: nat, i: nat, n: nat)
    requires i <= n <= |log| && k <= |cs| && CommandsUpTo(cs, i)
    ensures var image := ImageOf(AppliedLog(log, i));
      var r := ConsumeAll(load, s, Overtaking(cs, k, i, image) + Commands(log, i, n));
      && r.last == AppliedLog(log, n).last
      && (ImageOf(r) == ImageOf(AppliedLog(log, n)) <==>
          load.Replacing? || forall x :: FitsAt(ConsumeAll(load, s, cs[..k]).kv, image.kv, x) || StoredBetween(log, i, n, x))
  {
    var image := ImageOf(AppliedLog(log, i));
    var ms := Overtaking(cs, k, i, image);
    var met := ConsumeAll(load, s, cs[..k]);
    var t := ConsumeAll(load, s, ms);
    LoadedLast(load, s, cs, k, i, image);
    ConsumeConcat(load, s, ms, Commands(log, i, n));
    AddedAgrees(met.kv, image.kv);
    KeysOnward(load, t, log, i, n);
    AgreeIsEqual(ConsumeAll(load, t, Commands(log, i, n)).kv, AppliedLog(log, n).kv);
    hide ConsumeAll, Commands, AppliedLog, StoredBetween, FitsAt, Added;
  }

  // ------------------------------------------------------------------ snapshots below what is applied

  /** Neither keys nor entries of the table go away, and no entry falls. */
  predicate Grown(s: Store, t: Store) {
    && s.kv.Keys <= t.kv.Keys
    && forall c <- s.last :: c in t.last && s.last[c] <= t.last[c]
  }

  /** A command that is executed raises its client's entry; any other leaves the contents alone. */
  lemma CommandMoves(s: Store, i: int, op: Op)
    requires i > s.snapIndex
    ensures var t := ApplyCommand(s, i, op);
      && Grown(s, t)
      && (Executes(s, i, op) ==> op.client in t.last && t.last[op.client] == op.request && !Duplicate(s, op))
      && (!Executes(s, i, op) ==> ImageOf(t) == ImageOf(s))
  {}

  lemma CommandMovesOn(log: seq<Op>, k: nat)
    requires k < |log|
    ensures var s, t, op := AppliedLog(log, k), AppliedLog(log, k + 1), log[k];
      && Grown(s, t)
      && (Effective(log, k) ==> op.client in t.last && t.last[op.client] == op.request && !Duplicate(s, op))
      && (!Effective(log, k) ==> ImageOf(t) == ImageOf(s))
  {
    AppliedNext(log, k);
    CommandMoves(AppliedLog(log, k), k + 1, log[k]);
    hide ApplyCommand, Executes, Grown;
  }

  lemma {:induction false} LogGrows(log: seq<Op>, i: nat, b: nat)
    requires i <= b <= |log|
    ensures Grown(AppliedLog(log, i), AppliedLog(log, b))
    decreases b - i
  {
    hide AppliedLog;
    if i < b {
      LogGrows(log, i, b - 1);
      CommandMovesOn(log, b - 1);
    }
  }

  /** The commands from index i + 1 to b are all retries, or no writes. */
  predicate NoneEffective(log: seq<Op>, i: nat, b: nat)
    requires b <= |log|
  {
    forall k :: i <= k < b ==> !Effective(log, k)
  }

  lemma {:induction false} NothingMoves(log: seq<Op>, i: nat, b: nat)
    requires i <= b <= |log| && NoneEffective(log, i, b)
    ensures ImageOf(AppliedLog(log, b)) == ImageOf(AppliedLog(log, i))
    decreases b - i
  {
    hide AppliedLog, Effective, ImageOf;
    if i < b {
      NothingMoves(log, i, b - 1);
      CommandMovesOn(log, b - 1);
    }
  }

  /** A command that is executed is never undone by the ones behind it: the table keeps it. */
  lemma EffectiveShows(log: seq<Op>, i: nat, k: nat, b: nat)
    requires i <= k < b <= |log| && Effective(log, k)
    ensures AppliedLog(log, b).last != AppliedLog(log, i).last
  {
    hide AppliedLog, Effective;
    LogGrows(log, i, k);
    CommandMovesOn(log, k);
    LogGrows(log, k + 1, b);
    var c := log[k].client;
    assert c in AppliedLog(log, b).last && AppliedLog(log, b).last[c] >= log[k].request;
  }

  /** Two prefixes of a log make the same table exactly if no command between them is executed. */
  lemma SameTableExact(log: seq<Op>, i: nat, b: nat)
    requires i <= b <= |log|
    ensures AppliedLog(log, i).last == AppliedLog(log, b).last <==> NoneEffective(log, i, b)
    ensures NoneEffective(log, i, b) ==> AppliedLog(log, i).kv == AppliedLog(log, b).kv
  {
    hide AppliedLog, Effective;
    if NoneEffective(log, i, b) {
      NothingMoves(log, i, b);
    } else {
      var k :| i <= k < b && Effective(log, k);
      EffectiveShows(log, i, k, b);
    }
  }

  /** Commands from a to b and then a snapshot of the first i entries. */
  lemma SnapshotLast(load: Loading, log: seq<Op>, a: nat, b: nat, i: nat)
    requires a <= b <= |log| && i <= |log|
    ensures var image := ImageOf(AppliedLog(log, i));
      ConsumeAll(load, AppliedLog(log, a), Commands(log, a, b) + [Snap(i, image)])
      == Install(load, AppliedLog(log, b), i, image)
  {
    hide ConsumeAll, Commands, AppliedLog, ImageOf;
    var snap := Snap(i, ImageOf(AppliedLog(log, i)));
    ConsumeConcat(load, AppliedLog(log, a), Commands(log, a, b), [snap]);
    AppliedSplit(load, log, a, b);
    ConsumeOne(load, AppliedLog(log, b), snap);
  }

  /** The same with the snapshot in front. */
  lemma SnapshotFirst(load: Loading, log: seq<Op>, a: nat, b: nat, i: nat)
    requires a <= i <= |log| && a <= b <= |log|
    ensures var image := ImageOf(AppliedLog(log, i));
      var r := ConsumeAll(load, AppliedLog(log, a), [Snap(i, image)] + Commands(log, a, b));
      && (i >= b ==> r == Install(load, AppliedLog(log, a), i, image))
      && (i < b ==> r.last == AppliedLog(log, b).last)
      && (i < b && NoneEffective(log, i, b) ==>
          (r.kv == image.kv <==> load.Replacing? || Fits(AppliedLog(log, a).kv, image.kv)))
  {
    hide ConsumeAll, Commands, AppliedLog, Added, FitsAt, Effective;
    var s, image := AppliedLog(log, a), ImageOf(AppliedLog(log, i));
    var c := if i < b then i else b;
    var cs, ds := Commands(log, a, c), Commands(log, c, b);
    NothingCopied(load, s, cs);
    assert Overtaking(cs, 0, i, image) == [Snap(i, image)] + cs;
    if i < b {
      CatchesUp(load, s, log, cs, 0, i, b);
      CommandsJoin(log, a, i, b);
      assert [Snap(i, image)] + cs + ds == [Snap(i, image)] + (cs + ds);
      if NoneEffective(log, i, b) {
        SameTableExact(log, i, b);
        assert forall x :: !StoredBetween(log, i, b, x);
      }
    } else {
      LoadedLast(load, s, cs, 0, i, image);
    }
  }

  lemma NothingCopied(load: Loading, s: Store, cs: seq<Msg>)
    ensures ConsumeAll(load, s, cs[..0]) == s
  {}

  /**
    The snapshot may also be older than what has been copied: there is no guard against it. Its place in
    the channel does not matter exactly if no command behind it, up to b, is executed: put in last, the
    snapshot takes such a write back for good, or as written its entry in the table. As written the map
    found on loading must also fit what the commands make of it.
   */
  lemma OrderExact(load: Loading, log: seq<Op>, a: nat, b: nat, i: nat)
    requires a <= i <= |log| && a <= b <= |log|
    ensures var s := AppliedLog(log, a);
      var snap, cs := [Snap(i, ImageOf(AppliedLog(log, i)))], Commands(log, a, b);
      ImageOf(ConsumeAll(load, s, snap + cs)) == ImageOf(ConsumeAll(load, s, cs + snap))
      <==> (forall k :: i <= k < b ==> !Executes(AppliedLog(log, k), k + 1, log[k]))
           && (load.Replacing? || Fits(s.kv, AppliedLog(log, b).kv))
  {
    NoneExact(log, i, b);
    hide ConsumeAll, Commands, AppliedLog, Executes, Fits, Effective, NoneEffective, Added;
    var l, m, r := AppliedLog(log, a), AppliedLog(log, b), AppliedLog(log, i);
    SnapshotLast(load, log, a, b, i);
    SnapshotFirst(load, log, a, b, i);
    LogGrows(log, a, b);
    if i < b {
      SameTableExact(log, i, b);
      LogGrows(log, a, i);
      AddedToBoth(m.kv, m.kv, m.kv);
      AddedAgrees(m.kv, m.kv);
      FitsItself(m.kv);
    } else {
      LogGrows(log, b, i);
      AddedToBoth(l.kv, m.kv, r.kv);
      Vacuous(log, i, b);
    }
  }

  lemma NoneExact(log: seq<Op>, i: nat, b: nat)
    requires b <= |log|
    ensures NoneEffective(log, i, b) <==> forall k :: i <= k < b ==> !Executes(AppliedLog(log, k), k + 1, log[k])
  {
    if NoneEffective(log, i, b) {
      forall k | i <= k < b ensures !Executes(AppliedLog(log, k), k + 1, log[k]) {
        assert !Effective(log, k);
      }
    }
  }

  lemma FitsItself(kv: map<int, int>)
    ensures Fits(kv, kv)
  {}

  lemma Vacuous(log: seq<Op>, i: nat, b: nat)
    requires b <= i && b <= |log|
    ensures NoneEffective(log, i, b)
  {}

  /** A write is lost for good: the store ends without it, and no command will bring it back. */
  lemma OldSnapshotUndoes()
    ensures var log := [Op("Put", 7, 1, "a", 1), Op("Put", 7, 2, "a", 2)];
      var snap := [Snap(1, ImageOf(AppliedLog(log, 1)))];
      && AppliedLog(log, 2).kv == map[7 := 2]
      && ConsumeAll(Replacing, AppliedLog(log, 0), Commands(log, 0, 2) + snap).kv == map[7 := 1]
      && ConsumeAll(Adding, AppliedLog(log, 0), Commands(log, 0, 2) + snap).last == map["a" := 1]
  {
    var log := [Op("Put", 7, 1, "a", 1), Op("Put", 7, 2, "a", 2)];
    assert AppliedLog(log, 1) == ApplyCommand(Start(map[]), 1, log[0]);
    assert AppliedLog(log, 2) == ApplyCommand(AppliedLog(log, 1), 2, log[1]);
    SnapshotLast(Replacing, log, 0, 2, 1);
    SnapshotLast(Adding, log, 0, 2, 1);
  }

  // ------------------------------------------------------------------ answers

  /** An operation handed to a waiting caller has been taken account of. */
  predicate QueuesOk(s: Store) {
    forall i <- s.waits :: forall op <- s.waits[i] :: op.operation in {"Put", "Append"} ==> Duplicate(s, op)
  }

  datatype Reply = Ok | ErrWrongLeader

  /** PutAppend, after its wait: popped is what it found in its queue, if anything. */
  function Answer(s: Store, op: Op, popped: seq<Op>): Reply {
    if popped == [] then (if Duplicate(s, op) then Ok else ErrWrongLeader)
    else if popped[0].client == op.client && popped[0].request == op.request then Ok else ErrWrongLeader
  }

  lemma CommandQueues(s: Store, i: int, op: Op)
    requires QueuesOk(s)
    ensures QueuesOk(ApplyCommand(s, i, op))
    ensures forall d :: Duplicate(s, d) ==> Duplicate(ApplyCommand(s, i, op), d)
  {
    var t := ApplyCommand(s, i, op);
    forall j <- t.waits, d <- t.waits[j] ensures d.operation in {"Put", "Append"} ==> Duplicate(t, d) {
      if d in s.waits[j] {
        assert d.operation in {"Put", "Append"} ==> Duplicate(s, d);
      }
    }
  }

  /**
    A caller who waits at an index, with nothing in the queue yet, is told Ok for the command that comes out
    there exactly if that is its own operation. If none comes in time it is told Ok exactly if a request of
    its client at least as high is recorded.
   */
  lemma AnswerExact(s: Store, index: int, op: Op, other: Op)
    requires index > s.snapIndex && index in s.waits && s.waits[index] == []
    ensures var t := ApplyCommand(s, index, other);
      Answer(t, op, t.waits[index]) == Ok <==> other.client == op.client && other.request == op.request
    ensures Answer(s, op, s.waits[index]) == Ok <==> op.client in s.last && s.last[op.client] >= op.request
  {
    CommandExact(s, index, other);
  }

  /** A write is answered Ok only if its request, or a later one of its client, is in the table. */
  lemma OkIsApplied(s: Store, index: int, op: Op, popped: seq<Op>)
    requires QueuesOk(s) && op.operation in {"Put", "Append"} && Answer(s, op, popped) == Ok
    requires popped != [] ==> index in s.waits && popped[0] in s.waits[index] && popped[0].operation in {"Put", "Append"}
    ensures Duplicate(s, op)
  {}
}
