/**
  The state machine as an object over a skip list, with the loop that takes messages off the channel.
  Every method is proved to take it from one state to the next as KvStore and KvSnapshots say.
 */
module KvServer {
  import opened Wrappers
  import opened SkipOrder
  import opened SkipList
  import opened SkipDump
  import opened KvStore
  import opened KvSnapshots

  /** A message in the channel; a snapshot travels as its dumped lists. */
  datatype Message =
    | CommandMessage(index: int, op: Op)
    | SnapshotMessage(index: int, keys: seq<int>, values: seq<int>, last: map<string, int>)

  predicate WellFormed(m: Message) {
    m.SnapshotMessage? ==> |m.keys| == |m.values|
  }

  function Meaning(m: Message): Msg
    requires WellFormed(m)
  {
    match m
    case CommandMessage(i, op) => Cmd(i, op)
    case SnapshotMessage(i, keys, values, last) => Snap(i, Image(FromLists(keys, values), last))
  }

  function Meanings(ms: seq<Message>): seq<Msg>
    requires forall m <- ms :: WellFormed(m)
    decreases |ms|
  {
    if ms == [] then []
    else
      assert ms[|ms| - 1] in ms;
      Meanings(ms[..|ms| - 1]) + [Meaning(ms[|ms| - 1])]
  }

  /** A snapshot as it is proposed to Raft. */
  datatype Proposal = Proposal(keys: seq<int>, values: seq<int>, last: map<string, int>)

  /** The snapshot's lists and table are those of the store. */
  ghost predicate Reflects(d: Proposal, s: Store) {
    |d.keys| == |d.values| && Increasing(d.keys) && FromLists(d.keys, d.values) == s.kv && d.last == s.last
  }

  /** Division truncates towards zero. */
  function Ninth(bound: int): int {
    if bound >= 0 then bound / 9 else -(-bound / 9)
  }

  /** The test against the divided bound, multiplied out; the division rounds towards zero. */
  lemma NinthExact(size: int, bound: int)
    ensures bound >= 0 ==> (size > Ninth(bound) <==> 9 * size > bound)
    ensures bound < 0 ==> (size > Ninth(bound) <==> 9 * size >= bound + 9)
  {}

  /** What load_file makes of a map depends on the dumped keys alone. */
  lemma LoadedIsAdded(m: map<int, int>, keys: seq<int>, values: seq<int>)
    requires |keys| == |values|
    ensures Loaded(m, keys) == Added(m, FromLists(keys, values))
  {
    var a, b := Loaded(m, keys), Added(m, FromLists(keys, values));
    forall k ensures (k in a <==> k in b) && (k in a ==> a[k] == b[k]) {
      LoadedHas(m, keys, k);
      FromListsKey(keys, values, k);
    }
    assert a.Keys == b.Keys;
  }

  lemma {:induction false} FromListsKey(keys: seq<int>, values: seq<int>, k: int)
    requires |keys| == |values|
    ensures k in FromLists(keys, values) <==> k in keys
    decreases |keys|
  {
    if keys != [] {
      FromListsKey(keys[..|keys| - 1], values[..|keys| - 1], k);
      assert keys == keys[..|keys| - 1] + [keys[|keys| - 1]];
    }
  }

  class Server {
    var list: SkipList
    var last: map<string, int>
    var snapIndex: int
    var waits: map<int, seq<Op>>

    ghost predicate Valid()
      reads this, list, Arrays(list.s)
    {
      list.Valid()
    }

    ghost function State(): Store
      reads this, list
    {
      Store(list.Map(), last, snapIndex, waits)
    }

    constructor (maxLevel: nat)
      ensures Valid() && fresh(list) && fresh(Arrays(list.s)) && State() == Start(map[])
    {
      list := new SkipList(maxLevel);
      last, snapIndex, waits := map[], 0, map[];
    }

    /** ExecutePutOpOnKVDB and ExecuteAppendOpOnKVDB do the same. */
    method ExecuteWrite(op: Op, coins: nat)
      requires Valid()
      modifies this`last, list, Arrays(list.s)
      ensures Valid() && fresh(Arrays(list.s) - old(Arrays(list.s))) && State() == Execute(old(State()), op)
    {
      hide Sorted, Apart, Linked, Contents;
      list.InsertSet(op.key, op.value, coins);
      last := last[op.client := op.request];
    }

    /** The table and the snapshot index are not part of the list. */
    method Note(table: map<string, int>, index: int)
      requires Valid()
      modifies this`last, this`snapIndex
      ensures Valid() && State() == old(State()).(last := table, snapIndex := index)
    {
      hide SkipList.Valid, SkipList.Map;
      last, snapIndex := table, index;
      ListStays();
    }

    /** The list does not depend on the other fields. */
    twostate lemma ListStays()
      requires old(Valid()) && list == old(list) && unchanged(list) && unchanged(Arrays(list.s))
      ensures Valid() && list.Map() == old(list.Map())
    {}

    method ExecuteGet(op: Op) returns (value: int, exist: bool)
      requires Valid()
      modifies this`last, this`snapIndex
      ensures Valid() && State() == ServeGet(old(State()), op)
      ensures exist <==> op.key in list.Map()
      ensures exist ==> value == list.Map()[op.key]
    {
      hide Sorted, Apart, Contents, Linked;
      exist, value := list.Search(op.key);
      Note(last[op.client := op.request], snapIndex);
    }

    method IfRequestDuplicate(client: string, request: int) returns (r: bool)
      ensures r <==> client in last && request <= last[client]
    {
      if client !in last {
        return false;
      }
      r := request <= last[client];
    }

    /** IfNeedToSendSnapShotCommand, with the size of the Raft state and a ninth of the bound it is compared with. */
    method IfNeedToSendSnapShotCommand(size: int, bound: int) returns (snapshot: Option<Proposal>)
      requires Valid()
      ensures Valid() && (snapshot.Some? <==> size > Ninth(bound))
      ensures snapshot.Some? ==> Reflects(snapshot.value, State())
    {
      hide Sorted, Apart, Linked, Contents;
      if size <= Ninth(bound) {
        return None;
      }
      var keys, values := Dump(list);
      snapshot := Some(Proposal(keys, values, last));
    }

    /** A command from the log; bound is -1 if no snapshots are to be proposed. */
    method GetCommandFromRaft(index: int, op: Op, coins: nat, size: int, bound: int)
      returns (snapshot: Option<Proposal>)
      requires Valid()
      modifies this`last, this`waits, list, Arrays(list.s)
      ensures Valid() && fresh(Arrays(list.s) - old(Arrays(list.s)))
      ensures State() == ApplyCommand(old(State()), index, op)
      ensures snapshot.Some? <==> index > old(snapIndex) && bound != -1 && size > Ninth(bound)
      ensures snapshot.Some? ==> Reflects(snapshot.value, State())
    {
      hide Sorted, Apart, Linked, Contents, FromLists, Increasing;
      if index <= snapIndex {
        return None;
      }
      var duplicate := IfRequestDuplicate(op.client, op.request);
      if !duplicate && (op.operation == "Put" || op.operation == "Append") {
        ExecuteWrite(op, coins);
      }
      snapshot := None;
      if bound != -1 {
        snapshot := IfNeedToSendSnapShotCommand(size, bound);
      }
      SendMessageToWaitChan(op, index);
    }

    method SendMessageToWaitChan(op: Op, index: int)
      requires Valid()
      modifies this`waits
      ensures Valid() && State() == Wake(old(State()), index, op)
    {
      hide SkipList.Valid, SkipList.Map;
      if index in waits {
        waits := waits[index := waits[index] + [op]];
      }
      ListStays();
    }

    /** GetSnapShotFromRaft with load_file as written: keys are their own values, and old keys stay. */
    method GetSnapShotFromRaft(index: int, keys: seq<int>, values: seq<int>, table: map<string, int>, coins: nat -> nat)
      requires Valid() && |keys| == |values|
      modifies this, list, Arrays(list.s)
      ensures Valid() && list == old(list) && fresh(Arrays(list.s) - old(Arrays(list.s)))
      ensures State() == Install(Adding, old(State()), index, Image(FromLists(keys, values), table))
    {
      hide Sorted, Apart, Contents, Linked, Loaded, Added, FromLists;
      LoadedIsAdded(list.Map(), keys, values);
      Load(list, keys, coins);
      Note(table, index);
    }

    /** The same with a load that replaces the store. */
    method ReplaceFromSnapshot(index: int, keys: seq<int>, values: seq<int>, table: map<string, int>, coins: nat -> nat)
      requires Valid() && |keys| == |values|
      modifies this
      ensures Valid() && fresh(list) && fresh(Arrays(list.s))
      ensures State() == Install(Replacing, old(State()), index, Image(FromLists(keys, values), table))
    {
      hide Sorted, Apart, Linked, Contents;
      list := Restore(list.maxLevel, keys, values, coins);
      last, snapIndex := table, index;
    }

    /** One message off the channel. */
    method HandleMessage(load: Loading, m: Message, level: nat, coins: nat -> nat)
      requires Valid() && WellFormed(m)
      modifies this, list, Arrays(list.s)
      ensures Valid() && (list == old(list) || fresh(list)) && fresh(Arrays(list.s) - old(Arrays(list.s)))
      ensures State() == Consume(load, old(State()), Meaning(m))
    {
      hide Sorted, Apart, Linked, Contents, ApplyCommand, KvSnapshots.Install, FromLists;
      match m {
        case CommandMessage(index, op) => var _ := GetCommandFromRaft(index, op, level, 0, -1);
        case SnapshotMessage(index, keys, values, table) =>
          if load.Adding? {
            GetSnapShotFromRaft(index, keys, values, table, coins);
          } else {
            ReplaceFromSnapshot(index, keys, values, table, coins);
          }
      }
    }

    /** ReadRaftApplyCommandLoop, until the channel is empty. */
    method ReadChannel(load: Loading, ms: seq<Message>, coins: nat -> nat)
      requires Valid() && forall m <- ms :: WellFormed(m)
      modifies this, list, Arrays(list.s)
      ensures Valid() && State() == ConsumeAll(load, old(State()), Meanings(ms))
    {
      hide Sorted, Apart, Linked, Contents, Consume, Meaning, ConsumeAll, Meanings;
      ghost var l0, fixed := list, Arrays(list.s);
      ghost var s := State();
      NothingRead(load, s);
      for i := 0 to |ms|
        invariant Valid() && (list == l0 || fresh(list)) && fresh(Arrays(list.s) - fixed)
        invariant State() == ConsumeAll(load, s, Meanings(ms[..i]))
      {
        assert WellFormed(ms[i]);
        HandleMessage(load, ms[i], coins(i), coins);
        OneRead(load, s, ms[..i], ms[i]);
        assert ms[..i + 1] == ms[..i] + [ms[i]];
      }
      assert ms[..|ms|] == ms;
    }

    /** PutAppend, after its wait. */
    method AnswerWrite(op: Op, popped: seq<Op>) returns (r: Reply)
      ensures r == Answer(State(), op, popped)
    {
      if popped == [] {
        var duplicate := IfRequestDuplicate(op.client, op.request);
        return if duplicate then Ok else ErrWrongLeader;
      }
      r := if popped[0].client == op.client && popped[0].request == op.request then Ok else ErrWrongLeader;
    }
  }

  lemma NothingRead(load: Loading, s: Store)
    ensures ConsumeAll(load, s, Meanings([])) == s
  {}

  lemma OneRead(load: Loading, s: Store, ms: seq<Message>, m: Message)
    requires WellFormed(m) && forall k <- ms :: WellFormed(k)
    ensures forall k <- ms + [m] :: WellFormed(k)
    ensures ConsumeAll(load, s, Meanings(ms + [m])) == Consume(load, ConsumeAll(load, s, Meanings(ms)), Meaning(m))
  {
    hide Consume, Meaning;
    var all := ms + [m];
    assert all[..|all| - 1] == ms && all[|all| - 1] == m;
    var ns := Meanings(ms) + [Meaning(m)];
    assert Meanings(all) == ns && ns[..|ns| - 1] == Meanings(ms);
  }
}
