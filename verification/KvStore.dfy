/**
  The replicated state machine (src/kvserver/KvServer.cc): commands from the log, the table of each
  client's last request, reads served beside the log, and the queues on which callers wait. Keys and
  values are of one type, as in SkipOrder. "Append" stores its value just as "Put" does.
 */
module KvStore {

  datatype Op = Op(operation: string, key: int, value: int, client: string, request: int)

  datatype Store = Store(kv: map<int, int>, last: map<string, int>, snapIndex: int, waits: map<int, seq<Op>>)

  /** ifRequestDuplicate */
  predicate Duplicate(s: Store, op: Op) {
    op.client in s.last && op.request <= s.last[op.client]
  }

  /** ExecutePutOpOnKVDB, ExecuteAppendOpOnKVDB */
  function Execute(s: Store, op: Op): Store {
    s.(kv := s.kv[op.key := op.value], last := s.last[op.client := op.request])
  }

  /** SendMessageToWaitChan */
  function Wake(s: Store, index: int, op: Op): Store {
    if index in s.waits then s.(waits := s.waits[index := s.waits[index] + [op]]) else s
  }

  /** The command is executed when it comes out of the log at this index. */
  predicate Executes(s: Store, index: int, op: Op) {
    index > s.snapIndex && op.operation in {"Put", "Append"} && !Duplicate(s, op)
  }

  /** GetCommandFromRaft */
  function ApplyCommand(s: Store, index: int, op: Op): Store {
    if index <= s.snapIndex then s
    else Wake(if Executes(s, index, op) then Execute(s, op) else s, index, op)
  }

  /** ExecuteGetOpOnKVDB records the request without looking at what is recorded. */
  function ServeGet(s: Store, op: Op): Store {
    s.(last := s.last[op.client := op.request])
  }

  /**
    A command above the snapshot that is a Put or an Append, and whose client has no request recorded that is
    as high, stores its value under its key and its request under its client. Any other command leaves map and
    table alone. Whoever waits at its index gets every command above the snapshot.
   */
  lemma CommandExact(s: Store, index: int, op: Op)
    ensures var t := ApplyCommand(s, index, op);
      var runs := && index > s.snapIndex && (op.operation == "Put" || op.operation == "Append")
                  && (op.client in s.last ==> s.last[op.client] < op.request);
      && (runs ==> op.key in t.kv && t.kv[op.key] == op.value && op.client in t.last && t.last[op.client] == op.request)
      && (forall k :: !(runs && k == op.key) ==> (k in t.kv <==> k in s.kv) && (k in s.kv ==> t.kv[k] == s.kv[k]))
      && (forall c :: !(runs && c == op.client) ==> (c in t.last <==> c in s.last) && (c in s.last ==> t.last[c] == s.last[c]))
      && t.snapIndex == s.snapIndex && t.waits.Keys == s.waits.Keys
      && forall i <- s.waits :: t.waits[i] == if i == index && index > s.snapIndex then s.waits[i] + [op] else s.waits[i]
  {}

  /** A served read changes nothing but its client's entry, which becomes its request whatever it was. */
  lemma ServedExact(s: Store, op: Op)
    ensures var t := ServeGet(s, op);
      && op.client in t.last && t.last[op.client] == op.request
      && (forall c :: c != op.client ==> (c in t.last <==> c in s.last) && (c in s.last ==> t.last[c] == s.last[c]))
      && t == s.(last := t.last)
  {}

  // ------------------------------------------------------------------ at most once

  /** What happens to a server: a command of the log arrives, or a read is served. */
  datatype Event = Command(index: int, op: Op) | Read(op: Op)

  function Handle(s: Store, e: Event): Store {
    match e
    case Command(i, op) => ApplyCommand(s, i, op)
    case Read(op) => ServeGet(s, op)
  }

  function Run(s: Store, es: seq<Event>): Store
    decreases |es|
  {
    if es == [] then s else Handle(Run(s, es[..|es| - 1]), es[|es| - 1])
  }

  function Start(waits: map<int, seq<Op>>): Store {
    Store(map[], map[], 0, waits)
  }

  /** The event leaves its request in the table. */
  predicate Records(e: Event) {
    e.Read? || (e.op.operation in {"Put", "Append"} && e.index > 0)
  }

  /** An earlier recorded request of the same client that is at least as high. */
  predicate Overtaken(es: seq<Event>, op: Op) {
    exists e <- es :: Records(e) && e.op.client == op.client && e.op.request >= op.request
  }

  /** Event e is no read of a request below one that its client has had recorded. */
  predicate Rises(es: seq<Event>, e: Event) {
    e.Read? ==> forall d <- es :: Records(d) && d.op.client == e.op.client ==> d.op.request <= e.op.request
  }

  /** No read records a request below one recorded before. */
  predicate ReadsRise(es: seq<Event>)
    decreases |es|
  {
    es != [] ==> ReadsRise(es[..|es| - 1]) && Rises(es[..|es| - 1], es[|es| - 1])
  }

  /** The log without retries: the writes that no earlier request of their client has overtaken. */
  function Deduplicated(es: seq<Event>): seq<Op>
    decreases |es|
  {
    if es == [] then []
    else
      var before, e := es[..|es| - 1], es[|es| - 1];
      if e.Command? && e.index > 0 && e.op.operation in {"Put", "Append"} && !Overtaken(before, e.op)
      then Deduplicated(before) + [e.op] else Deduplicated(before)
  }

  /** Applying a log without looking at anything but keys and values. */
  function Plain(ops: seq<Op>): map<int, int>
    decreases |ops|
  {
    if ops == [] then map[] else Plain(ops[..|ops| - 1])[ops[|ops| - 1].key := ops[|ops| - 1].value]
  }

  /** The table holds each client's highest recorded request. */
  predicate TableOk(es: seq<Event>, last: map<string, int>) {
    && (forall e <- es :: Records(e) ==> e.op.client in last && e.op.request <= last[e.op.client])
    && (forall c <- last :: exists e <- es :: Records(e) && e.op.client == c && e.op.request == last[c])
  }

  lemma OvertakenIsDuplicate(es: seq<Event>, s: Store, op: Op)
    requires TableOk(es, s.last)
    ensures Overtaken(es, op) <==> Duplicate(s, op)
  {}

  lemma TableGrows(es: seq<Event>, e: Event, s: Store)
    requires TableOk(es, s.last) && s.snapIndex == 0
    requires Rises(es, e)
    ensures TableOk(es + [e], Handle(s, e).last) && Handle(s, e).snapIndex == 0
  {
    var t, all := Handle(s, e), es + [e];
    assert e == all[|es|] && e in all;
    forall d <- all ensures Records(d) ==> d.op.client in t.last && d.op.request <= t.last[d.op.client] {
      if d != e {
        assert d in es;
      }
    }
    forall c <- t.last ensures exists d <- all :: Records(d) && d.op.client == c && d.op.request == t.last[c] {
      if c in s.last && t.last[c] == s.last[c] {
        var d :| d in es && Records(d) && d.op.client == c && d.op.request == s.last[c];
        assert d in all;
      } else {
        assert Records(e) && e.op.client == c && e.op.request == t.last[c];
      }
    }
  }

  /**
    Applying a log with retries through the table gives the map of the deduplicated log, as long as no
    read records a request below one recorded before.
   */
  lemma {:induction false} AtMostOnce(es: seq<Event>, waits: map<int, seq<Op>>)
    requires ReadsRise(es)
    ensures var s := Run(Start(waits), es);
      s.kv == Plain(Deduplicated(es)) && TableOk(es, s.last) && s.snapIndex == 0
    decreases |es|
  {
    if es != [] {
      var before, e := es[..|es| - 1], es[|es| - 1];
      assert ReadsRise(before) && Rises(before, e);
      hide TableOk, Overtaken, Plain, ReadsRise, Rises, Records, Handle, Deduplicated, Duplicate;
      AtMostOnce(before, waits);
      var s := Run(Start(waits), before);
      assert es == before + [e];
      TableGrows(before, e, s);
      OvertakenIsDuplicate(before, s, e.op);
      HandleKeeps(before, s, e);
    } else {
      assert TableOk([], map[]) && Plain([]) == map[] && Deduplicated([]) == [];
    }
  }

  lemma HandleKeeps(before: seq<Event>, s: Store, e: Event)
    requires s.kv == Plain(Deduplicated(before)) && s.snapIndex == 0
    requires Overtaken(before, e.op) <==> Duplicate(s, e.op)
    ensures Handle(s, e).kv == Plain(Deduplicated(before + [e]))
  {
    hide Plain, Overtaken, Duplicate;
    Next(s, before, e);
    PlainNext(Deduplicated(before), e.op);
  }

  lemma PlainNext(ops: seq<Op>, op: Op)
    ensures Plain(ops + [op]) == Plain(ops)[op.key := op.value]
  {
    assert (ops + [op])[..|ops + [op]| - 1] == ops;
  }

  /** Every operation of the deduplicated log comes from an event that is recorded. */
  lemma {:induction false} DeduplicatedRecorded(es: seq<Event>, op: Op)
    requires op in Deduplicated(es)
    ensures exists e <- es :: Records(e) && e.op == op
    decreases |es|
  {
    var before, e := es[..|es| - 1], es[|es| - 1];
    if op in Deduplicated(before) {
      DeduplicatedRecorded(before, op);
      var d :| d in before && Records(d) && d.op == op;
      assert d in es;
    } else {
      assert e in es && Records(e) && e.op == op;
    }
  }

  /** Each client's requests in the log without retries strictly rise. */
  lemma {:induction false} DeduplicatedRise(es: seq<Event>, i: nat, j: nat)
    requires i < j < |Deduplicated(es)| && Deduplicated(es)[i].client == Deduplicated(es)[j].client
    ensures Deduplicated(es)[i].request < Deduplicated(es)[j].request
    decreases |es|
  {
    var before, e := es[..|es| - 1], es[|es| - 1];
    if j < |Deduplicated(before)| {
      DeduplicatedRise(before, i, j);
    } else {
      var op := Deduplicated(before)[i];
      DeduplicatedRecorded(before, op);
      var d :| d in before && Records(d) && d.op == op;
      assert !Overtaken(before, e.op);
    }
  }

  // ------------------------------------------------------------------ what is executed

  /** The operations a server executes, in order. */
  function Executed(s: Store, es: seq<Event>): seq<Op>
    decreases |es|
  {
    if es == [] then []
    else
      var before, e := es[..|es| - 1], es[|es| - 1];
      Executed(s, before) + if e.Command? && Executes(Run(s, before), e.index, e.op) then [e.op] else []
  }

  /** In every run, nothing but these operations makes the map what it is. */
  lemma {:induction false} ExecutedMakeMap(es: seq<Event>, waits: map<int, seq<Op>>)
    ensures Run(Start(waits), es).kv == Plain(Executed(Start(waits), es))
    decreases |es|
  {
    if es != [] {
      var before, e := es[..|es| - 1], es[|es| - 1];
      ExecutedMakeMap(before, waits);
      assert Executed(Start(waits), before) + [] == Executed(Start(waits), before);
      PlainNext(Executed(Start(waits), before), e.op);
    }
  }

  /** Executed is the log without retries, as long as no read records a request below one recorded before. */
  lemma {:induction false} ExecutedIsDeduplicated(es: seq<Event>, waits: map<int, seq<Op>>)
    requires ReadsRise(es)
    ensures Executed(Start(waits), es) == Deduplicated(es)
    decreases |es|
  {
    if es != [] {
      var before, e := es[..|es| - 1], es[|es| - 1];
      assert ReadsRise(before);
      hide Overtaken, TableOk, ReadsRise;
      ExecutedIsDeduplicated(before, waits);
      AtMostOnce(before, waits);
      OvertakenIsDuplicate(before, Run(Start(waits), before), e.op);
    }
  }

  /** Then each client's requests are executed in strictly rising order, so none is executed twice. */
  lemma RequestsRise(es: seq<Event>, waits: map<int, seq<Op>>, i: nat, j: nat)
    requires ReadsRise(es)
    requires i < j < |Executed(Start(waits), es)|
    requires Executed(Start(waits), es)[i].client == Executed(Start(waits), es)[j].client
    ensures Executed(Start(waits), es)[i].request < Executed(Start(waits), es)[j].request
  {
    ExecutedIsDeduplicated(es, waits);
    DeduplicatedRise(es, i, j);
  }

  /** A read lets the last write of its client run again exactly when it records a lower request. */
  lemma ReadExact(s: Store, read: Op, write: Op, index: int)
    requires write.operation in {"Put", "Append"} && write.client == read.client && index > s.snapIndex && index !in s.waits
    requires write.client in s.last && s.last[write.client] == write.request
    ensures ApplyCommand(s, index, write) == s
    ensures ApplyCommand(ServeGet(s, read), index, write) == ServeGet(s, read) <==> read.request >= write.request
  {
    if read.request < write.request {
      assert ApplyCommand(ServeGet(s, read), index, write).last[write.client] == write.request;
    }
  }

  /** Then a retry in the log undoes another client's write. */
  lemma LateReadRunsTwice()
    ensures var w := Op("Put", 7, 1, "a", 2);
      var es := [Command(1, w), Command(2, Op("Put", 7, 5, "b", 1)), Read(Op("Get", 7, 0, "a", 1)), Command(3, w)];
      && Run(Start(map[]), es).kv == map[7 := 1] && Plain(Deduplicated(es)) == map[7 := 5]
  {
    var w, x, r := Op("Put", 7, 1, "a", 2), Op("Put", 7, 5, "b", 1), Op("Get", 7, 0, "a", 1);
    var d1, d2, d3 := [] + [Command(1, w)], [] + [Command(1, w)] + [Command(2, x)],
                      [] + [Command(1, w)] + [Command(2, x)] + [Read(r)];
    hide Run, Deduplicated, Overtaken, Plain, Handle;
    LateReadOvertakes(w, x, r);
    LateReadStores(w, x, r);
    var s0 := Start(map[]);
    Nothing(s0);
    Next(s0, [], Command(1, w));
    Next(s0, d1, Command(2, x));
    Next(s0, d2, Read(r));
    Next(s0, d3, Command(3, w));
    assert d3 + [Command(3, w)] == [Command(1, w), Command(2, x), Read(r), Command(3, w)];
    PlainNext([], w);
    PlainNext([] + [w], x);
    assert map[][7 := 1][7 := 5] == map[7 := 5];
  }

  lemma Nothing(s: Store)
    ensures Run(s, []) == s && Deduplicated([]) == [] && Plain([]) == map[]
  {}

  lemma LateReadOvertakes(w: Op, x: Op, r: Op)
    requires w == Op("Put", 7, 1, "a", 2) && x == Op("Put", 7, 5, "b", 1) && r == Op("Get", 7, 0, "a", 1)
    ensures !Overtaken([], w) && !Overtaken([] + [Command(1, w)], x)
    ensures Overtaken([] + [Command(1, w)] + [Command(2, x)] + [Read(r)], w)
  {
    assert Command(1, w) in [] + [Command(1, w)] + [Command(2, x)] + [Read(r)];
  }

  lemma LateReadStores(w: Op, x: Op, r: Op)
    requires w == Op("Put", 7, 1, "a", 2) && x == Op("Put", 7, 5, "b", 1) && r == Op("Get", 7, 0, "a", 1)
    ensures Handle(Handle(Handle(Handle(Start(map[]), Command(1, w)), Command(2, x)), Read(r)), Command(3, w)).kv
            == map[7 := 1]
  {
    var s1 := Handle(Start(map[]), Command(1, w));
    assert s1 == Store(map[7 := 1], map["a" := 2], 0, map[]);
    var s2 := Handle(s1, Command(2, x));
    assert s2.kv == map[7 := 5] && s2.last == map["a" := 2, "b" := 1];
    var s3 := Handle(s2, Read(r));
    assert s3.last["a"] == 1;
  }

  lemma Next(s: Store, es: seq<Event>, e: Event)
    ensures Run(s, es + [e]) == Handle(Run(s, es), e)
    ensures Deduplicated(es + [e])
            == if e.Command? && e.index > 0 && e.op.operation in {"Put", "Append"} && !Overtaken(es, e.op)
               then Deduplicated(es) + [e.op] else Deduplicated(es)
  {
    assert (es + [e])[..|es + [e]| - 1] == es;
  }
}
