/**
  The table of calls that wait for a response (src/rpc/MrpcchannelMultiReq.cc). A call is registered
  under its controller, issued under a fresh request number, and taken out of the table by a response
  with that number or by a failure of the connection; whoever takes it out runs its completion.
 */
module PendingCalls {

  datatype Call = Call(controller: int, done: int)

  /** connected is the file descriptor; ran counts how often the completion of each issued call has run. */
  datatype Channel = Channel(
    connected: bool, nextId: nat,
    registered: map<int, Call>, pending: map<nat, Call>,
    issued: set<nat>, ran: multiset<nat>)

  /** A response says yes or no; only the caller looks at that. */
  datatype Event =
    | Connect
    | Register(controller: int, call: Call)
    | Issue(controller: int)
    | Response(id: nat, yes: bool)
    | Failure

  // ------------------------------------------------------------------ what each operation does

  function Init(): Channel {
    Channel(false, 0, map[], map[], {}, multiset{})
  }

  /** CallMethod up to the point where the request is sent; the number is used up even if nothing is registered. */
  function DoIssue(c: Channel, controller: int): Channel {
    if !c.connected then c
    else if controller !in c.registered then c.(nextId := c.nextId + 1)
    else c.(nextId := c.nextId + 1,
            registered := c.registered - {controller},
            pending := c.pending[c.nextId := c.registered[controller]],
            issued := c.issued + {c.nextId})
  }

  /** completeResponse */
  function DoResponse(c: Channel, id: nat): Channel {
    if id in c.pending then c.(pending := c.pending - {id}, ran := c.ran + multiset{id}) else c
  }

  /** The descriptor is closed, and failAllPending takes the whole table. */
  function DoFailure(c: Channel): Channel {
    c.(connected := false, pending := map[], ran := c.ran + multiset(c.pending.Keys))
  }

  function Do(c: Channel, e: Event): Channel {
    match e
    case Connect => c.(connected := true)
    case Register(controller, call) =>
      // registering a controller twice ends the process
      if controller in c.registered then c else c.(registered := c.registered[controller := call])
    case Issue(controller) => DoIssue(c, controller)
    case Response(id, _) => DoResponse(c, id)
    case Failure => DoFailure(c)
  }

  function Run(es: seq<Event>): Channel
    decreases |es|
  {
    if es == [] then Init() else Do(Run(es[..|es| - 1]), es[|es| - 1])
  }

  // ------------------------------------------------------------------ the table

  /** Issued numbers are either waiting or taken, never both, and a taken one has run exactly once. */
  ghost predicate Split(c: Channel) {
    && (forall id <- c.issued :: id < c.nextId)
    && (forall id: nat :: id in c.issued <==> id in c.pending || id in c.ran)
    && (forall id: nat :: id in c.pending ==> c.ran[id] == 0)
    && (forall id: nat :: c.ran[id] <= 1)
  }

  lemma DoSplit(c: Channel, e: Event)
    requires Split(c)
    ensures Split(Do(c, e))
  {
    var r := Do(c, e);
    if e.Issue? {
      assert c.nextId !in c.issued;
    } else if e.Failure? {
      forall id: nat ensures r.ran[id] == c.ran[id] + if id in c.pending then 1 else 0 {}
    } else if e.Response? {
      forall id: nat ensures r.ran[id] == c.ran[id] + if id == e.id && id in c.pending then 1 else 0 {}
    }
  }

  /**
    Under any mix of responses, duplicate and unknown numbers, failures and reconnections, the completion
    of each issued call runs at most once, and exactly once when it has left the table.
   */
  lemma {:induction false} AtMostOneCompletion(es: seq<Event>)
    ensures Split(Run(es))
    decreases |es|
  {
    if es != [] {
      AtMostOneCompletion(es[..|es| - 1]);
      DoSplit(Run(es[..|es| - 1]), es[|es| - 1]);
    }
  }

  /** A second response to a call, and a response to a call never issued, change nothing. */
  lemma LateResponseIgnored(es: seq<Event>, id: nat, yes: bool)
    requires id in Run(es).ran || id !in Run(es).issued
    ensures Do(Run(es), Response(id, yes)) == Run(es)
  {
    AtMostOneCompletion(es);
  }

  /** A failure of the connection leaves no call waiting: all issued ones have run exactly once. */
  lemma FailureCompletesAll(es: seq<Event>, id: nat)
    requires id in Run(es).issued
    ensures Do(Run(es), Failure).ran[id] == 1 && Do(Run(es), Failure).pending == map[]
  {
    AtMostOneCompletion(es);
    DoSplit(Run(es), Failure);
    var r := Do(Run(es), Failure);
    assert id in r.ran;
  }

  /** A call made while the connection is down gets no number, and its completion never runs. */
  lemma RefusedNeverRuns(es: seq<Event>, controller: int)
    requires !Run(es).connected
    ensures Do(Run(es), Issue(controller)) == Run(es)
  {}

  /**
    Issuing a call on an open connection uses its number up. If the controller is registered, its call moves
    from one table to the other under that number, and only this one.
   */
  lemma IssueExact(c: Channel, controller: int)
    ensures var r, goes := Do(c, Issue(controller)), c.connected && controller in c.registered;
      && r.nextId == c.nextId + (if c.connected then 1 else 0)
      && (forall k :: k in r.registered <==> k in c.registered && !(goes && k == controller))
      && (forall k <- r.registered :: r.registered[k] == c.registered[k])
      && (goes ==> c.nextId in r.pending && r.pending[c.nextId] == c.registered[controller])
      && (forall id: nat :: !(goes && id == c.nextId) ==>
            (id in r.pending <==> id in c.pending) && (id in c.pending ==> r.pending[id] == c.pending[id]))
      && r.issued == (if goes then c.issued + {c.nextId} else c.issued)
      && r.connected == c.connected && r.ran == c.ran
  {}

  /** A call that is registered once is issued once: the second time only a number is used up. */
  lemma IssuedOnce(c: Channel, controller: int)
    ensures var r := Do(c, Issue(controller));
      Do(r, Issue(controller)) == r.(nextId := r.nextId + if c.connected then 1 else 0)
  {}

  /** Behind a failure no call is issued until the channel is connected again; what is registered stays so. */
  lemma FailureCloses(c: Channel, controller: int)
    ensures var r := Do(c, Failure);
      && Do(r, Issue(controller)) == r && Do(r, Connect) == r.(connected := true)
      && r.registered == c.registered && r.nextId == c.nextId && r.issued == c.issued
      && forall id: nat :: r.ran[id] == c.ran[id] + if id in c.pending then 1 else 0
  {}

  /** A controller keeps the call that was registered first. */
  lemma RegisteredOnce(c: Channel, controller: int, first: Call, second: Call)
    requires controller !in c.registered
    ensures var r := Do(c, Register(controller, first));
      && r == c.(registered := c.registered[controller := first])
      && Do(r, Register(controller, second)) == r
  {}

  /** A call registered, issued and answered on an open connection: its completion runs once more than before. */
  lemma CallCompletes(es: seq<Event>, controller: int, call: Call, yes: bool)
    requires controller !in Run(es).registered
    ensures var id := Run(es).nextId;
      var waits := Do(Do(Do(Run(es), Connect), Register(controller, call)), Issue(controller));
      && id in waits.pending && waits.pending[id] == call && id !in waits.ran
      && Do(waits, Response(id, yes)).ran == waits.ran + multiset{id}
      && id !in Do(waits, Response(id, yes)).pending
  {
    AtMostOneCompletion(es);
    var c := Run(es);
    assert c.nextId !in c.issued;
  }

  // ------------------------------------------------------------------ the vote counter

  /** A completion that ran for one of an election's calls, and whether it was a grant. */
  datatype Completion = Completion(id: nat, granted: bool)

  /** The counter of the election: one for itself, one for each grant. */
  function Counter(votes: seq<Completion>): nat
    decreases |votes|
  {
    if votes == [] then 1
    else Counter(votes[..|votes| - 1]) + if votes[|votes| - 1].granted then 1 else 0
  }

  /** The peers that granted; call number id went to peer peerOf(id). */
  function Granting(votes: seq<Completion>, peerOf: nat -> nat): set<nat>
    decreases |votes|
  {
    if votes == [] then {}
    else
      var v := votes[|votes| - 1];
      Granting(votes[..|votes| - 1], peerOf) + if v.granted then {peerOf(v.id)} else {}
  }

  lemma {:induction false} GrantingFrom(votes: seq<Completion>, peerOf: nat -> nat, p: nat)
    requires p in Granting(votes, peerOf)
    ensures exists v <- votes :: v.granted && peerOf(v.id) == p
    decreases |votes|
  {
    var before, v := votes[..|votes| - 1], votes[|votes| - 1];
    if p in Granting(before, peerOf) {
      GrantingFrom(before, peerOf, p);
      var u :| u in before && u.granted && peerOf(u.id) == p;
      assert u in votes;
    } else {
      assert v in votes;
    }
  }

  predicate Injective(peerOf: nat -> nat, votes: seq<Completion>) {
    forall u <- votes, v <- votes :: peerOf(u.id) == peerOf(v.id) ==> u.id == v.id
  }

  /**
    The bare counter counts peers: with one call to each peer and one completion of each call it is
    exactly one more than the number of different peers that granted.
   */
  lemma {:induction false} CounterCountsPeers(votes: seq<Completion>, peerOf: nat -> nat)
    requires Injective(peerOf, votes) && forall i, j :: 0 <= i < j < |votes| ==> votes[i].id != votes[j].id
    ensures Counter(votes) == 1 + |Granting(votes, peerOf)|
    decreases |votes|
  {
    if votes != [] {
      var before, v := votes[..|votes| - 1], votes[|votes| - 1];
      assert forall u <- before :: u in votes;
      CounterCountsPeers(before, peerOf);
      assert v in votes;
      if v.granted && peerOf(v.id) in Granting(before, peerOf) {
        GrantingFrom(before, peerOf, peerOf(v.id));
        assert false;
      }
    }
  }

  /** The completions of call id in a run of peer p's channel, as the election sees them; a failure grants nothing. */
  function VotesOf(es: seq<Event>, id: nat, p: nat): seq<Completion>
    decreases |es|
  {
    if es == [] then []
    else
      var before, e := es[..|es| - 1], es[|es| - 1];
      VotesOf(before, id, p)
      + if e.Response? && e.id == id && id in Run(before).pending then [Completion(p, e.yes)] else []
  }

  /** A response is heard exactly while the call waits, and ends the waiting. */
  lemma HeardWhileWaiting(es: seq<Event>, id: nat, p: nat, yes: bool)
    ensures var all := es + [Response(id, yes)];
      && id !in Run(all).pending
      && VotesOf(all, id, p) == VotesOf(es, id, p) + if id in Run(es).pending then [Completion(p, yes)] else []
  {
    assert (es + [Response(id, yes)])[..|es + [Response(id, yes)]| - 1] == es;
  }

  lemma {:induction false} VotesHaveRun(es: seq<Event>, id: nat, p: nat)
    ensures |VotesOf(es, id, p)| <= Run(es).ran[id]
    ensures forall v <- VotesOf(es, id, p) :: v.id == p
    decreases |es|
  {
    if es != [] {
      var before, e := es[..|es| - 1], es[|es| - 1];
      VotesHaveRun(before, id, p);
      if e.Failure? {
        assert Run(es).ran[id] >= Run(before).ran[id];
      }
    }
  }

  /** Whatever happens on the channel, the call is counted at most once. */
  lemma CalledOnceHeardOnce(es: seq<Event>, id: nat, p: nat)
    ensures |VotesOf(es, id, p)| <= 1 && forall v <- VotesOf(es, id, p) :: v.id == p
  {
    VotesHaveRun(es, id, p);
    AtMostOneCompletion(es);
  }

  /** A peer in an election: what happened on its channel, and the number of the one call issued to it. */
  datatype Peer = Peer(events: seq<Event>, id: nat)

  /** All completions of an election's calls, peer by peer; the counter does not depend on their order. */
  function AllVotes(peers: seq<Peer>): seq<Completion>
    decreases |peers|
  {
    if peers == [] then []
    else
      var p := |peers| - 1;
      AllVotes(peers[..p]) + VotesOf(peers[p].events, peers[p].id, p)
  }

  lemma {:induction false} AllVotesDistinct(peers: seq<Peer>)
    ensures forall v <- AllVotes(peers) :: v.id < |peers|
    ensures forall i, j :: 0 <= i < j < |AllVotes(peers)| ==> AllVotes(peers)[i].id != AllVotes(peers)[j].id
    decreases |peers|
  {
    if peers != [] {
      var p := |peers| - 1;
      AllVotesDistinct(peers[..p]);
      CalledOnceHeardOnce(peers[p].events, peers[p].id, p);
      var before, last := AllVotes(peers[..p]), VotesOf(peers[p].events, peers[p].id, p);
      var votes: seq<Completion> := before + last;
      forall i, j | 0 <= i < j < |votes| ensures votes[i].id != votes[j].id {
        if i < |before| <= j {
          assert before[i] in before && last[j - |before|] in last;
        }
      }
    }
  }

  /** In an election's votes the number of a call is the peer it went to. */
  function GrantingPeers(votes: seq<Completion>): set<nat> {
    Granting(votes, id => id)
  }

  lemma GrantingBelow(votes: seq<Completion>, peerOf: nat -> nat, n: nat)
    requires forall v <- votes :: peerOf(v.id) < n
    ensures forall p <- Granting(votes, peerOf) :: p < n
  {
    forall p <- Granting(votes, peerOf) ensures p < n {
      GrantingFrom(votes, peerOf, p);
    }
  }

  /**
    The election's counter, for every run of the peers' channels with one call to each: it is one more than
    the number of different peers that granted, and so at most one more than there are peers.
   */
  lemma ElectionCountsPeers(peers: seq<Peer>)
    ensures Counter(AllVotes(peers)) == 1 + |GrantingPeers(AllVotes(peers))|
    ensures forall p <- GrantingPeers(AllVotes(peers)) :: p < |peers|
  {
    AllVotesDistinct(peers);
    CounterCountsPeers(AllVotes(peers), id => id);
    GrantingBelow(AllVotes(peers), id => id, |peers|);
  }

  /** If one completion ran twice, the counter could pass a majority that nobody granted. */
  lemma TwiceCountedBreaks()
    ensures Counter([Completion(0, true), Completion(0, true)]) == 3
    ensures forall peerOf: nat -> nat :: |Granting([Completion(0, true), Completion(0, true)], peerOf)| == 1
  {
    var one: seq<Completion>, two: seq<Completion> := [Completion(0, true)], [Completion(0, true), Completion(0, true)];
    assert two[..1] == one && one[..0] == [];
    forall peerOf: nat -> nat ensures |Granting(two, peerOf)| == 1 {
      assert Granting(one, peerOf) == {peerOf(0)} && Granting(two, peerOf) == {peerOf(0)};
    }
  }

  // ------------------------------------------------------------------ the object

  class CallTable {
    var connected: bool
    var nextId: nat
    var registered: map<int, Call>
    var pending: map<nat, Call>
    ghost var issued: set<nat>
    ghost var ran: multiset<nat>

    ghost function State(): Channel
      reads this
    {
      Channel(connected, nextId, registered, pending, issued, ran)
    }

    constructor ()
      ensures State() == Init()
    {
      connected, nextId, registered, pending := false, 0, map[], map[];
      issued, ran := {}, multiset{};
    }

    /** registerCall; false where the process exits. */
    method RegisterCall(controller: int, call: Call) returns (ok: bool)
      modifies this`registered
      ensures State() == Do(old(State()), Register(controller, call))
      ensures ok <==> controller !in old(registered)
    {
      if controller in registered {
        return false;
      }
      registered := registered[controller := call];
      ok := true;
    }

    /**
      CallMethod's bookkeeping; id is the number of the request to be sent, if there is one. A request that
      does not serialise is not sent, but its number is waiting by then.
     */
    method CallMethod(controller: int, serialises: bool) returns (send: bool, id: nat)
      modifies this
      ensures State() == Do(old(State()), Issue(controller))
      ensures send <==> old(connected) && controller in old(registered) && serialises
      ensures id == old(nextId) && (id in pending && id !in old(pending) ==> pending[id] == old(registered)[controller])
      ensures old(connected) && controller in old(registered) ==> id in pending
    {
      id := nextId;
      if !connected {
        return false, id;
      }
      nextId := nextId + 1;
      if controller !in registered {
        return false, id;
      }
      pending := pending[id := registered[controller]];
      registered := registered - {controller};
      issued := issued + {id};
      send := serialises;
    }

    /** completeResponse; the completion to run, if the number is still waiting. */
    method CompleteResponse(id: nat) returns (found: bool, call: Call)
      modifies this`pending, this`ran
      ensures State() == DoResponse(old(State()), id)
      ensures found <==> id in old(pending)
      ensures found ==> call == old(pending)[id]
    {
      if id !in pending {
        return false, Call(0, 0);
      }
      found, call := true, pending[id];
      pending := pending - {id};
      ran := ran + multiset{id};
    }

    /** Every completion of a table that has been swapped out runs, in any order. */
    method RunAll(taken: map<nat, Call>) returns (completed: seq<Call>)
      modifies this`ran
      ensures ran == old(ran) + multiset(taken.Keys)
      ensures |completed| == |taken| && forall id <- taken :: taken[id] in completed
    {
      completed := [];
      var left := taken.Keys;
      while left != {}
        invariant left <= taken.Keys && ran == old(ran) + multiset(taken.Keys - left)
        invariant |completed| == |taken.Keys - left|
        invariant forall id <- taken.Keys - left :: taken[id] in completed
        decreases |left|
      {
        var id :| id in left;
        TakeOne(taken.Keys, left, id);
        ghost var earlier := completed;
        completed := completed + [taken[id]];
        assert forall x <- earlier :: x in completed;
        assert completed[|earlier|] == taken[id];
        ran := ran + multiset{id};
        left := left - {id};
      }
      assert taken.Keys - left == taken.Keys;
    }

    /** The connection has failed: failAllPending swaps the table out and runs every completion in it. */
    method FailAllPending() returns (completed: seq<Call>)
      modifies this`connected, this`pending, this`ran
      ensures State() == Do(old(State()), Failure)
      ensures |completed| == |old(pending)| && forall id <- old(pending) :: old(pending)[id] in completed
    {
      connected := false;
      var taken := pending;
      pending := map[];
      completed := RunAll(taken);
    }
  }

  lemma TakeOne(all: set<nat>, left: set<nat>, id: nat)
    requires left <= all && id in left
    ensures all - (left - {id}) == (all - left) + {id}
    ensures |all - (left - {id})| == |all - left| + 1
    ensures multiset(all - (left - {id})) == multiset(all - left) + multiset{id}
  {
    assert all - (left - {id}) == (all - left) + {id};
    assert multiset((all - left) + {id}) == multiset(all - left) + multiset{id};
  }
}
