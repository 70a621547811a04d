/**
  Replay of the write-ahead log (src/persist/Persister.cc): entries above the snapshot, in the order in
  which they were appended, the last writer of an index truncating what followed it.
 */
module WalReplay {
  import opened RaftTypes
  import opened RaftNode

  /** One entry of the replay loop. */
  function Step(s: int, logs: seq<Entry>, e: Entry): seq<Entry> {
    if e.index <= s then logs
    else if logs == [] then if e.index == s + 1 then [e] else logs
    else if e.index == logs[|logs| - 1].index + 1 then logs + [e]
    else if e.index <= logs[|logs| - 1].index then
      var k := e.index - s - 1;
      if k < |logs| then logs[..k] + [e] else logs
    else logs
  }

  /** The replay of a history on top of what has been replayed already. */
  function ReplayOnto(s: int, logs: seq<Entry>, es: seq<Entry>): seq<Entry>
    decreases |es|
  {
    if es == [] then logs else Step(s, ReplayOnto(s, logs, es[..|es| - 1]), es[|es| - 1])
  }

  function Replay(s: int, es: seq<Entry>): seq<Entry> {
    ReplayOnto(s, [], es)
  }

  /** The loop of ReadPersistedLogs and of CompactWal. */
  method ReplayLogs(s: int, replay: seq<Entry>) returns (logs: seq<Entry>)
    ensures logs == Replay(s, replay) && Numbered(logs, s)
  {
    logs := [];
    for i := 0 to |replay|
      invariant logs == Replay(s, replay[..i]) && Numbered(logs, s)
    {
      var entry := replay[i];
      assert replay[..i + 1][..i] == replay[..i];
      if entry.index > s {
        if logs == [] {
          if entry.index == s + 1 {
            logs := [entry];
          }
        } else {
          var expectedNext := logs[|logs| - 1].index + 1;
          if entry.index == expectedNext {
            logs := logs + [entry];
          } else if entry.index <= logs[|logs| - 1].index {
            var vecIndex := entry.index - s - 1;
            if 0 <= vecIndex < |logs| {
              logs := logs[..vecIndex] + [entry];
            }
          }
        }
      }
    }
    assert replay[..|replay|] == replay;
  }

  // ------------------------------------------------------------------ shape

  /** An entry takes its place and drops what followed, exactly if it is above the snapshot and leaves no gap. */
  lemma StepExact(s: int, logs: seq<Entry>, e: Entry)
    requires Numbered(logs, s)
    ensures var r := Step(s, logs, e);
      if s < e.index <= s + |logs| + 1 then
        |r| == e.index - s && r[|r| - 1] == e && forall k :: 0 <= k < |r| - 1 ==> r[k] == logs[k]
      else r == logs
  {}

  lemma StepNumbered(s: int, logs: seq<Entry>, e: Entry)
    requires Numbered(logs, s)
    ensures Numbered(Step(s, logs, e), s)
  {}

  lemma {:induction false} ReplayNumbered(s: int, logs: seq<Entry>, es: seq<Entry>)
    requires Numbered(logs, s)
    ensures Numbered(ReplayOnto(s, logs, es), s)
    decreases |es|
  {
    if es != [] {
      ReplayNumbered(s, logs, es[..|es| - 1]);
      StepNumbered(s, ReplayOnto(s, logs, es[..|es| - 1]), es[|es| - 1]);
    }
  }

  lemma {:induction false} ReplayConcat(s: int, logs: seq<Entry>, es: seq<Entry>, fs: seq<Entry>)
    ensures ReplayOnto(s, logs, es + fs) == ReplayOnto(s, ReplayOnto(s, logs, es), fs)
    decreases |fs|
  {
    if fs == [] {
      assert es + fs == es;
    } else {
      var gs := es + fs;
      assert gs[..|gs| - 1] == es + fs[..|fs| - 1];
      ReplayConcat(s, logs, es, fs[..|fs| - 1]);
    }
  }

  lemma ReplayHead(s: int, logs: seq<Entry>, e: Entry, es: seq<Entry>)
    ensures ReplayOnto(s, logs, [e] + es) == ReplayOnto(s, Step(s, logs, e), es)
  {
    ReplayConcat(s, logs, [e], es);
    assert [e][..0] == [];
    assert ReplayOnto(s, logs, [e]) == Step(s, ReplayOnto(s, logs, [e][..0]), e);
  }

  lemma ReplayNext(s: int, es: seq<Entry>, e: Entry)
    ensures Replay(s, es + [e]) == Step(s, Replay(s, es), e)
  {
    assert (es + [e])[..|es + [e]| - 1] == es;
  }

  /** A contiguous log replays to itself. */
  lemma {:induction false} ReplayOfLog(s: int, es: seq<Entry>)
    requires Numbered(es, s)
    ensures Replay(s, es) == es
    decreases |es|
  {
    if es != [] {
      ReplayOfLog(s, es[..|es| - 1]);
      assert es[..|es| - 1] + [es[|es| - 1]] == es;
    }
  }

  // ------------------------------------------------------------------ compaction

  /** What CompactWal writes back. */
  function Compact(s: int, es: seq<Entry>): seq<Entry> {
    Replay(s, es)
  }

  /** Compaction is invisible: whatever is appended later, recovery gives the same contiguous log. */
  lemma CompactionInvisible(s: int, es: seq<Entry>, fs: seq<Entry>)
    ensures Replay(s, Compact(s, es) + fs) == Replay(s, es + fs)
    ensures Numbered(Replay(s, es + fs), s)
  {
    ReplayNumbered(s, [], es);
    ReplayOfLog(s, Compact(s, es));
    ReplayConcat(s, [], Compact(s, es), fs);
    ReplayConcat(s, [], es, fs);
    ReplayNumbered(s, [], es + fs);
  }

  // ------------------------------------------------------------------ recovery at a later snapshot

  /** Some entry of the history starts a log at snapshot s. */
  predicate Starts(s: int, es: seq<Entry>) {
    exists e <- es :: e.index == s + 1
  }

  lemma {:induction false} EmptyUnlessStarted(s: int, es: seq<Entry>)
    ensures Replay(s, es) == [] <==> !Starts(s, es)
    decreases |es|
  {
    if es != [] {
      var before, e := es[..|es| - 1], es[|es| - 1];
      EmptyUnlessStarted(s, before);
      ReplayNumbered(s, [], before);
      assert es == before + [e];
      assert Starts(s, es) <==> Starts(s, before) || e.index == s + 1;
    }
  }

  /**
    Recovery at a later snapshot t. If the replay from s reaches past t, replaying from t gives the same
    log without its first t - s entries.
   */
  lemma {:induction false} LaterSnapshot(s: int, t: int, es: seq<Entry>)
    requires s <= t && t - s < |Replay(s, es)|
    ensures Replay(t, es) == Replay(s, es)[t - s..]
    decreases |es|
  {
    var before, e := es[..|es| - 1], es[|es| - 1];
    var a, b := Replay(s, before), Replay(t, before);
    ReplayNumbered(s, [], before);
    ReplayNumbered(t, [], before);
    if t - s < |a| {
      LaterSnapshot(s, t, before);
    }
    assert Replay(s, es) == Step(s, a, e) && Replay(t, es) == Step(t, b, e);
  }

  /** What recovery at t should give: the replayed log behind t, if it reaches that far. */
  function Expected(s: int, t: int, es: seq<Entry>): seq<Entry>
    requires s <= t
  {
    if t - s < |Replay(s, es)| then Replay(s, es)[t - s..] else []
  }

  /** It does give that exactly when the replay reaches past t, or no appended entry had index t + 1. */
  lemma LaterSnapshotExact(s: int, t: int, es: seq<Entry>)
    requires s <= t
    ensures Replay(t, es) == Expected(s, t, es) <==> t - s < |Replay(s, es)| || !Starts(t, es)
  {
    if t - s < |Replay(s, es)| {
      LaterSnapshot(s, t, es);
    } else {
      EmptyUnlessStarted(t, es);
    }
  }

  /** Otherwise entries that a later write had truncated come back. */
  lemma Resurrection()
    ensures var es := [Entry("a", 1, 1), Entry("b", 1, 2), Entry("c", 2, 1)];
      Replay(0, es) == [Entry("c", 2, 1)] && Replay(1, es) == [Entry("b", 1, 2)]
  {
    var a, b, c := Entry("a", 1, 1), Entry("b", 1, 2), Entry("c", 2, 1);
    forall t ensures Replay(t, [a, b, c]) == Step(t, Step(t, Step(t, [], a), b), c) {
      ReplayNext(t, [], a);
      ReplayNext(t, [a], b);
      ReplayNext(t, [a, b], c);
      assert [] + [a] == [a] && [a] + [b] == [a, b] && [a, b] + [c] == [a, b, c];
    }
  }

  // ------------------------------------------------------------------ replay and the log in memory

  /** The repaired conflict rule of RaftNode is the replay rule, for entries the log does not have. */
  lemma PlaceIsReplayed(s: int, logs: seq<Entry>, e: Entry)
    requires Numbered(logs, s) && e.index > s
    requires var k := e.index - s - 1; k < |logs| ==> logs[k].term != e.term
    ensures Step(s, logs, e) == Place(logs, s, e)
  {}
}
