/** Values shared by the Raft modules: log entries, roles, majorities, and prefixes of logs. */
module RaftTypes {

  /** An entry of the replicated log (proto/raftRPC.proto, message LogEntry). */
  datatype Entry = Entry(command: string, term: int, index: int)

  datatype Role = Follower | Candidate | Leader

  /** The handlers as written, or repaired in the three places that RaftNode names. */
  datatype Mode = AsWritten | Intended

  /** The majority test of the election and of the commit rule: size / 2 + 1 of n nodes. */
  ghost predicate IsQuorum(q: set<nat>, n: nat) {
    && (forall v <- q :: v < n)
    && |q| >= n / 2 + 1
  }

  /** The node numbers below n. */
  function Ids(n: nat): (ids: set<nat>)
    ensures |ids| == n
    ensures forall i: nat :: i in ids <==> i < n
  {
    if n == 0 then {} else Ids(n - 1) + {n - 1}
  }

  lemma {:induction false} SubsetSize(a: set<nat>, b: set<nat>)
    requires a <= b
    ensures |a| <= |b|
    decreases b
  {
    if a != {} {
      var x :| x in a;
      SubsetSize(a - {x}, b - {x});
    }
  }

  /** Two majorities of the same cluster share a node. */
  lemma {:induction false} QuorumsMeet(a: set<nat>, b: set<nat>, n: nat) returns (v: nat)
    requires IsQuorum(a, n) && IsQuorum(b, n)
    ensures v in a && v in b
  {
    if a * b == {} {
      assert |a + b| == |a| + |b|;
      SubsetSize(a + b, Ids(n));
      assert false;
    }
    v :| v in a * b;
  }

  /** Two prefixes of one log are comparable. */
  lemma PrefixesCompare(p: seq<Entry>, q: seq<Entry>, f: seq<Entry>)
    requires p <= f && q <= f
    ensures |p| <= |q| ==> p <= q
    ensures |q| <= |p| ==> q <= p
  {
    assert p == f[..|p|] && q == f[..|q|];
  }
}
