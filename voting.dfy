/**
 * The day vote: the order in which the humans cast their ballots, the AI
 * ballots collected once every living human has voted, the tally, and the
 * rule that only a single front-runner is eliminated.
 */
module Voting {
  import opened Types
  import opened Roster

  /** The next voter: the first listed human without a ballot. */
  function FirstUnvoted(humans: seq<Player>, votes: map<int, int>): (r: Option<Player>)
    ensures r.None? <==> forall p :: p in humans ==> p.id in votes
    ensures r.Some? ==> exists k :: 0 <= k < |humans| && humans[k] == r.value && r.value.id !in votes &&
                                    forall i :: 0 <= i < k ==> humans[i].id in votes
  {
    if humans == [] then None
    else if humans[0].id !in votes then Some(humans[0])
    else
      var r := FirstUnvoted(humans[1..], votes);
      if r.Some? then
        assert exists k :: 0 <= k < |humans| - 1 && humans[1..][k] == r.value && r.value.id !in votes &&
                           forall i :: 0 <= i < k ==> humans[1..][i].id in votes;
        var k :| 0 <= k < |humans| - 1 && humans[1..][k] == r.value && r.value.id !in votes &&
                 forall i :: 0 <= i < k ==> humans[1..][i].id in votes;
        assert humans[k + 1] == r.value;
        assert forall i :: 0 < i < k + 1 ==> humans[i] == humans[1..][i - 1];
        r
      else
        assert forall p :: p in humans[1..] ==> p.id in votes;
        assert forall p :: p in humans ==> p == humans[0] || p in humans[1..];
        r
  }

  /** The AI players whose call came back with a (non-zero) target. */
  function AiVoters(ais: seq<Player>, choice: int -> Option<int>): set<int> {
    set p | p in ais && IsSet(choice(p.id)) :: p.id
  }

  /**
   * `allVotes` after the AI round: the human ballots, overwritten or extended
   * by every AI that named a target; an AI that abstains adds nothing.
   */
  function AllBallots(humanVotes: map<int, int>, ais: seq<Player>, choice: int -> Option<int>): (r: map<int, int>)
    ensures forall p :: p in ais && IsSet(choice(p.id)) ==> p.id in r && r[p.id] == choice(p.id).value
    ensures forall v :: v in r && v !in humanVotes ==> v in AiVoters(ais, choice)
    ensures forall v :: v in humanVotes && v !in AiVoters(ais, choice) ==> v in r && r[v] == humanVotes[v]
    ensures |r| <= |humanVotes| + |ais|
  {
    if ais == [] then humanVotes
    else
      var front := ais[..|ais| - 1];
      var p := ais[|ais| - 1];
      var prev := AllBallots(humanVotes, front, choice);
      assert forall q :: q in ais ==> q in front || q == p;
      assert AiVoters(ais, choice) == AiVoters(front, choice) + (if IsSet(choice(p.id)) then {p.id} else {});
      if IsSet(choice(p.id)) then prev[p.id := choice(p.id).value] else prev
  }

  /** The log line each AI's call produces. */
  function BallotEntry(p: Player, choice: int -> Option<int>): LogEntry {
    if IsSet(choice(p.id)) then ActionEntry(Voted(p.id, choice(p.id).value)) else ActionEntry(Abstained(p.id))
  }

  /**
   * The loop over the living AI players: one log line per AI in roster
   * order, and the ballots gathered so far.
   */
  method CollectAiBallots(humanVotes: map<int, int>, ais: seq<Player>, choice: int -> Option<int>)
    returns (allVotes: map<int, int>, entries: seq<LogEntry>)
    ensures allVotes == AllBallots(humanVotes, ais, choice)
    ensures |entries| == |ais| && forall k :: 0 <= k < |ais| ==> entries[k] == BallotEntry(ais[k], choice)
  {
    allVotes := humanVotes;
    entries := [];
    for i := 0 to |ais|
      invariant allVotes == AllBallots(humanVotes, ais[..i], choice)
      invariant |entries| == i && forall k :: 0 <= k < i ==> entries[k] == BallotEntry(ais[k], choice)
    {
      var p := ais[i];
      var c := choice(p.id);
      AllBallotsStep(humanVotes, ais, i, choice);
      if IsSet(c) {
        allVotes := allVotes[p.id := c.value];
      }
      entries := entries + [BallotEntry(p, choice)];
    }
    assert ais[..|ais|] == ais;
  }

  /** One more AI in the loop: its ballot, if any, overwrites the map so far. */
  lemma AllBallotsStep(humanVotes: map<int, int>, ais: seq<Player>, i: int, choice: int -> Option<int>)
    requires 0 <= i < |ais|
    ensures AllBallots(humanVotes, ais[..i + 1], choice) ==
              if IsSet(choice(ais[i].id)) then AllBallots(humanVotes, ais[..i], choice)[ais[i].id := choice(ais[i].id).value]
              else AllBallots(humanVotes, ais[..i], choice)
  {
    assert ais[..i + 1][..i] == ais[..i];
  }

  /** A non-empty set has a member. */
  lemma NonEmptyHasMember(s: set<int>)
    requires s != {}
    ensures exists x :: x in s
  {
    assert (forall x :: x !in s) ==> s == {};
  }

  /** A subset is no larger than its superset. */
  lemma {:induction false} SubsetNoLarger(a: set<int>, b: set<int>)
    requires a <= b
    ensures |a| <= |b|
    decreases |b|
  {
    if a != {} {
      NonEmptyHasMember(a);
      var x :| x in a;
      SubsetNoLarger(a - {x}, b - {x});
    }
  }

  /** How many ballots name `target`. */
  function Tally(votes: map<int, int>, target: int): nat {
    |set v | v in votes && votes[v] == target|
  }

  /** The targets named on at least one ballot. */
  function Targets(votes: map<int, int>): set<int> {
    set v | v in votes :: votes[v]
  }

  /** A target is named exactly when its tally is positive. */
  lemma TallyPositiveIff(votes: map<int, int>, t: int)
    ensures Tally(votes, t) > 0 <==> t in Targets(votes)
  {
    var named := set v | v in votes && votes[v] == t;
    if t in Targets(votes) {
      var v :| v in votes && votes[v] == t;
      assert v in named;
    } else {
      assert forall v :: v in votes ==> votes[v] in Targets(votes);
      assert named == {};
    }
  }

  /** `voteCounts`: every named target with its ballot count. */
  function TallyMap(votes: map<int, int>): (counts: map<int, nat>)
    ensures counts.Keys == Targets(votes)
    ensures forall t :: t in counts ==> 1 <= counts[t] <= |votes|
  {
    forall t | t in Targets(votes) ensures 1 <= Tally(votes, t) <= |votes| {
      TallyPositiveIff(votes, t);
      SubsetNoLarger((set w | w in votes && votes[w] == t), votes.Keys);
    }
    map t | t in Targets(votes) :: Tally(votes, t)
  }

  /** Ballots among `done` that name `target`. */
  ghost function TallyOver(votes: map<int, int>, done: set<int>, target: int): nat {
    |set v | v in done && v in votes && votes[v] == target|
  }

  lemma TallyOverStep(votes: map<int, int>, done: set<int>, v: int, u: int)
    requires v in votes && v !in done
    ensures TallyOver(votes, done + {v}, u) == TallyOver(votes, done, u) + (if votes[v] == u then 1 else 0)
  {
    if votes[v] == u {
      assert (set w | w in done + {v} && w in votes && votes[w] == u) ==
             (set w | w in done && w in votes && votes[w] == u) + {v};
    } else {
      assert (set w | w in done + {v} && w in votes && votes[w] == u) ==
             (set w | w in done && w in votes && votes[w] == u);
    }
  }

  /** The tally loop: every ballot adds one to its target's count, starting from zero. */
  method CountVotes(votes: map<int, int>) returns (counts: map<int, nat>)
    ensures counts == TallyMap(votes)
  {
    counts := map[];
    var todo := votes.Keys;
    ghost var done: set<int> := {};
    while todo != {}
      invariant todo + done == votes.Keys && todo !! done
      invariant forall t :: t in counts <==> TallyOver(votes, done, t) > 0
      invariant forall t :: t in counts ==> counts[t] == TallyOver(votes, done, t)
      decreases |todo|
    {
      NonEmptyHasMember(todo);
      var v :| v in todo;
      var t := votes[v];
      var before := if t in counts then counts[t] else 0;
      forall u ensures TallyOver(votes, done + {v}, u) == TallyOver(votes, done, u) + (if t == u then 1 else 0) {
        TallyOverStep(votes, done, v, u);
      }
      counts := counts[t := before + 1];
      todo := todo - {v};
      done := done + {v};
    }
    forall t ensures TallyOver(votes, done, t) == Tally(votes, t) {
      assert (set w | w in done && w in votes && votes[w] == t) == (set w | w in votes && votes[w] == t);
    }
    forall t ensures t in counts <==> t in Targets(votes) {
      TallyPositiveIff(votes, t);
    }
  }

  /** The targets holding the highest count (all of them in a tie). */
  function Leaders(counts: map<int, nat>): set<int> {
    set t | t in counts && forall u :: u in counts ==> counts[u] <= counts[t]
  }

  /** The keys among `done` whose count equals `m`. */
  ghost function AtMax(counts: map<int, nat>, done: set<int>, m: nat): set<int> {
    set u | u in done && u in counts && counts[u] == m
  }

  lemma AtMaxStep(counts: map<int, nat>, done: set<int>, t: int, m: nat)
    requires t in counts && t !in done
    requires forall u :: u in done && u in counts ==> counts[u] <= m
    ensures counts[t] > m ==> AtMax(counts, done + {t}, counts[t]) == {t}
    ensures counts[t] == m ==> AtMax(counts, done + {t}, m) == AtMax(counts, done, m) + {t}
    ensures counts[t] < m ==> AtMax(counts, done + {t}, m) == AtMax(counts, done, m)
  {
    if counts[t] > m {
      forall u | u in AtMax(counts, done + {t}, counts[t]) ensures u == t {
      }
    }
  }

  /** Once every entry is seen, the keys at the running maximum are the leaders. */
  lemma AtMaxIsLeaders(counts: map<int, nat>, m: nat)
    requires forall u :: u in counts ==> counts[u] <= m
    requires counts.Keys != {} ==> exists u :: u in counts && counts[u] == m
    ensures AtMax(counts, counts.Keys, m) == Leaders(counts)
  {
    forall u | u in Leaders(counts) ensures u in AtMax(counts, counts.Keys, m) {
      var w :| w in counts && counts[w] == m;
      assert counts[w] <= counts[u];
    }
  }

  /**
   * What the scan over the counts knows after visiting `done`: `m` is the
   * largest count seen (0 before the first), and `cands` lists, once each,
   * the visited targets that have it.
   */
  ghost predicate Scanned(counts: map<int, nat>, done: set<int>, m: nat, cands: seq<int>) {
    && done <= counts.Keys
    && (forall u :: u in done ==> counts[u] <= m)
    && (done != {} ==> exists u :: u in done && counts[u] == m)
    && (done == {} ==> m == 0)
    && (forall c :: c in cands <==> c in AtMax(counts, done, m))
    && |cands| == |AtMax(counts, done, m)|
  }

  /** One entry of the scan: a higher count restarts the list, an equal count joins it. */
  method Visit(counts: map<int, nat>, ghost done: set<int>, m: nat, cands: seq<int>, t: int)
    returns (m': nat, cands': seq<int>)
    requires Scanned(counts, done, m, cands) && t in counts && t !in done
    ensures Scanned(counts, done + {t}, m', cands')
  {
    AtMaxStep(counts, done, t, m);
    var count := counts[t];
    if count > m {
      m', cands' := count, [t];
    } else if count == m {
      assert t !in AtMax(counts, done, m);
      m', cands' := m, cands + [t];
    } else {
      m', cands' := m, cands;
    }
  }

  /**
   * The loop over the vote counts that keeps the running
   * maximum and the targets sharing it; the entry order is left open.
   */
  method PickCandidates(counts: map<int, nat>) returns (maxVotes: nat, candidates: seq<int>)
    ensures forall t :: t in counts ==> counts[t] <= maxVotes
    ensures counts != map[] ==> exists t :: t in counts && counts[t] == maxVotes
    ensures counts == map[] ==> maxVotes == 0
    ensures forall t :: t in candidates <==> t in Leaders(counts)
    ensures |candidates| == |Leaders(counts)|
  {
    maxVotes := 0;
    candidates := [];
    var todo := counts.Keys;
    ghost var done: set<int> := {};
    while todo != {}
      invariant todo + done == counts.Keys && todo !! done
      invariant Scanned(counts, done, maxVotes, candidates)
      decreases |todo|
    {
      NonEmptyHasMember(todo);
      var t :| t in todo;
      maxVotes, candidates := Visit(counts, done, maxVotes, candidates, t);
      todo := todo - {t};
      done := done + {t};
    }
    ScanComplete(counts, maxVotes, candidates);
  }

  /** When the scan has visited every entry, its list holds exactly the leaders. */
  lemma ScanComplete(counts: map<int, nat>, m: nat, cands: seq<int>)
    requires Scanned(counts, counts.Keys, m, cands)
    ensures forall t :: t in counts ==> counts[t] <= m
    ensures counts != map[] ==> exists t :: t in counts && counts[t] == m
    ensures counts == map[] ==> m == 0
    ensures forall t :: t in cands <==> t in Leaders(counts)
    ensures |cands| == |Leaders(counts)|
  {
    if counts != map[] {
      assert counts.Keys != {} by {
        var w :| w in counts;
      }
    }
    AtMaxIsLeaders(counts, m);
  }

  /** The eliminated player: the single leader, if there is exactly one. */
  ghost function Eliminated(counts: map<int, nat>): (r: Option<int>)
    ensures r.Some? <==> |Leaders(counts)| == 1
    ensures r.Some? ==> Leaders(counts) == {r.value}
  {
    if |Leaders(counts)| == 1 then
      NonEmptyHasMember(Leaders(counts));
      var t :| t in Leaders(counts);
      assert Leaders(counts) == {t} by {
        forall u | u in Leaders(counts) ensures u == t {
          if u != t {
            SubsetNoLarger({t, u}, Leaders(counts));
          }
        }
      }
      Some(t)
    else None
  }

  /** The front-runners `PickCandidates` returns decide the outcome: exactly one is eliminated, several tie. */
  lemma EliminatedOfCandidates(counts: map<int, nat>, candidates: seq<int>)
    requires forall t :: t in candidates <==> t in Leaders(counts)
    requires |candidates| == |Leaders(counts)|
    ensures |candidates| == 1 ==> Eliminated(counts) == Some(candidates[0])
    ensures |candidates| != 1 ==> Eliminated(counts) == None
  {
    if |candidates| == 1 {
      assert candidates[0] in candidates;
      assert Leaders(counts) == {candidates[0]} by {
        forall t | t in Leaders(counts) ensures t == candidates[0] {
          assert t in candidates;
        }
      }
    }
  }

  /** A target is voted out exactly when its count is strictly above every other target's. */
  lemma UniqueLeaderIff(counts: map<int, nat>, t: int)
    ensures Eliminated(counts) == Some(t) <==>
              t in counts && forall u :: u in counts && u != t ==> counts[u] < counts[t]
  {
    if t in counts && forall u :: u in counts && u != t ==> counts[u] < counts[t] {
      assert t in Leaders(counts);
      assert Leaders(counts) == {t};
    }
    if Eliminated(counts) == Some(t) {
      assert t in Leaders(counts);
      forall u | u in counts && u != t ensures counts[u] < counts[t] {
        assert u !in Leaders(counts);
        var w :| w in counts && counts[w] > counts[u];
        assert counts[w] <= counts[t];
      }
    }
  }

  /** With no ballots at all nobody is eliminated. */
  lemma NoBallotsNoElimination()
    ensures Eliminated(TallyMap(map[])) == None
  {
    assert Leaders(TallyMap(map[])) == {};
  }

  /** Four ballots for Player 4: Player 4 is voted out. */
  lemma ConsensusVote()
    ensures Eliminated(TallyMap(map[1 := 4, 2 := 4, 3 := 4, 5 := 4])) == Some(4)
  {
    var votes := map[1 := 4, 2 := 4, 3 := 4, 5 := 4];
    assert votes.Values == {4};
    assert Tally(votes, 4) == 4 by {
      assert (set v | v in votes && votes[v] == 4) == {1, 2, 3, 5};
    }
    UniqueLeaderIff(TallyMap(votes), 4);
  }

  /** One ballot each for Players 4 and 6: a tie, nobody is voted out. */
  lemma SplitVote()
    ensures Eliminated(TallyMap(map[1 := 4, 2 := 6])) == None
  {
    var votes := map[1 := 4, 2 := 6];
    var counts := TallyMap(votes);
    assert votes.Values == {4, 6} by {
      assert votes[1] == 4 && votes[2] == 6;
    }
    assert (set v | v in votes && votes[v] == 4) == {1};
    assert (set v | v in votes && votes[v] == 6) == {2};
    assert counts[4] == 1 && counts[6] == 1;
    assert Leaders(counts) == {4, 6};
  }
}
