/**
 * The moderator: the single game state and the UI state around it, changed
 * one event at a time.  Every click of a human player and every resolved AI
 * decision is one method; the AI's answer, the coin flips and the shuffle
 * are parameters, and each delayed transition happens at once.
 */
module Moderator {
  import opened Types
  import opened Constants
  import opened Roster
  import opened Victory
  import opened Speakers
  import opened Cascade
  import opened Voting

  /** The human-count input: a failed parse or 0 reads as 1, then the value is clamped to 1..9; None is a failed parse. */
  function ClampHumanCount(parsed: Option<int>): (n: int)
    ensures 1 <= n <= 9
    ensures parsed.Some? && 1 <= parsed.value <= 9 ==> n == parsed.value
    ensures parsed.None? || parsed.value <= 1 ==> n == 1
    ensures parsed.Some? && parsed.value >= 9 ==> n == 9
  {
    var v := if parsed.None? || parsed.value == 0 then 1 else parsed.value;
    if v < 1 then 1 else if v > 9 then 9 else v
  }

  /** A living human holds role `r`. */
  predicate HumanAlive(ps: seq<Player>, r: Role) {
    exists p :: p in ps && p.role == r && p.isHuman && p.isAlive
  }

  /** A living AI player holds role `r`. */
  predicate AiAlive(ps: seq<Player>, r: Role) {
    exists p :: p in ps && p.role == r && !p.isHuman && p.isAlive
  }

  /** Ids of the living humans: the only players who cast ballots by hand. */
  function HumanIds(ps: seq<Player>): set<int> {
    set p | p in ps && p.isHuman && p.isAlive :: p.id
  }

  /** Nothing of the Witch's has been recorded yet this night. */
  ghost predicate FreshNight(n: NightActionData) {
    !n.witchSaveUsed && n.witchPoisonTarget == None
  }

  /** The Witch never records both a save and a poisoning in one night. */
  ghost predicate OnePotion(n: NightActionData) {
    !(n.witchSaveUsed && IsSet(n.witchPoisonTarget))
  }

  /**
   * What holds of the game state between events: the roster is the dealt
   * one (minus deaths), the game is over exactly when a winner is recorded
   * and that winner is the roster's verdict, nobody has won while play goes
   * on, each night starts with fresh night data, the Witch uses at most one
   * potion per night, and only living humans hold ballots during the vote.
   */
  ghost predicate Sound(s: GameState, humanCount: int) {
    && s.dayCount >= 1
    && (s.phase == Setup ==> s.players == [] && s.night == EmptyNight)
    && (s.phase != Setup ==> Cast(s.players, humanCount))
    && (s.phase == GameOver <==> s.winner.Some?)
    && (s.phase == GameOver ==> s.winner == CheckWin(s.players))
    && (s.phase != Setup && s.phase != GameOver ==> CheckWin(s.players) == None)
    && (s.phase == Reveal || s.phase == NightWerewolf || s.phase == NightWitch ==> FreshNight(s.night))
    && OnePotion(s.night)
    && (s.phase == DayDiscuss ==> s.humanVotes == map[])
    && (s.phase == DayVote ==> s.humanVotes.Keys <= HumanIds(s.players))
    && (s.phase == HunterAction ==> s.currentTurn.Some?)
  }

  /** `startGame` on the game state: the dealt roster, the reveal phase and the opening log line. */
  function Begin(s: GameState, shuffled: seq<Role>, humanCount: int, draws: seq<Draw>): GameState
    requires |draws| == |shuffled|
  {
    s.(players := Deal(shuffled, humanCount, draws), phase := Reveal, logs := s.logs + [SystemEntry(GameStarted)])
  }

  /** Dealing from the setup screen enters the reveal with a sound, undecided game. */
  lemma DealKeepsSound(s: GameState, shuffled: seq<Role>, humanCount: int, draws: seq<Draw>)
    requires Sound(s, humanCount) && s.phase == Setup
    requires multiset(shuffled) == multiset(StandardRoles) && |draws| == |shuffled|
    ensures Sound(Begin(s, shuffled, humanCount, draws), humanCount)
    ensures CheckWin(Begin(s, shuffled, humanCount, draws).players) == None
  {
    var ps := Deal(shuffled, humanCount, draws);
    DealIsCast(shuffled, humanCount, draws);
    FreshDealUndecided(ps);
  }

  lemma EvolvesTransitive(a: GameState, b: GameState, c: GameState)
    requires Evolves(a, b) && Evolves(b, c)
    ensures Evolves(a, c)
  {
    SameCastTransitive(a.players, b.players, c.players);
  }

  /** The cascade keeps the game sound when play continues into discussion or a new night. */
  lemma CascadeKeepsSound(s: GameState, deadIds: seq<int>, nextPhase: Phase, humanCount: int)
    requires Sound(s, humanCount) && s.phase != Setup && s.phase != GameOver
    requires nextPhase == DayDiscuss || nextPhase == NightWerewolf
    ensures Sound(ProcessDeaths(s, deadIds, nextPhase), humanCount)
  {
    var r := ProcessDeaths(s, deadIds, nextPhase);
    CastSurvivesDeaths(s.players, r.players, humanCount);
    CastIds(s.players, humanCount);
    CascadeNeverSkipsDiscussion(s, deadIds, nextPhase);
  }

  /** The log plays no part in soundness: appending to it keeps the game sound. */
  lemma LoggingKeepsSound(s: GameState, entries: seq<LogEntry>, humanCount: int)
    requires Sound(s, humanCount)
    ensures Sound(s.(logs := s.logs + entries), humanCount)
    ensures Evolves(s, s.(logs := s.logs + entries))
  {
  }

  /** A Hunter's shot, logged and then put through the cascade towards night, evolves the game and keeps it sound. */
  lemma ShotKeepsSound(s: GameState, entry: LogEntry, target: int, humanCount: int)
    requires Sound(s, humanCount) && s.phase != Setup && s.phase != GameOver
    ensures var r := ProcessDeaths(s.(logs := s.logs + [entry]), [target], NightWerewolf);
            Evolves(s, r) && Sound(r, humanCount)
  {
    var logged := s.(logs := s.logs + [entry]);
    CascadeKeepsSound(logged, [target], NightWerewolf, humanCount);
    EvolvesTransitive(s, logged, ProcessDeaths(logged, [target], NightWerewolf));
  }

  /** The dawn step keeps the game sound. */
  lemma DawnKeepsSound(s: GameState, deadIds: seq<int>, humanCount: int)
    requires Sound(s, humanCount) && s.phase == DayAnnounce
    ensures Sound(DawnStep(s, deadIds), humanCount)
  {
    CascadeKeepsSound(s, deadIds, DayDiscuss, humanCount);
  }

  /** The phase-entry cue the moderator logs (and speaks). */
  function Cue(phase: Phase, night: NightActionData): Option<Message> {
    match phase
    case NightWerewolf => Some(WolvesWake)
    case NightWitch => Some(WitchWakes)
    case NightSeer => Some(SeerWakes)
    case DayAnnounce => Some(SunRises(DawnDeaths(night)))
    case _ => None
  }

  /** The speaking turn passes to `next`, or discussion ends and the vote opens. */
  function PassTurn(s: GameState, next: Option<int>): (r: GameState)
    ensures r.players == s.players && r.night == s.night && r.potions == s.potions
    ensures IsSet(next) ==> r.phase == s.phase && r.currentTurn == next && r.logs == s.logs
    ensures !IsSet(next) ==> r.phase == DayVote && r.currentTurn == None && r.humanVotes == map[]
    ensures !IsSet(next) ==> r.logs == s.logs + [SystemEntry(DiscussionEnded)]
  {
    if IsSet(next) then s.(currentTurn := next)
    else s.(phase := DayVote, currentTurn := None, humanVotes := map[],
            logs := s.logs + [SystemEntry(DiscussionEnded)])
  }

  /** A chat line: a player's words in the discussion. */
  function ChatEntry(id: int, text: string): LogEntry {
    LogEntry(Chat, Some(PlayerAuthor(id)), Speech(text))
  }

  /** The chat input is empty once trimmed: it holds only white space. */
  predicate Blank(text: string) {
    forall i :: 0 <= i < |text| ==> text[i] in {' ', '\t', '\n', '\r'}
  }

  /** The Seer's reading of `target`: its team, or Unknown when the id matches nobody. */
  function SeerVerdict(ps: seq<Player>, target: int): (v: SeerResult)
    ensures v.Unknown? <==> forall p :: p in ps ==> p.id != target
  {
    match FindPlayer(ps, target)
    case Some(p) => Revealed(TeamOf(p.role))
    case None => Unknown
  }

  /** On a roster with distinct ids the Seer learns the target's true team: Bad exactly for a Werewolf. */
  lemma SeerSeesTruth(ps: seq<Player>, target: int)
    requires DistinctIds(ps)
    ensures forall p :: p in ps && p.id == target ==> SeerVerdict(ps, target) == Revealed(TeamOf(p.role))
    ensures SeerVerdict(ps, target) == Revealed(Bad) <==> exists p :: p in ps && p.id == target && p.role == Werewolf
  {
    var f := FindPlayer(ps, target);
    if f.Some? {
      forall p | p in ps && p.id == target ensures p == f.value {
        var i :| 0 <= i < |ps| && ps[i] == p;
        var j :| 0 <= j < |ps| && ps[j] == f.value;
        assert i == j;
      }
    }
  }

  /** The log lines of the AI ballot round, in roster order. */
  function BallotLog(ais: seq<Player>, choice: int -> Option<int>): (entries: seq<LogEntry>)
    ensures |entries| == |ais|
    ensures forall k :: 0 <= k < |ais| ==> (entries[k].content.Voted? <==> ais[k].id in AiVoters(ais, choice))
    ensures forall k :: 0 <= k < |ais| ==> (entries[k].content.Abstained? <==> ais[k].id !in AiVoters(ais, choice))
    ensures forall k :: 0 <= k < |ais| ==> entries[k].content.voter == ais[k].id
  {
    seq(|ais|, k requires 0 <= k < |ais| => BallotEntry(ais[k], choice))
  }

  /**
   * The log of the AI round agrees with the ballots counted: each "voted"
   * line names the target that AI's ballot holds once the round is over.
   */
  lemma BallotLogAgreesWithBallots(humanVotes: map<int, int>, ais: seq<Player>, choice: int -> Option<int>)
    ensures var entries := BallotLog(ais, choice);
            var all := AllBallots(humanVotes, ais, choice);
            forall k :: 0 <= k < |ais| && entries[k].content.Voted? ==>
              ais[k].id in all && all[ais[k].id] == entries[k].content.target
  {
    var entries := BallotLog(ais, choice);
    forall k | 0 <= k < |ais| && entries[k].content.Voted?
      ensures ais[k].id in AllBallots(humanVotes, ais, choice)
      ensures AllBallots(humanVotes, ais, choice)[ais[k].id] == entries[k].content.target
    {
      assert ais[k] in ais;
      assert entries[k] == BallotEntry(ais[k], choice);
    }
  }

  /**
   * The loops of `processAiVotesAndResolve` on values: the AI ballot round,
   * the tally and the front-runner scan yield the reference log lines and
   * the reference outcome (the single leader, or nobody on a tie).
   */
  method TallyRound(humanVotes: map<int, int>, ais: seq<Player>, choice: int -> Option<int>)
    returns (entries: seq<LogEntry>, out: Option<int>)
    ensures entries == BallotLog(ais, choice)
    ensures out == Eliminated(TallyMap(AllBallots(humanVotes, ais, choice)))
  {
    var allVotes, lines := CollectAiBallots(humanVotes, ais, choice);
    var counts := CountVotes(allVotes);
    var maxVotes, candidates := PickCandidates(counts);
    out := if |candidates| == 1 then Some(candidates[0]) else None;
    EliminatedOfCandidates(counts, candidates);
    BallotLogIs(lines, ais, choice);
    entries := lines;
  }

  /** Who the vote eliminates: the single front-runner once the living AI players have voted, if any. */
  ghost function Outcome(s: GameState, choice: int -> Option<int>): Option<int> {
    Eliminated(TallyMap(AllBallots(s.humanVotes, Select(s.players, AliveAi), choice)))
  }

  /**
   * The result of the vote applied to the state: the AI ballots are logged;
   * a single front-runner `out` is announced and put through the cascade
   * towards night; otherwise the tie is announced, nobody dies and a fresh
   * night begins.
   */
  function ApplyVote(s: GameState, ballots: seq<LogEntry>, out: Option<int>): (r: GameState)
    ensures Evolves(s, r)
    ensures out.Some? ==> r.players == MarkDead(s.players, [out.value])
    ensures out.None? ==>
              r.players == s.players && r.phase == NightWerewolf && r.night == EmptyNight && r.humanVotes == map[]
    ensures r.phase == GameOver || r.phase == HunterAction || r.phase == NightWerewolf
  {
    match out
    case Some(c) =>
      var announced := s.(logs := s.logs + ballots + [SystemEntry(VotedOut(c))]);
      EvolvesTransitive(s, announced, ProcessDeaths(announced, [c], NightWerewolf));
      ProcessDeaths(announced, [c], NightWerewolf)
    case None =>
      s.(logs := s.logs + ballots + [SystemEntry(VoteTied)], phase := NightWerewolf,
         night := EmptyNight, humanVotes := map[])
  }

  /**
   * `processAiVotesAndResolve`: the living AI players vote, then the single
   * front-runner (if any) is eliminated.
   */
  ghost function ResolveVote(s: GameState, choice: int -> Option<int>): GameState {
    ApplyVote(s, BallotLog(Select(s.players, AliveAi), choice), Outcome(s, choice))
  }

  /** Applying the vote keeps the game sound. */
  lemma ApplyVoteKeepsSound(s: GameState, ballots: seq<LogEntry>, out: Option<int>, humanCount: int)
    requires Sound(s, humanCount) && s.phase == DayVote
    ensures Sound(ApplyVote(s, ballots, out), humanCount)
  {
    if out.Some? {
      var announced := s.(logs := s.logs + ballots + [SystemEntry(VotedOut(out.value))]);
      CascadeKeepsSound(announced, [out.value], NightWerewolf, humanCount);
    }
  }

  /** The log lines of the AI ballot round are the entries `CollectAiBallots` returns. */
  lemma BallotLogIs(entries: seq<LogEntry>, ais: seq<Player>, choice: int -> Option<int>)
    requires |entries| == |ais| && forall k :: 0 <= k < |ais| ==> entries[k] == BallotEntry(ais[k], choice)
    ensures entries == BallotLog(ais, choice)
  {
  }

  /** `handleHumanVote`'s record of one ballot: `voter` votes for `target`. */
  function Ballot(s: GameState, voter: int, target: int): (r: GameState)
    ensures r.players == s.players && r.phase == s.phase
    ensures r.humanVotes.Keys == s.humanVotes.Keys + {voter} && r.humanVotes[voter] == target
    ensures forall v :: v in s.humanVotes && v != voter ==> r.humanVotes[v] == s.humanVotes[v]
  {
    s.(humanVotes := s.humanVotes[voter := target], logs := s.logs + [ActionEntry(Voted(voter, target))])
  }

  /** A ballot from the first living human still to vote keeps the game sound. */
  lemma BallotKeepsSound(s: GameState, voter: Player, target: int, humanCount: int)
    requires Sound(s, humanCount) && s.phase == DayVote
    requires FirstUnvoted(Select(s.players, AliveHumans), s.humanVotes) == Some(voter)
    ensures Sound(Ballot(s, voter.id, target), humanCount)
    ensures Evolves(s, Ballot(s, voter.id, target))
  {
    assert voter in Select(s.players, AliveHumans);
    assert voter.id in HumanIds(s.players);
  }

  /** A set of ids drawn from a list with distinct ids is as large as the list. */
  lemma {:induction false} DistinctIdsCount(s: seq<Player>)
    requires DistinctIds(s)
    ensures |IdsOf(s)| == |s|
  {
    if s != [] {
      var rest := s[1..];
      assert DistinctIds(rest) by {
        forall i, j | 0 <= i < j < |rest| ensures rest[i].id != rest[j].id {
          assert rest[i] == s[i + 1] && rest[j] == s[j + 1];
        }
      }
      DistinctIdsCount(rest);
      assert s[0].id !in IdsOf(rest) by {
        forall q | q in rest ensures q.id != s[0].id {
          var j :| 0 <= j < |rest| && rest[j] == q;
          assert s[j + 1] == q;
        }
      }
      assert IdsOf(s) == IdsOf(rest) + {s[0].id} by {
        assert forall q :: q in s ==> q == s[0] || q in rest;
      }
    }
  }

  /** A subset as large as its superset is the whole set. */
  lemma SubsetSameSize(a: set<int>, b: set<int>)
    requires a <= b && |a| == |b|
    ensures a == b
  {
    assert b == a + (b - a);
    assert |b - a| == 0;
  }

  /**
   * Resolution starts exactly when every living human holds a ballot: the
   * ballot count reaches the number of living humans just when no one is
   * left to vote.
   */
  lemma BallotsCompleteIff(ps: seq<Player>, votes: map<int, int>)
    requires DistinctIds(ps) && votes.Keys <= HumanIds(ps)
    ensures |votes| == |Select(ps, AliveHumans)| <==> FirstUnvoted(Select(ps, AliveHumans), votes).None?
  {
    var ids := HumanIds(ps);
    HumansCount(ps);
    AllVotedIff(ps, votes);
    assert |votes.Keys| == |votes|;
    if |votes.Keys| == |ids| {
      SubsetSameSize(votes.Keys, ids);
    }
    if ids <= votes.Keys {
      assert votes.Keys == ids;
    }
  }

  /** Nobody is left to vote exactly when every living human holds a ballot. */
  lemma AllVotedIff(ps: seq<Player>, votes: map<int, int>)
    ensures FirstUnvoted(Select(ps, AliveHumans), votes).None? <==> HumanIds(ps) <= votes.Keys
  {
    var humans := Select(ps, AliveHumans);
    var r := FirstUnvoted(humans, votes);
    if r.None? {
      forall id | id in HumanIds(ps) ensures id in votes {
        var p :| p in ps && p.isHuman && p.isAlive && p.id == id;
        assert p in humans;
      }
    } else {
      assert r.value in humans && r.value.id !in votes;
      assert r.value.id in HumanIds(ps);
    }
  }

  /**
   * The next voter in roster terms: a living human without a ballot, and
   * every living human seated before them has already voted.
   */
  lemma NextVoterInSeatOrder(ps: seq<Player>, votes: map<int, int>, p: Player)
    requires FirstUnvoted(Select(ps, AliveHumans), votes) == Some(p)
    ensures exists k :: 0 <= k < |ps| && ps[k] == p && p.isHuman && p.isAlive && p.id !in votes &&
                        forall i :: 0 <= i < k && ps[i].isHuman && ps[i].isAlive ==> ps[i].id in votes
  {
    var k := VoterSeat(ps, votes, p);
  }

  /** The seat of the next voter, found by walking the roster. */
  lemma {:induction false} VoterSeat(ps: seq<Player>, votes: map<int, int>, p: Player) returns (k: int)
    requires FirstUnvoted(Select(ps, AliveHumans), votes) == Some(p)
    ensures 0 <= k < |ps| && ps[k] == p && p.isHuman && p.isAlive && p.id !in votes
    ensures forall i :: 0 <= i < k && ps[i].isHuman && ps[i].isAlive ==> ps[i].id in votes
  {
    if ps == [] {
      assert false;
    }
    var rest := Select(ps[1..], AliveHumans);
    if Selects(AliveHumans, ps[0]) && ps[0].id !in votes {
      k := 0;
    } else {
      assert FirstUnvoted(rest, votes) == Some(p) by {
        if Selects(AliveHumans, ps[0]) {
          assert Select(ps, AliveHumans)[1..] == rest;
        }
      }
      var j := VoterSeat(ps[1..], votes, p);
      k := j + 1;
      assert forall i :: 1 <= i < k ==> ps[i] == ps[1..][i - 1];
    }
  }

  /** The living humans' ids are the ids of the filtered list. */
  lemma HumanIdsSelected(ps: seq<Player>)
    ensures IdsOf(Select(ps, AliveHumans)) == HumanIds(ps)
  {
  }

  /** On distinct ids, the living humans are as many as their ids. */
  lemma HumansCount(ps: seq<Player>)
    requires DistinctIds(ps)
    ensures |HumanIds(ps)| == |Select(ps, AliveHumans)|
  {
    SelectDistinct(ps, AliveHumans);
    DistinctIdsCount(Select(ps, AliveHumans));
    HumanIdsSelected(ps);
  }

  /** The AI Hunter's empty shot as written: only the phase moves on to night; the night data stays as it was. */
  function HunterMissAsWritten(s: GameState): (r: GameState)
    ensures r.players == s.players && r.phase == NightWerewolf && r.night == s.night
    ensures r.logs == s.logs && r.humanVotes == s.humanVotes
  {
    s.(phase := NightWerewolf)
  }

  /**
   * As written, a Hunter whose detour began the day after a saved night
   * carries the recorded save into the next night: the game is no longer
   * sound.
   */
  lemma HunterMissKeepsStaleSave(s: GameState, humanCount: int)
    requires Sound(s, humanCount) && s.phase == HunterAction && s.night.witchSaveUsed
    ensures !Sound(HunterMissAsWritten(s), humanCount)
  {
  }

  /**
   * The consequence: the next night's victim is spared by a save nobody made
   * that night, unless the Witch overwrites the flag.
   */
  lemma StaleSaveSparesVictim(s: GameState, victim: int)
    requires s.phase == HunterAction && s.night.witchSaveUsed && !IsSet(s.night.witchPoisonTarget) && victim != 0
    ensures var night := HunterMissAsWritten(s).night.(wolvesTarget := Some(victim));
            victim !in DawnDeaths(night)
  {
  }

  /** The AI Hunter's empty shot: a new night with fresh night data. */
  function HunterMiss(s: GameState): (r: GameState)
    ensures r.players == s.players && r.phase == NightWerewolf && r.night == EmptyNight
  {
    s.(phase := NightWerewolf, night := EmptyNight)
  }

  /** The empty shot keeps the game sound, and the next night's victim dies unless saved that night. */
  lemma HunterMissKeepsSound(s: GameState, humanCount: int, victim: int)
    requires Sound(s, humanCount) && s.phase == HunterAction && victim != 0
    ensures Sound(HunterMiss(s), humanCount)
    ensures DawnDeaths(HunterMiss(s).night.(wolvesTarget := Some(victim))) == [victim]
  {
  }

  /** The fields of the screen around the game state. */
  datatype Ui = Ui(humanCount: int, setupComplete: bool, revealIndex: int, cardRevealed: bool,
                   witchUiStep: int, effectPhase: Phase, pendingDawn: Option<seq<int>>)

  /** The Witch's buttons. */
  datatype WitchAction = Save | Poison(target: int) | Skip

  class Game {
    var gs: GameState
    var humanCount: int
    var setupComplete: bool
    var currentRevealIndex: int
    var isCardRevealed: bool
    /** 0: waiting, 1: offer the save, 2: offer the poison. */
    var witchUiStep: int
    /** The phase the phase-entry effect last ran for. */
    var effectPhase: Phase
    /** The death list the dawn timer will apply, once armed. */
    var pendingDawn: Option<seq<int>>

    ghost function UiState(): Ui
      reads this
    {
      Ui(humanCount, setupComplete, currentRevealIndex, isCardRevealed, witchUiStep, effectPhase, pendingDawn)
    }

    ghost predicate Valid()
      reads this
    {
      && Sound(gs, humanCount)
      && 1 <= humanCount <= 9
      && 0 <= witchUiStep <= 2
      && (setupComplete <==> gs.phase != Setup)
      && (gs.phase == Setup ==> currentRevealIndex == 0 && !isCardRevealed && effectPhase == Setup && pendingDawn == None)
      && (gs.phase == Reveal ==> 0 <= currentRevealIndex < humanCount)
      && (gs.phase == NightWitch && effectPhase == NightWitch ==> witchUiStep >= 1)
      && (pendingDawn.Some? ==>
            gs.phase == DayAnnounce && effectPhase == DayAnnounce && pendingDawn.value == DawnDeaths(gs.night))
    }

    /** The phase-entry effect has run for the current phase (React runs effects before the next event). */
    ghost predicate Settled()
      reads this
    {
      effectPhase == gs.phase
    }

    constructor()
      ensures Valid() && Settled()
      ensures gs == InitialState
      ensures UiState() == Ui(1, false, 0, false, 0, Setup, None)
    {
      gs := InitialState;
      humanCount := 1;
      setupComplete := false;
      currentRevealIndex := 0;
      isCardRevealed := false;
      witchUiStep := 0;
      effectPhase := Setup;
      pendingDawn := None;
    }

    /** The human-count input of the setup screen. */
    method SetHumanCount(parsed: Option<int>)
      requires Valid() && !setupComplete
      modifies this
      ensures Evolves(old(gs), gs)
      ensures Valid() && Settled()
      ensures gs == old(gs)
      ensures UiState() == old(UiState()).(humanCount := ClampHumanCount(parsed))
    {
      humanCount := ClampHumanCount(parsed);
    }

    /** `startGame`: deal the shuffled roles to seats 1..9 and open the reveal. */
    method StartGame(shuffled: seq<Role>, draws: seq<Draw>)
      requires Valid() && !setupComplete
      requires multiset(shuffled) == multiset(StandardRoles)
      requires |draws| == |shuffled|
      modifies this
      ensures Valid()
      ensures gs == Begin(old(gs), shuffled, humanCount, draws)
      ensures UiState() == old(UiState()).(setupComplete := true)
    {
      DealKeepsSound(gs, shuffled, humanCount, draws);
      gs := Begin(gs, shuffled, humanCount, draws);
      setupComplete := true;
    }

    /** `handleRevealClick`: show the card, or hide it and pass the device on; after the last human, night falls. */
    method RevealClick()
      requires Valid() && Settled() && gs.phase == Reveal
      modifies this
      ensures Evolves(old(gs), gs)
      ensures Valid()
      ensures !old(isCardRevealed) ==> gs == old(gs) && UiState() == old(UiState()).(cardRevealed := true)
      ensures old(isCardRevealed) && old(currentRevealIndex) + 1 < humanCount ==>
                gs == old(gs) &&
                UiState() == old(UiState()).(cardRevealed := false, revealIndex := old(currentRevealIndex) + 1)
      ensures old(isCardRevealed) && old(currentRevealIndex) + 1 >= humanCount ==>
                gs == old(gs).(phase := NightWerewolf, logs := old(gs.logs) + [SystemEntry(NightFalls)]) &&
                UiState() == old(UiState()).(cardRevealed := false)
    {
      if isCardRevealed {
        isCardRevealed := false;
        var nextIndex := currentRevealIndex + 1;
        if nextIndex < humanCount {
          currentRevealIndex := nextIndex;
        } else {
          gs := gs.(logs := gs.logs + [SystemEntry(NightFalls)]);
          gs := gs.(phase := NightWerewolf);
        }
      } else {
        isCardRevealed := true;
      }
    }

    /**
     * The phase-entry effect: once per phase change it logs the cue; for the
     * Witch it opens the save step, and at dawn it announces the night's
     * deaths and arms the dawn timer with them.
     */
    method RunPhaseEffect()
      requires Valid()
      modifies this
      ensures Evolves(old(gs), gs)
      ensures Valid() && Settled()
      ensures old(effectPhase) == old(gs.phase) ==> gs == old(gs) && UiState() == old(UiState())
      ensures old(effectPhase) != old(gs.phase) ==>
                && gs == old(gs).(logs := old(gs.logs) +
                     (if Cue(old(gs.phase), old(gs.night)).Some? then [SystemEntry(Cue(old(gs.phase), old(gs.night)).value)] else []))
                && UiState() == old(UiState()).(
                     effectPhase := old(gs.phase),
                     witchUiStep := if old(gs.phase) == NightWitch then 1 else old(witchUiStep),
                     pendingDawn := if old(gs.phase) == DayAnnounce then Some(DawnDeaths(old(gs.night))) else old(pendingDawn))
    {
      if effectPhase != gs.phase {
        var cue := Cue(gs.phase, gs.night);
        var lines := if cue.Some? then [SystemEntry(cue.value)] else [];
        LoggingKeepsSound(gs, lines, humanCount);
        effectPhase := gs.phase;
        if gs.phase == NightWitch {
          witchUiStep := 1;
        }
        if gs.phase == DayAnnounce {
          pendingDawn := Some(DawnDeaths(gs.night));
        }
        gs := gs.(logs := gs.logs + lines);
      }
    }

    /** The dawn timer: the announced deaths go through the cascade towards discussion. */
    method DawnTimer()
      requires Valid() && Settled()
      modifies this
      ensures Valid()
      ensures old(pendingDawn).None? ==> gs == old(gs) && UiState() == old(UiState())
      ensures old(pendingDawn).Some? ==>
                && gs == DawnStep(old(gs), DawnDeaths(old(gs.night)))
                && gs.players == MarkDead(old(gs.players), DawnDeaths(old(gs.night)))
                && UiState() == old(UiState()).(pendingDawn := None)
      ensures Evolves(old(gs), gs)
    {
      if pendingDawn.Some? {
        DawnKeepsSound(gs, pendingDawn.value, humanCount);
        gs := DawnStep(gs, pendingDawn.value);
        pendingDawn := None;
      }
    }

    /** The werewolves' turn when no living human is a wolf: the AI leader's target, or none without AI wolves. */
    method AiWerewolfTurn(decision: Option<int>)
      requires Valid() && Settled()
      modifies this
      ensures Evolves(old(gs), gs)
      ensures Valid() && UiState() == old(UiState())
      ensures old(gs.phase) != NightWerewolf || HumanAlive(old(gs.players), Werewolf) ==> gs == old(gs)
      ensures old(gs.phase) == NightWerewolf && !HumanAlive(old(gs.players), Werewolf) ==>
                gs == old(gs).(night := old(gs.night).(wolvesTarget :=
                                 if AiAlive(old(gs.players), Werewolf) then decision else None),
                               phase := NightWitch)
    {
      if gs.phase == NightWerewolf && !HumanAlive(gs.players, Werewolf) {
        var target := if AiAlive(gs.players, Werewolf) then decision else None;
        gs := gs.(night := gs.night.(wolvesTarget := target));
        gs := gs.(phase := NightWitch);
      }
    }

    /** `handleHumanWolfAction`: a human wolf picks a living non-wolf. */
    method HumanWolfAction(target: int)
      requires Valid() && Settled() && gs.phase == NightWerewolf && HumanAlive(gs.players, Werewolf)
      requires exists p :: p in gs.players && p.isAlive && p.role != Werewolf && p.id == target
      modifies this
      ensures Evolves(old(gs), gs)
      ensures Valid() && UiState() == old(UiState())
      ensures gs == old(gs).(night := old(gs.night).(wolvesTarget := Some(target)), phase := NightWitch)
    {
      gs := gs.(night := gs.night.(wolvesTarget := Some(target)));
      gs := gs.(phase := NightWitch);
    }

    /**
     * The Witch's turn when no living human is the Witch: a living AI Witch
     * saves the victim on `saveCoin`, otherwise may poison `decision` on
     * `poisonCoin`; the night records both answers and the phase moves on.
     */
    method AiWitchTurn(saveCoin: bool, poisonCoin: bool, decision: Option<int>)
      requires Valid() && Settled()
      modifies this
      ensures Evolves(old(gs), gs)
      ensures Valid() && UiState() == old(UiState())
      ensures old(gs.phase) != NightWitch || HumanAlive(old(gs.players), Witch) ==> gs == old(gs)
      ensures old(gs.phase) == NightWitch && !HumanAlive(old(gs.players), Witch) ==>
                && gs.phase == NightSeer
                && gs == old(gs).(potions := gs.potions, night := gs.night, phase := NightSeer)
                && gs.night == old(gs.night).(witchSaveUsed := gs.night.witchSaveUsed,
                                              witchPoisonTarget := gs.night.witchPoisonTarget)
                && (gs.night.witchSaveUsed <==>
                      AiAlive(old(gs.players), Witch) && old(gs.potions.save) &&
                      IsSet(old(gs.night.wolvesTarget)) && saveCoin)
                && (gs.night.witchPoisonTarget.Some? ==>
                      AiAlive(old(gs.players), Witch) && old(gs.potions.poison) && poisonCoin &&
                      !gs.night.witchSaveUsed && gs.night.witchPoisonTarget == decision)
                && ((AiAlive(old(gs.players), Witch) && old(gs.potions.poison) && poisonCoin &&
                     !gs.night.witchSaveUsed) ==> gs.night.witchPoisonTarget == decision)
                && gs.potions.save == (old(gs.potions.save) && !gs.night.witchSaveUsed)
                && gs.potions.poison == (old(gs.potions.poison) && !IsSet(gs.night.witchPoisonTarget))
    {
      if gs.phase == NightWitch && !HumanAlive(gs.players, Witch) {
        var aiWitch := AiAlive(gs.players, Witch);
        var saveUsed := false;
        var poisonTarget: Option<int> := None;
        if aiWitch {
          if gs.potions.save && IsSet(gs.night.wolvesTarget) {
            if saveCoin {
              saveUsed := true;
            }
          }
          if !saveUsed && gs.potions.poison && poisonCoin {
            poisonTarget := decision;
          }
        }
        gs := gs.(potions := Potions(if saveUsed then false else gs.potions.save,
                                     if IsSet(poisonTarget) then false else gs.potions.poison),
                  night := gs.night.(witchSaveUsed := saveUsed, witchPoisonTarget := poisonTarget));
        gs := gs.(phase := NightSeer);
      }
    }

    /** The buttons the human Witch is shown at the current step. */
    ghost predicate WitchOffers(action: WitchAction)
      reads this
    {
      if witchUiStep == 1 then
        action == Skip || (action == Save && IsSet(gs.night.wolvesTarget) && gs.potions.save)
      else if witchUiStep == 2 then
        action == Skip ||
        (action.Poison? && gs.potions.poison &&
         (exists p :: p in gs.players && p.isAlive && p.id == action.target) &&
         forall w :: w in gs.players && w.role == Witch && w.isHuman && w.isAlive ==> w.id != action.target)
      else false
    }

    /**
     * `handleWitchDecision`: saving spends the save potion and ends the
     * Witch's turn; poisoning spends the poison and ends it; skipping moves
     * from the save step to the poison step, then ends it.
     */
    method WitchDecision(action: WitchAction)
      requires Valid() && Settled() && gs.phase == NightWitch && HumanAlive(gs.players, Witch)
      requires WitchOffers(action)
      modifies this
      ensures Evolves(old(gs), gs)
      ensures Valid()
      ensures action == Save ==>
                gs == old(gs).(night := old(gs.night).(witchSaveUsed := true),
                               potions := old(gs.potions).(save := false), phase := NightSeer) &&
                UiState() == old(UiState())
      ensures action.Poison? && action.target != 0 ==>
                gs == old(gs).(night := old(gs.night).(witchPoisonTarget := Some(action.target)),
                               potions := old(gs.potions).(poison := false), phase := NightSeer) &&
                UiState() == old(UiState())
      ensures action == Skip && old(witchUiStep) == 1 ==>
                gs == old(gs) && UiState() == old(UiState()).(witchUiStep := 2)
      ensures action == Skip && old(witchUiStep) != 1 ==>
                gs == old(gs).(phase := NightSeer) && UiState() == old(UiState())
    {
      match action
      case Save =>
        gs := gs.(night := gs.night.(witchSaveUsed := true), potions := gs.potions.(save := false));
        gs := gs.(phase := NightSeer);
      case Poison(target) =>
        if target != 0 {
          gs := gs.(night := gs.night.(witchPoisonTarget := Some(target)), potions := gs.potions.(poison := false));
          gs := gs.(phase := NightSeer);
        }
      case Skip =>
        if witchUiStep == 1 {
          witchUiStep := 2;
        } else {
          gs := gs.(phase := NightSeer);
        }
    }

    /** The Seer's turn when no living human is the Seer: the phase moves on to dawn. */
    method AiSeerTurn()
      requires Valid() && Settled()
      modifies this
      ensures Evolves(old(gs), gs)
      ensures Valid() && UiState() == old(UiState())
      ensures old(gs.phase) == NightSeer && !HumanAlive(old(gs.players), Seer) ==>
                gs == old(gs).(phase := DayAnnounce)
      ensures old(gs.phase) != NightSeer || HumanAlive(old(gs.players), Seer) ==> gs == old(gs)
    {
      if gs.phase == NightSeer && !HumanAlive(gs.players, Seer) {
        gs := gs.(phase := DayAnnounce);
      }
    }

    /** `handleHumanSeerAction`: the human Seer inspects a living player and sees that player's team. */
    method HumanSeerAction(target: int)
      requires Valid() && Settled() && gs.phase == NightSeer && HumanAlive(gs.players, Seer)
      requires gs.night.seerResult.None?
      requires exists p :: p in gs.players && p.isAlive && p.id == target
      requires forall q :: q in gs.players && q.role == Seer && q.isHuman && q.isAlive ==> q.id != target
      modifies this
      ensures Evolves(old(gs), gs)
      ensures Valid() && UiState() == old(UiState())
      ensures gs == old(gs).(night := old(gs.night).(seerResult := Some(SeerVerdict(old(gs.players), target)),
                                                     seerCheck := Some(target)))
      ensures gs.night.seerResult == Some(Revealed(Bad)) <==>
                exists p :: p in gs.players && p.id == target && p.role == Werewolf
    {
      CastIds(gs.players, humanCount);
      SeerSeesTruth(gs.players, target);
      gs := gs.(night := gs.night.(seerResult := Some(SeerVerdict(gs.players, target)), seerCheck := Some(target)));
    }

    /** `confirmSeerResult`: the Seer closes the reading and dawn comes. */
    method ConfirmSeerResult()
      requires Valid() && Settled() && gs.phase == NightSeer && HumanAlive(gs.players, Seer)
      requires gs.night.seerResult.Some?
      modifies this
      ensures Evolves(old(gs), gs)
      ensures Valid() && UiState() == old(UiState())
      ensures gs == old(gs).(night := old(gs.night).(seerResult := None), phase := DayAnnounce)
    {
      gs := gs.(night := gs.night.(seerResult := None));
      gs := gs.(phase := DayAnnounce);
    }

    /**
     * One pass of the discussion branch of the AI effect: no speaker opens
     * the vote; a missing or dead speaker is skipped; an AI speaker says
     * `speech` and hands over; a human speaker is waited for.
     */
    method DiscussionTurn(speech: string)
      requires Valid() && Settled()
      modifies this
      ensures Evolves(old(gs), gs)
      ensures Valid() && UiState() == old(UiState())
      ensures old(gs.phase) != DayDiscuss ==> gs == old(gs)
      ensures old(gs.phase) == DayDiscuss && !IsSet(old(gs.currentTurn)) ==> gs == old(gs).(phase := DayVote)
      ensures old(gs.phase) == DayDiscuss && IsSet(old(gs.currentTurn)) ==>
                var id := old(gs.currentTurn).value;
                var speaker := FindPlayer(old(gs.players), id);
                && (speaker.None? || !speaker.value.isAlive ==>
                      gs == PassTurn(old(gs), NextSpeaker(old(gs.players), id)))
                && (speaker.Some? && speaker.value.isAlive && !speaker.value.isHuman ==>
                      && gs == PassTurn(old(gs).(logs := old(gs.logs) + [ChatEntry(id, speech)]),
                                        NextSpeaker(old(gs.players), id))
                      && (gs.phase == DayVote || id < gs.currentTurn.value))
                && (speaker.Some? && speaker.value.isAlive && speaker.value.isHuman ==> gs == old(gs))
    {
      if gs.phase == DayDiscuss {
        if !IsSet(gs.currentTurn) {
          gs := gs.(phase := DayVote);
        } else {
          var id := gs.currentTurn.value;
          var speaker := FindPlayer(gs.players, id);
          if speaker.None? || !speaker.value.isAlive {
            gs := PassTurn(gs, NextSpeaker(gs.players, id));
          } else if !speaker.value.isHuman {
            CastIds(gs.players, humanCount);
            NextSpeakerOrder(gs.players, id);
            assert id in AliveIds(gs.players);
            gs := PassTurn(gs.(logs := gs.logs + [ChatEntry(id, speech)]), NextSpeaker(gs.players, id));
          }
        }
      }
    }

    /** `handleHumanChat`: the human speaker's line is logged and the turn passes on; blank input is ignored. */
    method HumanChat(input: string)
      requires Valid() && Settled() && gs.phase == DayDiscuss && IsSet(gs.currentTurn)
      requires FindPlayer(gs.players, gs.currentTurn.value).Some? && FindPlayer(gs.players, gs.currentTurn.value).value.isHuman
      modifies this
      ensures Evolves(old(gs), gs)
      ensures Valid() && UiState() == old(UiState())
      ensures Blank(input) ==> gs == old(gs)
      ensures !Blank(input) ==>
                gs == PassTurn(old(gs).(logs := old(gs.logs) + [ChatEntry(old(gs.currentTurn).value, input)]),
                               NextSpeaker(old(gs.players), old(gs.currentTurn).value))
    {
      if !Blank(input) {
        var id := gs.currentTurn.value;
        gs := gs.(logs := gs.logs + [ChatEntry(id, input)]);
        gs := PassTurn(gs, NextSpeaker(gs.players, id));
      }
    }

    /**
     * `handleHumanVote`: the ballot goes to the first living human without
     * one; once every living human has voted, the AI players vote and the
     * result is applied.
     */
    method HumanVote(target: int, choice: int -> Option<int>)
      requires Valid() && Settled() && gs.phase == DayVote
      requires target in AliveIds(gs.players)
      modifies this
      ensures Valid() && UiState() == old(UiState())
      ensures Evolves(old(gs), gs)
      ensures FirstUnvoted(Select(old(gs.players), AliveHumans), old(gs.humanVotes)).None? ==> gs == old(gs)
      ensures FirstUnvoted(Select(old(gs.players), AliveHumans), old(gs.humanVotes)).Some? ==>
                var cast := Ballot(old(gs), FirstUnvoted(Select(old(gs.players), AliveHumans), old(gs.humanVotes)).value.id, target);
                && (FirstUnvoted(Select(cast.players, AliveHumans), cast.humanVotes).Some? ==> gs == cast)
                && (FirstUnvoted(Select(cast.players, AliveHumans), cast.humanVotes).None? ==>
                      gs == ResolveVote(cast, choice))
    {
      var found := FirstUnvoted(Select(gs.players, AliveHumans), gs.humanVotes);
      if found.Some? {
        BallotKeepsSound(gs, found.value, target, humanCount);
        gs := Ballot(gs, found.value.id, target);
        ghost var cast := gs;
        assert found.value.id in gs.humanVotes.Keys;
        ResolveIfComplete(choice);
        EvolvesTransitive(old(gs), cast, gs);
      }
    }

    /**
     * The ballot count against the living humans: once they are equal, the
     * vote is resolved.  An internal step of `HumanVote`, taken right after a
     * ballot was recorded.
     */
    method ResolveIfComplete(choice: int -> Option<int>)
      requires Valid() && Settled() && gs.phase == DayVote && gs.humanVotes.Keys != {}
      modifies this
      ensures Valid() && UiState() == old(UiState())
      ensures Evolves(old(gs), gs)
      ensures FirstUnvoted(Select(old(gs.players), AliveHumans), old(gs.humanVotes)).Some? ==> gs == old(gs)
      ensures FirstUnvoted(Select(old(gs.players), AliveHumans), old(gs.humanVotes)).None? ==>
                gs == ResolveVote(old(gs), choice)
    {
      var humans := Select(gs.players, AliveHumans);
      CastIds(gs.players, humanCount);
      BallotsCompleteIff(gs.players, gs.humanVotes);
      if |gs.humanVotes| == |humans| {
        var entries, out := TallyRound(gs.humanVotes, Select(gs.players, AliveAi), choice);
        ApplyBallots(entries, out);
      }
    }

    /**
     * The end of `processAiVotesAndResolve`: the logged AI ballots `entries`
     * and the front-runner `out` (if any) are applied to the game.  An
     * internal step of `HumanVote`, taken once every living human holds a
     * ballot and `TallyRound` has counted the votes.
     */
    method ApplyBallots(entries: seq<LogEntry>, out: Option<int>)
      requires Valid() && Settled() && gs.phase == DayVote
      modifies this
      ensures Evolves(old(gs), gs)
      ensures Valid() && UiState() == old(UiState())
      ensures gs == ApplyVote(old(gs), entries, out)
    {
      ApplyVoteKeepsSound(gs, entries, out, humanCount);
      gs := ApplyVote(gs, entries, out);
    }

    /**
     * The AI Hunter's revenge: the shot is logged; a named target goes
     * through the cascade towards night, and an empty shot starts the night
     * with fresh night data.
     */
    method AiHunterTurn(decision: Option<int>)
      requires Valid() && Settled()
      modifies this
      ensures Valid() && UiState() == old(UiState())
      ensures Evolves(old(gs), gs)
      ensures old(gs.phase) != HunterAction ==> gs == old(gs)
      ensures old(gs.phase) == HunterAction ==>
                var id := old(gs.currentTurn).value;
                var hunter := FindPlayer(old(gs.players), id);
                var shot := if IsSet(decision) then decision else None;
                var logged := old(gs).(logs := old(gs.logs) + [ActionEntry(HunterShoots(id, shot))]);
                && (hunter.None? || hunter.value.isHuman ==> gs == old(gs))
                && (hunter.Some? && !hunter.value.isHuman && IsSet(decision) ==>
                      gs == ProcessDeaths(logged, [decision.value], NightWerewolf))
                && (hunter.Some? && !hunter.value.isHuman && !IsSet(decision) ==> gs == HunterMiss(logged))
    {
      if gs.phase == HunterAction {
        var id := gs.currentTurn.value;
        var hunter := FindPlayer(gs.players, id);
        if hunter.Some? && !hunter.value.isHuman {
          var shot := if IsSet(decision) then decision else None;
          if IsSet(decision) {
            ShotKeepsSound(gs, ActionEntry(HunterShoots(id, shot)), decision.value, humanCount);
          }
          gs := gs.(logs := gs.logs + [ActionEntry(HunterShoots(id, shot))]);
          if IsSet(decision) {
            gs := ProcessDeaths(gs, [decision.value], NightWerewolf);
          } else {
            gs := HunterMiss(gs);
          }
        }
      }
    }

    /** `handleHunterShoot`: the human Hunter takes a living player along; the cascade heads for night. */
    method HunterShoot(target: int)
      requires Valid() && Settled() && gs.phase == HunterAction
      requires FindPlayer(gs.players, gs.currentTurn.value).Some? && FindPlayer(gs.players, gs.currentTurn.value).value.isHuman
      requires target in AliveIds(gs.players)
      modifies this
      ensures Valid() && UiState() == old(UiState())
      ensures Evolves(old(gs), gs)
      ensures gs == ProcessDeaths(old(gs).(logs := old(gs.logs) + [LogEntry(Action, Some(You), YouShoot(target))]),
                                  [target], NightWerewolf)
      ensures target !in AliveIds(gs.players)
    {
      ShotKeepsSound(gs, LogEntry(Action, Some(You), YouShoot(target)), target, humanCount);
      gs := gs.(logs := gs.logs + [LogEntry(Action, Some(You), YouShoot(target))]);
      gs := ProcessDeaths(gs, [target], NightWerewolf);
    }
  }
}
