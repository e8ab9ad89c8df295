/**
 * The death cascade (`processDeathsAndContinue`) and the dawn step that
 * feeds it: mark the dead, detect a Hunter's revenge, check for a winner,
 * and choose the next phase.
 */
module Cascade {
  import opened Types
  import opened Constants
  import opened Roster
  import opened Victory
  import opened Speakers

  /** A death list entry reaches a player only while that player is alive. */
  function Kill(p: Player, deadIds: seq<int>): Player {
    if p.id in deadIds && p.isAlive then p.(isAlive := false) else p
  }

  /** Every living player whose id is listed dies; nobody else changes. */
  function MarkDead(ps: seq<Player>, deadIds: seq<int>): (r: seq<Player>)
    ensures SameCast(ps, r)
    ensures forall i :: 0 <= i < |ps| ==> (r[i].isAlive <==> ps[i].isAlive && ps[i].id !in deadIds)
  {
    seq(|ps|, i requires 0 <= i < |ps| => Kill(ps[i], deadIds))
  }

  /** A living Hunter on the death list who was not the Witch's poison target gets a revenge shot. */
  predicate Avenges(p: Player, deadIds: seq<int>, poisonTarget: Option<int>) {
    p.id in deadIds && p.isAlive && p.role == Hunter && poisonTarget != Some(p.id)
  }

  /** The Hunter whose revenge the cascade triggers: the last such seat in roster order. */
  function TriggeredHunter(ps: seq<Player>, deadIds: seq<int>, poisonTarget: Option<int>): (h: Option<int>)
    ensures h.Some? ==> exists p :: p in ps && Avenges(p, deadIds, poisonTarget) && p.id == h.value
    ensures h.None? ==> forall p :: p in ps ==> !Avenges(p, deadIds, poisonTarget)
  {
    if ps == [] then None
    else if Avenges(ps[|ps| - 1], deadIds, poisonTarget) then Some(ps[|ps| - 1].id)
    else TriggeredHunter(ps[..|ps| - 1], deadIds, poisonTarget)
  }

  /**
   * What every step of the game keeps: the seats only lose lives, a potion
   * once spent stays spent, the log only grows at its end, and the day
   * counter never goes back.
   */
  ghost predicate Evolves(s0: GameState, s1: GameState) {
    && SameCast(s0.players, s1.players)
    && (s1.potions.save ==> s0.potions.save)
    && (s1.potions.poison ==> s0.potions.poison)
    && s0.logs <= s1.logs
    && s0.dayCount <= s1.dayCount
  }

  /**
   * `processDeathsAndContinue`: kill the listed players, then end the game
   * if it is decided, else detour to a triggered Hunter, else continue to
   * `nextPhase` (voting when discussion has nobody to open it).
   */
  function ProcessDeaths(s: GameState, deadIds: seq<int>, nextPhase: Phase): (r: GameState)
    ensures Evolves(s, r)
    ensures r.players == MarkDead(s.players, deadIds)
    ensures r.potions == s.potions && r.dayCount == s.dayCount
    ensures r.phase == GameOver || r.phase == HunterAction || r.phase == nextPhase ||
            (r.phase == DayVote && nextPhase == DayDiscuss)
  {
    var players := MarkDead(s.players, deadIds);
    var hunter := TriggeredHunter(s.players, deadIds, s.night.witchPoisonTarget);
    var winner := CheckWin(players);
    if winner.Some? then
      s.(players := players, phase := GameOver, winner := winner)
    else if hunter.Some? then
      s.(players := players, phase := HunterAction, currentTurn := hunter,
         logs := s.logs + [SystemEntry(HunterDied(hunter.value))])
    else
      var firstSpeaker := if nextPhase == DayDiscuss then NextSpeaker(players, 0) else None;
      if nextPhase == DayDiscuss && !IsSet(firstSpeaker) then
        s.(players := players, phase := DayVote)
      else
        s.(players := players, phase := nextPhase, currentTurn := firstSpeaker,
           night := if nextPhase == NightWerewolf then EmptyNight else s.night,
           humanVotes := map[])
  }

  /** The win check comes first: a decided game ends even when a Hunter has just died. */
  lemma CascadeWinnerFirst(s: GameState, deadIds: seq<int>, nextPhase: Phase)
    requires CheckWin(MarkDead(s.players, deadIds)).Some?
    ensures var r := ProcessDeaths(s, deadIds, nextPhase);
            && r.phase == GameOver
            && r.winner == CheckWin(MarkDead(s.players, deadIds))
            && r.logs == s.logs && r.currentTurn == s.currentTurn
  {
  }

  /**
   * An undecided cascade that kills a living, unpoisoned Hunter detours to
   * the Hunter's shot, with that Hunter holding the turn, whatever phase was
   * asked for; the night data and the ballots are left as they were.
   */
  lemma CascadeHunterDetour(s: GameState, deadIds: seq<int>, nextPhase: Phase, hunter: Player)
    requires CheckWin(MarkDead(s.players, deadIds)).None?
    requires hunter in s.players && Avenges(hunter, deadIds, s.night.witchPoisonTarget)
    ensures var r := ProcessDeaths(s, deadIds, nextPhase);
            && r.phase == HunterAction
            && r.currentTurn.Some?
            && (exists p :: p in s.players && Avenges(p, deadIds, s.night.witchPoisonTarget) && p.id == r.currentTurn.value)
            && r.night == s.night && r.humanVotes == s.humanVotes
            && r.logs == s.logs + [SystemEntry(HunterDied(r.currentTurn.value))]
  {
  }

  /** A Hunter killed by the Witch's poison takes nobody with them. */
  lemma PoisonedHunterIsSilent(s: GameState, deadIds: seq<int>, nextPhase: Phase)
    requires forall p :: p in s.players && p.role == Hunter ==> s.night.witchPoisonTarget == Some(p.id)
    ensures ProcessDeaths(s, deadIds, nextPhase).phase != HunterAction || nextPhase == HunterAction
  {
  }

  /**
   * With no winner and no revenge, the cascade goes where it was asked:
   * discussion opens with the lowest living id, a new night starts with
   * empty night data, and the ballots are cleared.
   */
  lemma CascadeContinues(s: GameState, deadIds: seq<int>, nextPhase: Phase)
    requires DistinctIds(s.players) && forall p :: p in s.players ==> p.id > 0
    requires CheckWin(MarkDead(s.players, deadIds)).None?
    requires forall p :: p in s.players ==> !Avenges(p, deadIds, s.night.witchPoisonTarget)
    ensures var r := ProcessDeaths(s, deadIds, nextPhase);
            var alive := AliveIds(r.players);
            && r.phase == nextPhase
            && r.humanVotes == map[]
            && r.logs == s.logs
            && (nextPhase == DayDiscuss ==>
                  r.currentTurn.Some? && r.currentTurn.value in alive &&
                  forall a :: a in alive ==> r.currentTurn.value <= a)
            && (nextPhase != DayDiscuss ==> r.currentTurn == None)
            && (nextPhase == NightWerewolf ==> r.night == EmptyNight)
            && (nextPhase != NightWerewolf ==> r.night == s.night)
  {
    var players := MarkDead(s.players, deadIds);
    assert TriggeredHunter(s.players, deadIds, s.night.witchPoisonTarget).None?;
    if nextPhase == DayDiscuss {
      FirstSpeakerExists(players);
    }
  }

  /** While the game goes on, a roster with positive distinct ids always has a first speaker. */
  lemma FirstSpeakerExists(ps: seq<Player>)
    requires DistinctIds(ps) && forall p :: p in ps ==> p.id > 0
    requires CheckWin(ps).None?
    ensures IsSet(NextSpeaker(ps, 0))
    ensures NextSpeaker(ps, 0).value in AliveIds(ps)
    ensures forall a :: a in AliveIds(ps) ==> NextSpeaker(ps, 0).value <= a
  {
    GameOnHasSurvivor(ps);
    var p :| p in ps && p.isAlive;
    assert p.id in AliveIds(ps);
    assert 0 !in AliveIds(ps);
    NextSpeakerOrder(ps, 0);
  }

  /**
   * The "nobody left to speak" fallback of the cascade never fires on a
   * dealt roster: the cascade ends in voting only when voting was asked for.
   */
  lemma CascadeNeverSkipsDiscussion(s: GameState, deadIds: seq<int>, nextPhase: Phase)
    requires DistinctIds(s.players) && forall p :: p in s.players ==> p.id > 0
    ensures ProcessDeaths(s, deadIds, nextPhase).phase == DayVote ==> nextPhase == DayVote
  {
    var players := MarkDead(s.players, deadIds);
    if CheckWin(players).None? && nextPhase == DayDiscuss {
      assert DistinctIds(players);
      assert forall p :: p in players ==> p.id > 0 by {
        forall p | p in players ensures p.id > 0 {
          var i :| 0 <= i < |players| && players[i] == p;
          assert s.players[i] in s.players;
        }
      }
      FirstSpeakerExists(players);
    }
  }

  /** Only the listed ids matter, not their order or repetition. */
  lemma {:induction false} TriggeredHunterBySet(ps: seq<Player>, d1: seq<int>, d2: seq<int>, poisonTarget: Option<int>)
    requires forall x :: x in d1 <==> x in d2
    ensures TriggeredHunter(ps, d1, poisonTarget) == TriggeredHunter(ps, d2, poisonTarget)
  {
    if ps != [] {
      TriggeredHunterBySet(ps[..|ps| - 1], d1, d2, poisonTarget);
    }
  }

  /** Duplicate or reordered ids in the death list make no difference to the cascade. */
  lemma CascadeBySet(s: GameState, d1: seq<int>, d2: seq<int>, nextPhase: Phase)
    requires forall x :: x in d1 <==> x in d2
    ensures ProcessDeaths(s, d1, nextPhase) == ProcessDeaths(s, d2, nextPhase)
  {
    assert MarkDead(s.players, d1) == MarkDead(s.players, d2);
    TriggeredHunterBySet(s.players, d1, d2, s.night.witchPoisonTarget);
  }

  /** Re-applying a death list kills nobody new and cannot trigger a second revenge. */
  lemma CascadeIdempotent(ps: seq<Player>, deadIds: seq<int>, poisonTarget: Option<int>)
    ensures MarkDead(MarkDead(ps, deadIds), deadIds) == MarkDead(ps, deadIds)
    ensures TriggeredHunter(MarkDead(ps, deadIds), deadIds, poisonTarget).None?
  {
    var once := MarkDead(ps, deadIds);
    forall p | p in once ensures !Avenges(p, deadIds, poisonTarget) {
      var i :| 0 <= i < |once| && once[i] == p;
    }
  }

  /**
   * The dawn death list: the wolves' victim unless the Witch saved, then the
   * poisoned player; the Seer's inspection plays no part.
   */
  function DawnDeaths(night: NightActionData): (dead: seq<int>)
    ensures |dead| <= 2
    ensures forall id :: id in dead <==>
              (IsSet(night.wolvesTarget) && !night.witchSaveUsed && id == night.wolvesTarget.value) ||
              (IsSet(night.witchPoisonTarget) && id == night.witchPoisonTarget.value)
  {
    (if IsSet(night.wolvesTarget) && !night.witchSaveUsed then [night.wolvesTarget.value] else []) +
    (if IsSet(night.witchPoisonTarget) then [night.witchPoisonTarget.value] else [])
  }

  /**
   * The delayed dawn step: ignored once the phase has moved on; otherwise
   * the cascade towards discussion, and one more day exactly when it lands
   * in discussion.
   */
  function DawnStep(s: GameState, deadIds: seq<int>): (r: GameState)
    ensures Evolves(s, r)
    ensures s.phase != DayAnnounce ==> r == s
    ensures s.phase == DayAnnounce ==>
              && r.players == MarkDead(s.players, deadIds)
              && (r.phase == DayDiscuss ==> r.dayCount == s.dayCount + 1)
              && (r.phase != DayDiscuss ==> r.dayCount == s.dayCount)
  {
    if s.phase != DayAnnounce then s
    else
      var next := ProcessDeaths(s, deadIds, DayDiscuss);
      if next.phase == DayDiscuss then next.(dayCount := s.dayCount + 1) else next
  }

  /** Wolves on 5 with no save: 5 dies. */
  lemma DawnUnsavedVictim()
    ensures DawnDeaths(NightActionData(Some(5), None, None, false, None)) == [5]
  {
  }

  /** Wolves on 5, saved: nobody dies. */
  lemma DawnSavedVictim()
    ensures DawnDeaths(NightActionData(Some(5), None, None, true, None)) == []
  {
  }

  /** Wolves on 5 unsaved and poison on 7: two deaths. */
  lemma DawnTwoDeaths()
    ensures DawnDeaths(NightActionData(Some(5), None, None, false, Some(7))) == [5, 7]
  {
  }

  /** Wolves on 5 saved, but poison on 5: 5 still dies, once. */
  lemma DawnSavedThenPoisoned()
    ensures DawnDeaths(NightActionData(Some(5), None, None, true, Some(5))) == [5]
  {
  }

  /** The standard deal in its unshuffled order, one human in seat 1, everyone alive. */
  const DefaultTable := [Player(1, Werewolf, "Quiet", true, true), Player(2, Werewolf, "Noble", false, true),
                         Player(3, Werewolf, "Logical", false, true), Player(4, Villager, "Chaotic", false, true),
                         Player(5, Villager, "Cautious", false, true), Player(6, Villager, "Aggressive", false, true),
                         Player(7, Seer, "Paranoid", false, true), Player(8, Witch, "Emotional", false, true),
                         Player(9, Hunter, "Analytical", false, true)]

  lemma DefaultTableUndecided()
    ensures CheckWin(DefaultTable) == None
  {
    var t := DefaultTable;
    assert RolesOf(t) == StandardRoles by {
      forall i | 0 <= i < 9 ensures RolesOf(t)[i] == StandardRoles[i] {
      }
    }
    assert forall p :: p in t ==> p.isAlive;
    FreshDealUndecided(t);
  }

  lemma DefaultTableIds()
    ensures DistinctIds(DefaultTable) && forall p :: p in DefaultTable ==> p.id > 0
    ensures DefaultTable[0] in DefaultTable && DefaultTable[0].id == 1 && DefaultTable[0].isAlive
  {
    var t := DefaultTable;
    assert forall i :: 0 <= i < |t| ==> t[i].id == i + 1;
  }

  /**
   * A quiet night on an undecided table: the dawn step changes no seat and
   * opens discussion one day later, with the lowest living id speaking first.
   */
  lemma QuietDawn(s: GameState)
    requires s.phase == DayAnnounce && DawnDeaths(s.night) == []
    requires DistinctIds(s.players) && forall p :: p in s.players ==> p.id > 0
    requires CheckWin(s.players).None?
    ensures var r := DawnStep(s, DawnDeaths(s.night));
            && r.players == s.players && r.phase == DayDiscuss && r.dayCount == s.dayCount + 1
            && r.currentTurn.Some? && r.currentTurn.value in AliveIds(s.players)
            && forall a :: a in AliveIds(s.players) ==> r.currentTurn.value <= a
  {
    assert MarkDead(s.players, []) == s.players;
    assert TriggeredHunter(s.players, [], s.night.witchPoisonTarget) == None;
    FirstSpeakerExists(s.players);
  }

  /**
   * First night, wolves on 7 and the Witch saves: nobody dies, discussion
   * opens on day 2 with Player 1 speaking first.
   */
  lemma FirstNightSaved()
    ensures var night := NightActionData(Some(7), None, None, true, None);
            var s := GameState(DefaultTable, DayAnnounce, 1, [], Potions(false, true), None, night, map[], None);
            var r := DawnStep(s, DawnDeaths(night));
            && r.players == DefaultTable && r.phase == DayDiscuss
            && r.dayCount == 2 && r.currentTurn == Some(1)
  {
    var night := NightActionData(Some(7), None, None, true, None);
    var s := GameState(DefaultTable, DayAnnounce, 1, [], Potions(false, true), None, night, map[], None);
    DefaultTableUndecided();
    DefaultTableIds();
    QuietDawn(s);
    var r := DawnStep(s, DawnDeaths(night));
    var v := r.currentTurn.value;
    assert 1 in AliveIds(s.players);
    var p :| p in s.players && p.isAlive && p.id == v;
    assert v == 1;
  }
}
