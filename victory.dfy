/** The win check run after every death. */
module Victory {
  import opened Types
  import opened Constants
  import opened Roster

  /**
   * Good wins when no Werewolf is alive; otherwise Bad wins when the living
   * wolves are at least as many as the living Good players, or when either
   * every god (Seer, Witch, Hunter) or every Villager is dead; otherwise the
   * game goes on.
   */
  function CheckWin(ps: seq<Player>): (w: Option<Team>)
    ensures w == Some(Good) <==> CountAlive(ps, Wolves) == 0
    ensures w == Some(Bad) <==>
              CountAlive(ps, Wolves) > 0 &&
              (CountAlive(ps, Wolves) >= CountAlive(ps, GoodTeam) ||
               CountAlive(ps, Gods) == 0 || CountAlive(ps, Villagers) == 0)
  {
    var wolves := CountAlive(ps, Wolves);
    var good := CountAlive(ps, GoodTeam);
    var gods := CountAlive(ps, Gods);
    var villagers := CountAlive(ps, Villagers);
    if wolves == 0 then Some(Good)
    else if wolves >= good then Some(Bad)
    else if gods == 0 || villagers == 0 then Some(Bad)
    else None
  }

  /**
   * While the game goes on, a wolf, a god and a villager are alive, the Good
   * team outnumbers the wolves, and so at least three players are alive.
   */
  lemma GameOnMeansContest(ps: seq<Player>)
    requires CheckWin(ps).None?
    ensures CountAlive(ps, Wolves) >= 1
    ensures CountAlive(ps, Gods) >= 1 && CountAlive(ps, Villagers) >= 1
    ensures CountAlive(ps, GoodTeam) > CountAlive(ps, Wolves)
    ensures CountAlive(ps, Anyone) >= 3
  {
    CensusPartition(ps);
  }

  /** While the game goes on somebody is alive to speak. */
  lemma GameOnHasSurvivor(ps: seq<Player>)
    requires CheckWin(ps).None?
    ensures exists p :: p in ps && p.isAlive
  {
    CountAlivePositive(ps, Wolves);
  }

  /** A Good victory cannot be undone by further deaths. */
  lemma GoodWinIsFinal(a: seq<Player>, b: seq<Player>)
    requires SameCast(a, b) && CheckWin(a) == Some(Good)
    ensures CheckWin(b) == Some(Good)
  {
    CountAliveNeverGrows(a, b, Wolves);
  }

  /** With every wolf dead Good wins, whatever else is alive. */
  lemma NoWolvesGoodWins()
    ensures CheckWin([Player(1, Werewolf, "Quiet", false, false), Player(2, Villager, "Noble", true, true),
                      Player(3, Seer, "Logical", false, true)]) == Some(Good)
  {
  }

  /** Two wolves facing two Good players: the wolves win on numbers. */
  lemma WolvesMatchGoodBadWins()
    ensures CheckWin([Player(1, Werewolf, "Quiet", false, true), Player(2, Werewolf, "Noble", false, true),
                      Player(3, Villager, "Logical", true, true), Player(4, Seer, "Chaotic", false, true),
                      Player(5, Hunter, "Cautious", false, false)]) == Some(Bad)
  {
  }

  /** A freshly dealt table, everyone alive, is undecided: 3 wolves face 3 gods and 3 villagers. */
  lemma FreshDealUndecided(ps: seq<Player>)
    requires |ps| == 9 && multiset(RolesOf(ps)) == multiset(StandardRoles)
    requires forall p :: p in ps ==> p.isAlive
    ensures CheckWin(ps) == None
  {
    CountAliveByRoles(ps, Wolves);
    CountAliveByRoles(ps, GoodTeam);
    CountAliveByRoles(ps, Gods);
    CountAliveByRoles(ps, Villagers);
    StandardComposition();
  }
}
