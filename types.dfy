/**
 * The domain model of the moderator: roles, teams, phases, players, the
 * Witch's potions, the per-night scratch data, the log and the aggregate
 * game state.  Every record of the game is a value; the orchestrator in
 * module Moderator is the only place that replaces them.
 */
module Types {

  datatype Option<+T> = None | Some(value: T)

  /** A player id as the game tests it for truth: a missing id and id 0 both count as unset. */
  predicate IsSet(id: Option<int>) {
    id.Some? && id.value != 0
  }

  datatype Role = Werewolf | Villager | Seer | Witch | Hunter

  datatype Team = Good | Bad

  datatype Phase =
    | Setup
    | Reveal
    | NightWerewolf
    | NightWitch
    | NightSeer
    | DayAnnounce
    | DayDiscuss
    | DayVote
    | HunterAction
    | GameOver

  /** A seat at the table; `isAlive` is the only field that changes during play. */
  datatype Player = Player(id: int, role: Role, personality: string, isHuman: bool, isAlive: bool)

  /** A flag that is true means that potion has not been used yet. */
  datatype Potions = Potions(save: bool, poison: bool)

  /** What the Seer's inspection shows: the target's team, or Unknown when the id matched nobody. */
  datatype SeerResult = Revealed(team: Team) | Unknown

  /** Scratch data of one night cycle. */
  datatype NightActionData = NightActionData(
    wolvesTarget: Option<int>,
    seerCheck: Option<int>,
    seerResult: Option<SeerResult>,
    witchSaveUsed: bool,
    witchPoisonTarget: Option<int>)

  const EmptyNight := NightActionData(None, None, None, false, None)

  datatype LogKind = System | Chat | Action

  /** "Player <id>" or "You". */
  datatype Author = PlayerAuthor(id: int) | You

  /** What a log entry says; the narration text itself is not modelled. */
  datatype Message =
    | Welcome
    | GameStarted
    | NightFalls
    | WolvesWake
    | WitchWakes
    | SeerWakes
    | SunRises(dead: seq<int>)              // an empty list announces that everyone survived
    | HunterDied(hunter: int)
    | Speech(text: string)
    | DiscussionEnded
    | Voted(voter: int, target: int)
    | Abstained(voter: int)
    | VotedOut(player: int)
    | VoteTied
    | HunterShoots(shooter: int, shot: Option<int>)   // None: the Hunter shot nobody
    | YouShoot(victim: int)

  datatype LogEntry = LogEntry(kind: LogKind, author: Option<Author>, content: Message)

  function SystemEntry(m: Message): LogEntry {
    LogEntry(System, None, m)
  }

  function ActionEntry(m: Message): LogEntry {
    LogEntry(Action, None, m)
  }

  /** The aggregate root of one game. */
  datatype GameState = GameState(
    players: seq<Player>,
    phase: Phase,
    dayCount: int,
    logs: seq<LogEntry>,
    potions: Potions,
    currentTurn: Option<int>,
    night: NightActionData,
    humanVotes: map<int, int>,
    winner: Option<Team>)

  /** The state the game opens with, before any player exists. */
  const InitialState := GameState([], Setup, 1, [SystemEntry(Welcome)], Potions(true, true),
                                  None, EmptyNight, map[], None)
}
