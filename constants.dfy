/** The fixed tables of the standard nine-player game. */
module Constants {
  import opened Types

  /** The nine roles dealt at the start of every game, before shuffling. */
  const StandardRoles: seq<Role> :=
    [Werewolf, Werewolf, Werewolf, Villager, Villager, Villager, Seer, Witch, Hunter]

  /** Flavour labels; a personality has no effect on the rules. */
  const Personalities: seq<string> :=
    ["Aggressive", "Cautious", "Deceptive", "Logical", "Emotional",
     "Chaotic", "Quiet", "Analytical", "Paranoid", "Noble"]

  /** The team each role plays for: only Werewolves are Bad. */
  function TeamOf(r: Role): (t: Team)
    ensures t == Bad <==> r == Werewolf
  {
    match r
    case Werewolf => Bad
    case Villager => Good
    case Seer => Good
    case Witch => Good
    case Hunter => Good
  }

  /** How many copies of each role the standard deal holds. */
  function Quota(r: Role): nat {
    match r
    case Werewolf => 3
    case Villager => 3
    case _ => 1
  }

  /** The standard deal holds three Werewolves, three Villagers and one each of Seer, Witch and Hunter. */
  lemma StandardComposition()
    ensures |StandardRoles| == 9
    ensures multiset(StandardRoles)[Werewolf] == 3
    ensures multiset(StandardRoles)[Villager] == 3
    ensures multiset(StandardRoles)[Seer] == 1
    ensures multiset(StandardRoles)[Witch] == 1
    ensures multiset(StandardRoles)[Hunter] == 1
    ensures forall r :: multiset(StandardRoles)[r] == Quota(r)
  {
  }
}
