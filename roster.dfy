/**
 * Queries over the roster: head counts by category, the filtered player
 * lists the engine builds, look-up by id, and the one mutation play allows
 * (a death).
 */
module Roster {
  import opened Types
  import opened Constants

  /** The categories the win check counts. */
  datatype Census = Wolves | GoodTeam | Gods | Villagers | Anyone

  predicate Counts(c: Census, r: Role) {
    match c
    case Wolves => r == Werewolf
    case GoodTeam => TeamOf(r) == Good
    case Gods => r == Witch || r == Seer || r == Hunter
    case Villagers => r == Villager
    case Anyone => true
  }

  predicate InCensus(p: Player, c: Census) {
    Counts(c, p.role)
  }

  /** How many roles of a category a bag of roles holds. */
  function Weight(m: multiset<Role>, c: Census): nat {
    (if Counts(c, Werewolf) then m[Werewolf] else 0) +
    (if Counts(c, Villager) then m[Villager] else 0) +
    (if Counts(c, Seer) then m[Seer] else 0) +
    (if Counts(c, Witch) then m[Witch] else 0) +
    (if Counts(c, Hunter) then m[Hunter] else 0)
  }

  /** Number of living players of a category. */
  function CountAlive(ps: seq<Player>, c: Census): nat {
    if ps == [] then 0
    else (if ps[0].isAlive && InCensus(ps[0], c) then 1 else 0) + CountAlive(ps[1..], c)
  }

  /** The filters the engine applies to the roster. */
  datatype Selector =
    | AliveAll                 // every living player
    | AliveHumans              // the living humans
    | AliveAi                  // the living AI players
    | AliveExcept(id: int)     // the living players other than `id`

  predicate Selects(sel: Selector, p: Player) {
    match sel
    case AliveAll => p.isAlive
    case AliveHumans => p.isHuman && p.isAlive
    case AliveAi => p.isAlive && !p.isHuman
    case AliveExcept(id) => p.isAlive && p.id != id
  }

  /** The filtered roster: the selected players, in roster order. */
  function Select(ps: seq<Player>, sel: Selector): (r: seq<Player>)
    ensures |r| <= |ps|
    ensures forall p :: p in r <==> p in ps && Selects(sel, p)
  {
    if ps == [] then []
    else if Selects(sel, ps[0]) then [ps[0]] + Select(ps[1..], sel)
    else Select(ps[1..], sel)
  }

  /**
   * The filter keeps roster order: filtering two stretches of the roster
   * one after the other is filtering their concatenation.
   */
  lemma {:induction false} SelectAppend(a: seq<Player>, b: seq<Player>, sel: Selector)
    ensures Select(a + b, sel) == Select(a, sel) + Select(b, sel)
  {
    if a != [] {
      assert (a + b)[0] == a[0] && (a + b)[1..] == a[1..] + b;
      SelectAppend(a[1..], b, sel);
    } else {
      assert a + b == b;
    }
  }

  /** Look-up by id: the first player with that id. */
  function FindPlayer(ps: seq<Player>, id: int): (r: Option<Player>)
    ensures r.Some? ==> r.value in ps && r.value.id == id
    ensures r.None? ==> forall p :: p in ps ==> p.id != id
  {
    if ps == [] then None
    else if ps[0].id == id then Some(ps[0])
    else FindPlayer(ps[1..], id)
  }

  /** Ids of the living players. */
  function AliveIds(ps: seq<Player>): set<int> {
    set p | p in ps && p.isAlive :: p.id
  }

  /** No two seats share an id. */
  predicate DistinctIds(ps: seq<Player>) {
    forall i, j :: 0 <= i < j < |ps| ==> ps[i].id != ps[j].id
  }

  /**
   * `b` is `a` after some deaths: same seats in the same order, only
   * `isAlive` may differ, and only from true to false.
   */
  predicate SameCast(a: seq<Player>, b: seq<Player>) {
    |a| == |b| &&
    forall i :: 0 <= i < |a| ==> b[i] == a[i].(isAlive := b[i].isAlive) && (b[i].isAlive ==> a[i].isAlive)
  }

  /** The roles of the seats, in seat order. */
  function RolesOf(ps: seq<Player>): (rs: seq<Role>)
    ensures |rs| == |ps| && forall i :: 0 <= i < |ps| ==> rs[i] == ps[i].role
  {
    seq(|ps|, i requires 0 <= i < |ps| => ps[i].role)
  }

  /** How many seats hold role `r`. */
  function Seats(ps: seq<Player>, r: Role): nat {
    if ps == [] then 0 else (if ps[0].role == r then 1 else 0) + Seats(ps[1..], r)
  }

  /** Counting seats is counting the role in the bag of dealt roles. */
  lemma {:induction false} SeatsAreMultiplicity(ps: seq<Player>, r: Role)
    ensures Seats(ps, r) == multiset(RolesOf(ps))[r]
  {
    if ps != [] {
      assert RolesOf(ps) == [ps[0].role] + RolesOf(ps[1..]);
      SeatsAreMultiplicity(ps[1..], r);
    }
  }

  /**
   * The roster `startGame` deals: seat i (from 0) gets id i + 1, is human
   * iff i < humanCount and carries a personality label, and the seats hold
   * the standard roles, each as often as the standard deal does.
   */
  ghost predicate Cast(ps: seq<Player>, humanCount: int) {
    && |ps| == |StandardRoles|
    && (forall r :: Seats(ps, r) == Quota(r))
    && forall i :: 0 <= i < |ps| ==>
         && ps[i].id == i + 1
         && ps[i].isHuman == (i < humanCount)
         && ps[i].personality in Personalities
  }

  /** A dealt roster keeps its shape through any number of deaths. */
  lemma CastSurvivesDeaths(a: seq<Player>, b: seq<Player>, humanCount: int)
    requires Cast(a, humanCount) && SameCast(a, b)
    ensures Cast(b, humanCount)
  {
    assert RolesOf(a) == RolesOf(b);
    forall r ensures Seats(b, r) == Quota(r) {
      SeatsAreMultiplicity(a, r);
      SeatsAreMultiplicity(b, r);
    }
  }

  /** Ids of a dealt roster are 1..9, hence distinct and positive. */
  lemma CastIds(ps: seq<Player>, humanCount: int)
    requires Cast(ps, humanCount)
    ensures DistinctIds(ps)
    ensures forall p :: p in ps ==> p.id > 0
  {
  }

  /** SameCast is a preorder: deaths compose. */
  lemma SameCastTransitive(a: seq<Player>, b: seq<Player>, c: seq<Player>)
    requires SameCast(a, b) && SameCast(b, c)
    ensures SameCast(a, c)
  {
  }

  /** Deaths never raise a head count. */
  lemma {:induction false} CountAliveNeverGrows(a: seq<Player>, b: seq<Player>, c: Census)
    requires SameCast(a, b)
    ensures CountAlive(b, c) <= CountAlive(a, c)
  {
    if a != [] {
      assert SameCast(a[1..], b[1..]) by {
        forall i | 0 <= i < |a[1..]|
          ensures b[1..][i] == a[1..][i].(isAlive := b[1..][i].isAlive)
        {
          assert b[1..][i] == b[i + 1] && a[1..][i] == a[i + 1];
        }
      }
      CountAliveNeverGrows(a[1..], b[1..], c);
    }
  }

  /** The Good team is exactly the gods plus the villagers, and every living player is a wolf or Good. */
  lemma {:induction false} CensusPartition(ps: seq<Player>)
    ensures CountAlive(ps, GoodTeam) == CountAlive(ps, Gods) + CountAlive(ps, Villagers)
    ensures CountAlive(ps, Anyone) == CountAlive(ps, Wolves) + CountAlive(ps, GoodTeam)
  {
    if ps != [] {
      CensusPartition(ps[1..]);
    }
  }

  /** Some player of the category is alive exactly when its head count is positive. */
  lemma {:induction false} CountAlivePositive(ps: seq<Player>, c: Census)
    ensures CountAlive(ps, c) > 0 <==> exists p :: p in ps && p.isAlive && InCensus(p, c)
  {
    if ps != [] {
      CountAlivePositive(ps[1..], c);
      if CountAlive(ps[1..], c) > 0 {
        var p :| p in ps[1..] && p.isAlive && InCensus(p, c);
        assert p in ps;
      }
      forall p | p in ps && p.isAlive && InCensus(p, c) && p != ps[0]
        ensures p in ps[1..]
      {
        var i :| 0 <= i < |ps| && ps[i] == p;
        assert i > 0 && ps[1..][i - 1] == p;
      }
    }
  }

  /** A filter keeps ids distinct. */
  lemma {:induction false} SelectDistinct(ps: seq<Player>, sel: Selector)
    requires DistinctIds(ps)
    ensures DistinctIds(Select(ps, sel))
  {
    if ps != [] {
      var rest := Select(ps[1..], sel);
      assert DistinctIds(ps[1..]) by {
        forall i, j | 0 <= i < j < |ps[1..]| ensures ps[1..][i].id != ps[1..][j].id {
          assert ps[1..][i] == ps[i + 1] && ps[1..][j] == ps[j + 1];
        }
      }
      SelectDistinct(ps[1..], sel);
      if Selects(sel, ps[0]) {
        forall q | q in rest ensures q.id != ps[0].id {
          var j :| 0 <= j < |ps[1..]| && ps[1..][j] == q;
          assert ps[j + 1] == q;
        }
        DistinctCons(ps[0], rest);
      }
    }
  }

  /** Prepending a player whose id is new keeps ids distinct. */
  lemma DistinctCons(x: Player, s: seq<Player>)
    requires DistinctIds(s) && forall q :: q in s ==> q.id != x.id
    ensures DistinctIds([x] + s)
  {
    var t := [x] + s;
    forall i, j | 0 <= i < j < |t| ensures t[i].id != t[j].id {
      assert t[j] == s[j - 1];
      if i > 0 {
        assert t[i] == s[i - 1];
      }
    }
  }

  /** The weight of a category adds up over a union of bags. */
  lemma WeightAdds(a: multiset<Role>, b: multiset<Role>, c: Census)
    ensures Weight(a + b, c) == Weight(a, c) + Weight(b, c)
  {
  }

  /** With everyone alive, a head count is read off the dealt roles. */
  lemma {:induction false} CountAliveByRoles(ps: seq<Player>, c: Census)
    requires forall p :: p in ps ==> p.isAlive
    ensures CountAlive(ps, c) == Weight(multiset(RolesOf(ps)), c)
  {
    if ps != [] {
      assert RolesOf(ps) == [ps[0].role] + RolesOf(ps[1..]);
      assert multiset(RolesOf(ps)) == multiset{ps[0].role} + multiset(RolesOf(ps[1..]));
      assert ps[0] in ps;
      CountAliveByRoles(ps[1..], c);
      WeightAdds(multiset{ps[0].role}, multiset(RolesOf(ps[1..])), c);
      WeightOne(ps[0].role, c);
    }
  }

  /** A single role weighs one in its categories and nothing elsewhere. */
  lemma WeightOne(r: Role, c: Census)
    ensures Weight(multiset{r}, c) == if Counts(c, r) then 1 else 0
  {
  }

  /** One draw of the random number generator, in [0, 1). */
  type Draw = u: real | 0.0 <= u < 1.0

  /** A random index below `n`: the draw `u`, scaled by `n` and rounded down. */
  function RandomIndex(u: Draw, n: nat): (k: nat)
    requires n > 0
    ensures k < n
  {
    var x := u * n as real;
    assert x < n as real;
    x.Floor
  }

  /**
   * The roster `startGame` builds from the shuffled roles and one
   * personality draw per seat.
   */
  function Deal(shuffled: seq<Role>, humanCount: int, draws: seq<Draw>): (ps: seq<Player>)
    requires |draws| == |shuffled|
    ensures |ps| == |shuffled| && RolesOf(ps) == shuffled
    ensures forall p :: p in ps ==> p.isAlive
  {
    seq(|shuffled|, i requires 0 <= i < |shuffled| =>
      Player(i + 1, shuffled[i], Personalities[RandomIndex(draws[i], |Personalities|)], i < humanCount, true))
  }

  /** Any permutation of the standard roles deals a roster of the required shape. */
  lemma DealIsCast(shuffled: seq<Role>, humanCount: int, draws: seq<Draw>)
    requires multiset(shuffled) == multiset(StandardRoles)
    requires |draws| == |shuffled|
    ensures Cast(Deal(shuffled, humanCount, draws), humanCount)
  {
    var ps := Deal(shuffled, humanCount, draws);
    assert |shuffled| == |multiset(shuffled)| == |multiset(StandardRoles)| == |StandardRoles|;
    forall i | 0 <= i < |ps| ensures ps[i].personality in Personalities {
      var k := RandomIndex(draws[i], |Personalities|);
      assert ps[i].personality == Personalities[k];
    }
    StandardComposition();
    forall r ensures Seats(ps, r) == Quota(r) {
      SeatsAreMultiplicity(ps, r);
    }
  }
}
