/**
 * Discussion turn order: the living players sorted by id, walked once from
 * the lowest id to the highest, with no wrap-around.
 */
module Speakers {
  import opened Types
  import opened Roster

  /** Insert `x` before the first entry whose id is not smaller (stable for equal ids). */
  function Insert(x: Player, s: seq<Player>): (r: seq<Player>)
    ensures |r| == |s| + 1
    ensures forall p :: p in r <==> p == x || p in s
    ensures multiset(r) == multiset{x} + multiset(s)
  {
    if s == [] || x.id <= s[0].id then [x] + s
    else
      assert s == [s[0]] + s[1..];
      [s[0]] + Insert(x, s[1..])
  }

  /** The sort by ascending id, as a stable insertion sort. */
  function SortById(s: seq<Player>): (r: seq<Player>)
    ensures |r| == |s|
    ensures forall p :: p in r <==> p in s
    ensures multiset(r) == multiset(s)
  {
    if s == [] then []
    else
      assert s == [s[0]] + s[1..];
      Insert(s[0], SortById(s[1..]))
  }

  predicate StrictlyAscending(s: seq<Player>) {
    forall i, j :: 0 <= i < j < |s| ==> s[i].id < s[j].id
  }

  /** The first position holding that id, or -1. */
  function FindIndex(s: seq<Player>, id: int): (k: int)
    ensures -1 <= k < |s|
    ensures k >= 0 ==> s[k].id == id && forall i :: 0 <= i < k ==> s[i].id != id
    ensures k == -1 ==> forall i :: 0 <= i < |s| ==> s[i].id != id
  {
    if s == [] then -1
    else if s[0].id == id then 0
    else
      var k := FindIndex(s[1..], id);
      if k == -1 then -1 else k + 1
  }

  /** The living players in speaking order. */
  function SpeakingOrder(ps: seq<Player>): seq<Player> {
    SortById(Select(ps, AliveAll))
  }

  /**
   * `getNextSpeaker`: the living player after `currentId` in id order; the
   * lowest living id when `currentId` is not a living player (0 stands for
   * "before anyone"); None after the last one or when nobody is alive.
   */
  function NextSpeaker(ps: seq<Player>, currentId: int): Option<int> {
    NextIn(SpeakingOrder(ps), currentId)
  }

  /** The successor step of `getNextSpeaker` on the sorted living players. */
  function NextIn(alive: seq<Player>, currentId: int): Option<int> {
    var k := FindIndex(alive, currentId);
    if k == -1 then (if |alive| > 0 then Some(alive[0].id) else None)
    else if k == |alive| - 1 then None
    else Some(alive[k + 1].id)
  }

  lemma {:induction false} InsertAscending(x: Player, s: seq<Player>)
    requires StrictlyAscending(s) && forall q :: q in s ==> q.id != x.id
    ensures StrictlyAscending(Insert(x, s))
  {
    if s == [] || x.id <= s[0].id {
      forall q | q in s ensures x.id < q.id {
        var j :| 0 <= j < |s| && s[j] == q;
        if j > 0 {
          assert s[0].id < s[j].id;
        }
      }
      AscendingCons(x, s);
    } else {
      var t := Insert(x, s[1..]);
      InsertAscending(x, s[1..]);
      forall q | q in t ensures s[0].id < q.id {
        if q != x {
          var j :| 0 <= j < |s[1..]| && s[1..][j] == q;
          assert s[j + 1] == q;
        }
      }
      AscendingCons(s[0], t);
    }
  }

  /** Prepending a player below every id keeps ids ascending. */
  lemma AscendingCons(x: Player, s: seq<Player>)
    requires StrictlyAscending(s) && forall q :: q in s ==> x.id < q.id
    ensures StrictlyAscending([x] + s)
  {
    var r := [x] + s;
    forall i, j | 0 <= i < j < |r| ensures r[i].id < r[j].id {
      assert r[j] == s[j - 1];
      if i > 0 {
        assert r[i] == s[i - 1];
      }
    }
  }

  /** Sorting a roster with distinct ids yields strictly ascending ids. */
  lemma {:induction false} SortAscending(s: seq<Player>)
    requires DistinctIds(s)
    ensures StrictlyAscending(SortById(s))
  {
    if s != [] {
      assert DistinctIds(s[1..]) by {
        forall i, j | 0 <= i < j < |s[1..]| ensures s[1..][i].id != s[1..][j].id {
          assert s[1..][i] == s[i + 1] && s[1..][j] == s[j + 1];
        }
      }
      SortAscending(s[1..]);
      forall q | q in SortById(s[1..]) ensures q.id != s[0].id {
        var j :| 0 <= j < |s[1..]| && s[1..][j] == q;
        assert s[j + 1] == q;
      }
      InsertAscending(s[0], SortById(s[1..]));
    }
  }

  /** Ids present in a list of players. */
  function IdsOf(s: seq<Player>): set<int> {
    set p | p in s :: p.id
  }

  /** The speaking order holds exactly the living players' ids. */
  lemma SpeakingOrderIds(ps: seq<Player>)
    ensures IdsOf(SpeakingOrder(ps)) == AliveIds(ps)
  {
  }

  /** The successor rule on an ascending list of speakers. */
  lemma {:induction false} NextInAscending(s: seq<Player>, currentId: int)
    requires StrictlyAscending(s)
    ensures var next := NextIn(s, currentId);
            var ids := IdsOf(s);
            && (next.Some? ==> next.value in ids)
            && (currentId !in ids ==>
                  && (next.None? <==> ids == {})
                  && (next.Some? ==> forall a :: a in ids ==> next.value <= a))
            && (currentId in ids ==>
                  && (next.None? <==> forall a :: a in ids ==> a <= currentId)
                  && (next.Some? ==> currentId < next.value &&
                                     forall a :: a in ids && currentId < a ==> next.value <= a))
  {
    var ids := IdsOf(s);
    var k := FindIndex(s, currentId);
    forall a | a in ids ensures exists i :: 0 <= i < |s| && s[i].id == a {
      var p :| p in s && p.id == a;
      var i :| 0 <= i < |s| && s[i] == p;
    }
    if k == -1 {
      assert currentId !in ids;
      if |s| > 0 {
        assert s[0] in s;
      }
    } else {
      assert s[k] in s;
      if k < |s| - 1 {
        assert s[k + 1] in s;
      }
    }
  }

  /**
   * The turn order: from a living speaker, the next living id above it
   * (None after the highest); from anyone else, the lowest living id (None
   * when nobody is alive); whatever is returned is a living player's id.
   */
  lemma NextSpeakerOrder(ps: seq<Player>, currentId: int)
    requires DistinctIds(ps)
    ensures var next := NextSpeaker(ps, currentId);
            var alive := AliveIds(ps);
            && (next.Some? ==> next.value in alive)
            && (currentId !in alive ==>
                  && (next.None? <==> alive == {})
                  && (next.Some? ==> forall a :: a in alive ==> next.value <= a))
            && (currentId in alive ==>
                  && (next.None? <==> forall a :: a in alive ==> a <= currentId)
                  && (next.Some? ==> currentId < next.value &&
                                     forall a :: a in alive && currentId < a ==> next.value <= a))
  {
    SelectDistinct(ps, AliveAll);
    SortAscending(Select(ps, AliveAll));
    SpeakingOrderIds(ps);
    NextInAscending(SpeakingOrder(ps), currentId);
  }

  /** A table where ids 2, 3, 5 and 9 are alive and 1 is dead. */
  const SampleTable := [Player(1, Werewolf, "Quiet", false, false), Player(2, Villager, "Noble", true, true),
                        Player(3, Seer, "Logical", false, true), Player(5, Witch, "Chaotic", false, true),
                        Player(9, Werewolf, "Cautious", false, true)]

  lemma SampleTableAlive()
    ensures DistinctIds(SampleTable) && AliveIds(SampleTable) == {2, 3, 5, 9}
  {
    var ps := SampleTable;
    assert ps[1] in ps && ps[2] in ps && ps[3] in ps && ps[4] in ps;
  }

  /** With living ids {2, 3, 5, 9}, the speaker after 3 is 5. */
  lemma SampleTableAfterThree()
    ensures NextSpeaker(SampleTable, 3) == Some(5)
  {
    SampleTableAlive();
    NextSpeakerOrder(SampleTable, 3);
  }

  /** With living ids {2, 3, 5, 9}, nobody speaks after 9: discussion ends. */
  lemma SampleTableAfterLast()
    ensures NextSpeaker(SampleTable, 9) == None
  {
    SampleTableAlive();
    var alive := AliveIds(SampleTable);
    assert 9 in alive && forall a :: a in alive ==> a <= 9;
    NextSpeakerOrder(SampleTable, 9);
  }
}
