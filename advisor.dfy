/**
 * The pure parts of the AI advisor: the board view a player is shown, the
 * target picked when the model call fails, and the history windows fed to
 * the prompts.
 */
module Advisor {
  import opened Types
  import opened Constants
  import opened Roster

  datatype Status = Alive | Dead

  /** A role as shown to the acting player: the real one, or "UNKNOWN". */
  datatype KnownRole = Known(role: Role) | Hidden

  datatype BoardEntry = BoardEntry(id: int, status: Status, knownRole: KnownRole)

  /** The acting player sees its own role, and a Werewolf sees every Werewolf. */
  predicate Sees(me: Player, p: Player) {
    p.id == me.id || (me.role == Werewolf && p.role == Werewolf)
  }

  /** `boardState`: one entry per seat, in seat order. */
  function BoardView(me: Player, ps: seq<Player>): (view: seq<BoardEntry>)
    ensures |view| == |ps|
    ensures forall i :: 0 <= i < |ps| ==> view[i].id == ps[i].id
    ensures forall i :: 0 <= i < |ps| ==> (view[i].status == Alive <==> ps[i].isAlive)
    ensures forall i :: 0 <= i < |ps| ==> view[i].knownRole.Known? ==> view[i].knownRole.role == ps[i].role
  {
    seq(|ps|, i requires 0 <= i < |ps| =>
      BoardEntry(ps[i].id, if ps[i].isAlive then Alive else Dead,
                 if Sees(me, ps[i]) then Known(ps[i].role) else Hidden))
  }

  /** The acting player's own seat always shows its real role. */
  lemma BoardShowsSelf(me: Player, ps: seq<Player>, i: int)
    requires 0 <= i < |ps| && ps[i].id == me.id
    ensures BoardView(me, ps)[i].knownRole == Known(ps[i].role)
  {
  }

  /** A Werewolf sees exactly its own seat and the pack. */
  lemma WolfSeesPack(me: Player, ps: seq<Player>)
    requires me.role == Werewolf
    ensures forall i :: 0 <= i < |ps| ==>
              (BoardView(me, ps)[i].knownRole.Known? <==> ps[i].role == Werewolf || ps[i].id == me.id)
  {
  }

  /** Anyone else sees only its own seat. */
  lemma OthersSeeOnlySelf(me: Player, ps: seq<Player>)
    requires me.role != Werewolf
    ensures forall i :: 0 <= i < |ps| ==> (BoardView(me, ps)[i].knownRole.Known? <==> ps[i].id == me.id)
  {
  }

  /** No Good role of another player is ever disclosed. */
  lemma GoodRolesStayHidden(me: Player, ps: seq<Player>)
    ensures forall i :: 0 <= i < |ps| && ps[i].id != me.id && TeamOf(ps[i].role) == Good ==>
              BoardView(me, ps)[i].knownRole == Hidden
  {
  }

  /**
   * The catch-branch target: a living player other than the actor, drawn
   * with `u`, or None when there is no such player.
   */
  function FallbackTarget(me: Player, ps: seq<Player>, u: Draw): (r: Option<int>)
    ensures r.None? <==> forall p :: p in ps ==> !p.isAlive || p.id == me.id
    ensures r.Some? ==> exists p :: p in ps && p.isAlive && p.id != me.id && p.id == r.value
  {
    var others := Select(ps, AliveExcept(me.id));
    if |others| > 0 then
      var k := RandomIndex(u, |others|);
      assert others[k] in others;
      Some(others[k].id)
    else
      assert forall p :: p in ps ==> !Selects(AliveExcept(me.id), p);
      None
  }

  /** Every living other player can be the fallback: the draw decides which. */
  lemma FallbackReachesEveryone(me: Player, ps: seq<Player>, k: nat)
    requires k < |Select(ps, AliveExcept(me.id))|
    ensures var n := |Select(ps, AliveExcept(me.id))|;
            FallbackTarget(me, ps, k as real / n as real) == Some(Select(ps, AliveExcept(me.id))[k].id)
  {
    DrawFor(k, |Select(ps, AliveExcept(me.id))|);
  }

  /** The draw k / n lands on index k. */
  lemma DrawFor(k: nat, n: nat)
    requires k < n
    ensures 0.0 <= k as real / n as real < 1.0
    ensures RandomIndex(k as real / n as real, n) == k
  {
    var u := k as real / n as real;
    assert u * n as real == k as real;
    assert (1.0 - u) * n as real == (n - k) as real;
  }

  /** The history window of a prompt: the last `n` entries, or all of them when there are fewer (or `n` is 0). */
  function Recent<T>(h: seq<T>, n: nat): (r: seq<T>)
    ensures n == 0 ==> r == h
    ensures n > 0 ==> |r| == if |h| < n then |h| else n
    ensures |r| <= |h| && r == h[|h| - |r|..]
  {
    if n == 0 || |h| <= n then h else h[|h| - n..]
  }

  /** Entries the speech prompt shows. */
  const SpeechWindow := 10

  /** Entries the action prompt shows. */
  const ActionWindow := 5

  /** The action prompt's window is the tail of the speech prompt's. */
  lemma ActionWindowWithinSpeechWindow<T>(h: seq<T>)
    ensures var speech := Recent(h, SpeechWindow);
            var action := Recent(h, ActionWindow);
            |action| <= |speech| && action == speech[|speech| - |action|..]
  {
  }

  /** What the prompts are given as history: the content of every log entry, in order. */
  function History(logs: seq<LogEntry>): (h: seq<Message>)
    ensures |h| == |logs| && forall i :: 0 <= i < |logs| ==> h[i] == logs[i].content
  {
    seq(|logs|, i requires 0 <= i < |logs| => logs[i].content)
  }

  /** A prompt's history window is the content of the last `n` log entries (all of them when fewer). */
  lemma RecentHistory(logs: seq<LogEntry>, n: nat)
    requires n > 0
    ensures var m := if |logs| < n then |logs| else n;
            Recent(History(logs), n) == History(logs[|logs| - m..])
  {
    var m := if |logs| < n then |logs| else n;
    var w := Recent(History(logs), n);
    assert |w| == m;
    forall i | 0 <= i < m ensures w[i] == History(logs[|logs| - m..])[i] {
      assert w[i] == History(logs)[|logs| - m + i];
    }
  }
}
