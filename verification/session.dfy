/**
 The `Game` class of game.py: one game session, its status
 (WAITING, PLAYING, ENDED), its players, the turn in progress, the
 notification flags of that turn, the story log and the timeout counters.
 Each method of the class becomes a function from the old state to the new
 one. Clock readings are passed in as `now`, in milliseconds.
 */
module Session {
  import opened Wrappers
  import opened Turns
  import opened Story

  datatype Status = Waiting | Playing | Ended

  datatype Game = Game(
    nMessages: int,
    timeout: int,            // seconds per turn
    chatId: int,
    players: seq<Player>,
    lastTime: int,           // start of the current turn, ms; -1 before the first
    notifiedHalf: bool,
    notifiedThirty: bool,
    notifiedFive: bool,
    current: Option<Player>,
    next: Option<Player>,
    playlist: Playlist,
    title: string,
    messages: seq<Message>,
    timeouts: seq<Counter>,  // the `timeouts` dict, in insertion order
    status: Status)

  /** Position of a status along WAITING -> PLAYING -> ENDED. */
  function Rank(s: Status): nat {
    match s
    case Waiting => 0
    case Playing => 1
    case Ended => 2
  }

  predicate DistinctUsernames(ps: seq<Player>) {
    forall i, j :: 0 <= i < j < |ps| ==> ps[i].username != ps[j].username
  }

  /** What holds of every game the bot keeps. */
  predicate WellFormed(g: Game) {
    && |g.players| >= 1
    && DistinctIds(g.players) && DistinctUsernames(g.players)
    && 1 <= g.nMessages <= 10000 && 10 <= g.timeout <= 604800
    && |g.messages| <= g.nMessages
    && DistinctKeys(g.timeouts)
    && (g.status == Waiting ==>
          && g.playlist == Unshuffled && g.messages == [] && g.timeouts == []
          && g.current == None && g.next == None
          && !g.notifiedHalf && !g.notifiedThirty && !g.notifiedFive)
    && (g.status == Playing ==> |g.messages| < g.nMessages)
    && (g.status != Waiting ==>
          && g.current.Some? && g.next.Some?
          && g.current.value in g.players && g.next.value in g.players
          && (|g.players| == 1 ==> g.playlist == Unshuffled)
          && (|g.players| >= 2 ==> ValidPlaylist(g.players, g.playlist) && InStep(g.current.value, g.playlist)))
  }

  /** The player on turn is the one the sequencer handed out last: inside a
      pass, the player just before `U_i`; right after the passes were
      swapped (`U_i` back at 0), the last player of the previous pass,
      whose id differs from the new pass's first. */
  predicate InStep(cur: Player, pl: Playlist) {
    if 1 <= pl.ui <= |pl.u1| then cur == pl.u1[pl.ui - 1]
    else pl.ui == 0 && |pl.u1| > 0 && cur.id != pl.u1[0].id
  }

  /** `Game.__init__`: a WAITING game with no players yet. */
  function Create(nMessages: int, timeout: int, chatId: int): (r: Game)
    ensures r.status == Waiting && |r.players| == 0 && r.messages == [] && r.timeouts == []
    ensures 1 <= nMessages <= 10000 && 10 <= timeout <= 604800 ==>
              forall p :: WellFormed(PlayerJoin(r, p))
  {
    Game(nMessages, timeout, chatId, [], -1, false, false, false,
         None, None, Unshuffled, "", [], [], Waiting)
  }

  /** `player_join`: append, keeping everyone already there in place. */
  function PlayerJoin(g: Game, p: Player): (r: Game)
    ensures |r.players| == |g.players| + 1 && r.players[|g.players|] == p
    ensures r.players[..|g.players|] == g.players
    ensures r == g.(players := r.players)
  {
    g.(players := g.players + [p])
  }

  /** `get_creator`: whoever joined first. */
  function Creator(g: Game): (r: Player)
    requires |g.players| > 0
    ensures r in g.players
    ensures forall p :: PlayerJoin(g, p).players[0] == r
  {
    g.players[0]
  }

  /** `start`: PLAYING, a fresh playlist, the first pair drawn and the
      turn clock started. */
  ghost function Start(g: Game, now: int): (r: Game)
    requires WellFormed(g) && g.status == Waiting
    ensures WellFormed(r) && r.status == Playing
    ensures r.lastTime == now
    ensures r == g.(status := Playing, playlist := r.playlist, current := r.current,
                    next := r.next, lastTime := now)
    ensures |g.players| == 1 ==> r.current == r.next == Some(g.players[0])
    ensures |g.players| >= 2 ==>
              && r.playlist.ui == 1
              && r.current == Some(r.playlist.u1[0]) && r.next == Some(r.playlist.u1[1])
  {
    var pl := InitPlaylist(g.players, g.playlist);
    var (pl', d) := NextPlaylistTurn(g.players, pl);
    g.(status := Playing, playlist := pl', current := Some(d.value.current),
       next := Some(d.value.next), lastTime := now)
  }

  /** `play_turn` without the save-file write: the current player's text
      joins the log, stamped with the time since the turn began. */
  function PlayTurn(g: Game, text: string, now: int): (r: Game)
    requires g.current.Some?
    ensures |r.messages| == |g.messages| + 1
    ensures r.messages[..|g.messages|] == g.messages
    ensures r.messages[|g.messages|] == Message(g.current.value, text, now - g.lastTime)
    ensures r == g.(messages := r.messages)
  {
    g.(messages := g.messages + [Message(g.current.value, text, now - g.lastTime)])
  }

  /** The sequencer has handed out the last pair of its pass, so the next
      draw swaps the passes and yields no pair. */
  predicate AtPassEnd(g: Game) {
    |g.players| >= 2 && g.playlist.ui >= |g.playlist.u1|
  }

  /** `next_turn`: clear the three notification flags and draw the next
      pair. When the draw returns `None` (at the end of a pass) the
      source's tuple unpacking raises, so the new pair and the new turn
      start are never stored: the model returns the state as it was at that
      moment, and no pair. */
  ghost function NextTurn(g: Game, now: int): (r: (Game, Option<Pair>))
    requires WellFormed(g) && g.status != Waiting
    ensures WellFormed(r.0)
    ensures !r.0.notifiedHalf && !r.0.notifiedThirty && !r.0.notifiedFive
    ensures r.1.None? <==> AtPassEnd(g)
    ensures r.1.Some? ==>
              && r.0.current == Some(r.1.value.current) && r.0.next == Some(r.1.value.next)
              && r.0.lastTime == now
    ensures r.1.None? ==>
              && r.0.current == g.current && r.0.next == g.next && r.0.lastTime == g.lastTime
              && !AtPassEnd(r.0)
    ensures |g.players| == 1 ==> r.1 == Some(Pair(g.players[0], g.players[0]))
    ensures (r.0.playlist, r.1) == NextPlaylistTurn(g.players, g.playlist)
    ensures r.0 == g.(notifiedHalf := false, notifiedThirty := false, notifiedFive := false,
                      current := r.0.current, next := r.0.next, lastTime := r.0.lastTime,
                      playlist := r.0.playlist)
  {
    var g1 := g.(notifiedHalf := false, notifiedThirty := false, notifiedFive := false);
    var (pl, d) := NextPlaylistTurn(g.players, g.playlist);
    var g2 := g1.(playlist := pl);
    DrawInStep(g.players, g.playlist, g.current.value, pl, d);
    if d.Some? then
      var g3 := g2.(current := Some(d.value.current), next := Some(d.value.next), lastTime := now);
      (g3, d)
    else
      assert |multiset(pl.u1)| == |multiset(g.players)|;
      (g2, None)
  }

  /** The sequencer's draw keeps the player on turn in step with it: a drawn
      pair's first player sits just before the new `U_i`; when no pair
      comes out, the passes were swapped and the player still on turn
      differs in id from the new pass's first. */
  lemma DrawInStep(ps: seq<Player>, pl: Playlist, cur: Player, pl': Playlist, d: Option<Pair>)
    requires |ps| >= 1 && DistinctIds(ps)
    requires |ps| >= 2 ==> ValidPlaylist(ps, pl) && InStep(cur, pl)
    requires (pl', d) == NextPlaylistTurn(ps, pl)
    ensures |ps| >= 2 ==> InStep(if d.Some? then d.value.current else cur, pl')
  {
    if |ps| >= 2 {
      assert |multiset(pl.u1)| == |multiset(ps)|;
      assert |multiset(pl'.u1)| == |multiset(ps)|;
    }
  }

  /** With two or more players, a turn that is handed on goes to a player
      of another account: inside a pass the neighbours of `U1` differ,
      and the first of a new pass differs from the last of the old one. */
  lemma NextTurnChangesPlayer(g: Game, now: int)
    requires WellFormed(g) && g.status != Waiting
    ensures |g.players| >= 2 && !AtPassEnd(g) ==> NextTurn(g, now).1.Some?
    ensures |g.players| >= 2 && !AtPassEnd(g) ==>
              NextTurn(g, now).0.current.value.id != g.current.value.id
  {
    if |g.players| >= 2 && !AtPassEnd(g) {
      var pl := g.playlist;
      PermKeepsDistinctIds(pl.u1, g.players);
      if pl.ui >= 1 {
        assert pl.u1[pl.ui - 1].id != pl.u1[pl.ui].id;
      }
    }
  }

  /** `end`. */
  function End(g: Game): (r: Game)
    ensures r.status == Ended && r == g.(status := Ended)
    ensures WellFormed(g) && g.status != Waiting ==> WellFormed(r)
    ensures Rank(g.status) <= Rank(r.status)
  {
    g.(status := Ended)
  }

  /** `timed_out`: one more timeout for the current player's username,
      counted in a new entry the first time. */
  function TimedOut(g: Game): (r: Game)
    requires g.current.Some? && DistinctKeys(g.timeouts)
    ensures DistinctKeys(r.timeouts)
    ensures Get(r.timeouts, g.current.value.username) == Get(g.timeouts, g.current.value.username) + 1
    ensures forall u :: u != g.current.value.username ==> Get(r.timeouts, u) == Get(g.timeouts, u)
    ensures r == g.(timeouts := r.timeouts)
  {
    g.(timeouts := Bump(g.timeouts, g.current.value.username, 1))
  }
}
