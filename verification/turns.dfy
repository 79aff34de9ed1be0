/**
 The turn sequencer of a game (the `init_playlist` / `next_playlist_turn`
 pair of game.py). It keeps two shuffled passes over the players, `u1` (the
 pass being played) and `u2` (the next one), and a cursor `ui` into `u1`,
 and hands out (current, next) pairs. `random.shuffle` followed by the
 "shuffle again until the pass boundary is acceptable" loop is modelled as a
 choice of any permutation the loop would accept.
 */
module Turns {
  import opened Wrappers

  /** A Telegram user who joined the game. */
  datatype Player = Player(username: string, id: int)

  /** Who writes now, and who should get ready. */
  datatype Pair = Pair(current: Player, next: Player)

  /** `U1`, `U2` and `U_i`. Before the first shuffle, and for ever in a game
      with a single player, the source holds `None` in `U1` and `U2`; the
      model holds the empty sequence there. */
  datatype Playlist = Playlist(u1: seq<Player>, u2: seq<Player>, ui: nat)

  const Unshuffled := Playlist([], [], 0)

  predicate DistinctIds(ps: seq<Player>) {
    forall i, j :: 0 <= i < j < |ps| ==> ps[i].id != ps[j].id
  }

  predicate IsPerm(u: seq<Player>, ps: seq<Player>) {
    multiset(u) == multiset(ps)
  }

  /** The test the retry loop applies where a pass `pre` is followed by the
      pass `u`: the last player of `pre` does not start `u` (no "AA"), and,
      from three players on, neither the last of `pre` opens `u` second nor
      the second-to-last of `pre` opens it first (no "ABA"). */
  predicate BoundaryOk(pre: seq<Player>, u: seq<Player>) {
    && |pre| >= 2 && |u| >= 2
    && pre[|pre| - 1].id != u[0].id
    && (|u| >= 3 ==> pre[|pre| - 1].id != u[1].id && pre[|pre| - 2].id != u[0].id)
  }

  /** The retry loop's exit condition for a freshly shuffled `u2`. */
  predicate Accepts(u1: seq<Player>, u2: seq<Player>) {
    |u1| == |u2| && BoundaryOk(u1, u2)
  }

  /** The sequencer state of a started game with at least two players. */
  predicate ValidPlaylist(ps: seq<Player>, pl: Playlist) {
    IsPerm(pl.u1, ps) && IsPerm(pl.u2, ps) && Accepts(pl.u1, pl.u2)
  }

  /** Consecutive players never share an id ("no AA"). */
  ghost predicate NoAA(h: seq<Player>) {
    forall i, j :: 0 <= i < j < |h| && j == i + 1 ==> h[i].id != h[j].id
  }

  /** Players two apart never share an id ("no ABA"). */
  ghost predicate NoABA(h: seq<Player>) {
    forall i, j :: 0 <= i < j < |h| && j == i + 2 ==> h[i].id != h[j].id
  }

  /** A value occurs at most once in a sequence whose ids are distinct. */
  lemma {:induction false} DistinctIdsAtMostOnce(ps: seq<Player>, x: Player)
    requires DistinctIds(ps)
    ensures multiset(ps)[x] <= 1
  {
    if |ps| > 0 {
      var last := ps[|ps| - 1];
      var init := ps[..|ps| - 1];
      assert ps == init + [last];
      assert DistinctIds(init);
      DistinctIdsAtMostOnce(init, x);
      if x == last {
        forall k | 0 <= k < |init| ensures init[k] != x {
          assert ps[k].id != ps[|ps| - 1].id;
        }
      }
    }
  }

  /** Two positions holding the same value count twice in the multiset. */
  lemma TwoPositionsCountTwice(u: seq<Player>, i: nat, j: nat)
    requires i < j < |u| && u[i] == u[j]
    ensures multiset(u)[u[i]] >= 2
  {
    assert u == u[..j] + [u[j]] + u[j + 1..];
    assert u[i] in u[..j];
  }

  /** Every player of a shuffled pass is one of the players. */
  lemma PermMembers(u: seq<Player>, ps: seq<Player>)
    requires IsPerm(u, ps)
    ensures forall i :: 0 <= i < |u| ==> u[i] in ps
  {
    forall i | 0 <= i < |u| ensures u[i] in ps {
      assert u[i] in multiset(u);
    }
  }

  /** Shuffling keeps ids distinct. */
  lemma PermKeepsDistinctIds(u: seq<Player>, ps: seq<Player>)
    requires IsPerm(u, ps) && DistinctIds(ps)
    ensures DistinctIds(u)
  {
    forall i, j | 0 <= i < j < |u| ensures u[i].id != u[j].id {
      assert u[i] in multiset(ps) && u[j] in multiset(ps);
      if u[i] == u[j] {
        TwoPositionsCountTwice(u, i, j);
        DistinctIdsAtMostOnce(ps, u[i]);
      } else {
        var k :| 0 <= k < |ps| && ps[k] == u[i];
        var l :| 0 <= l < |ps| && ps[l] == u[j];
        if k < l {
          assert ps[k].id != ps[l].id;
        } else {
          assert ps[l].id != ps[k].id;
        }
      }
    }
  }

  /** With two or more players of distinct ids, the retry loop always has a
      permutation to stop at: the current pass itself, read again from its
      start, passes the test. */
  lemma AcceptableExists(u1: seq<Player>, ps: seq<Player>)
    requires |ps| >= 2 && DistinctIds(ps) && IsPerm(u1, ps)
    ensures exists u2 :: IsPerm(u2, ps) && Accepts(u1, u2)
  {
    PermKeepsDistinctIds(u1, ps);
    assert |multiset(u1)| == |multiset(ps)|;
    var n := |u1|;
    assert u1[0].id != u1[n - 1].id;
    if n >= 3 {
      assert u1[0].id != u1[n - 2].id;
      assert u1[1].id != u1[n - 1].id;
    }
    assert Accepts(u1, u1);
  }

  /** `random.shuffle(U2)` repeated until the boundary after `u1` passes the
      test: some permutation of the players that the loop accepts. */
  ghost function Reshuffle(u1: seq<Player>, ps: seq<Player>): (u2: seq<Player>)
    requires |ps| >= 2 && DistinctIds(ps) && IsPerm(u1, ps)
    ensures IsPerm(u2, ps) && Accepts(u1, u2)
  {
    AcceptableExists(u1, ps);
    var u2 :| IsPerm(u2, ps) && Accepts(u1, u2); u2
  }

  /** `init_playlist`: with one player nothing happens; otherwise `U1` is any
      permutation of the players and `U2` an accepted one. `U_i` is left as
      it is. */
  ghost function InitPlaylist(ps: seq<Player>, pl: Playlist): (r: Playlist)
    requires |ps| >= 1 && DistinctIds(ps)
    ensures |ps| == 1 ==> r == pl
    ensures |ps| >= 2 ==> ValidPlaylist(ps, r) && r.ui == pl.ui
  {
    if |ps| == 1 then pl
    else
      assert IsPerm(ps, ps);
      var u1 :| IsPerm(u1, ps);
      Playlist(u1, Reshuffle(u1, ps), pl.ui)
  }

  /** `next_playlist_turn`. Inside a pass it hands out neighbouring players
      of `U1`; the last pair of a pass joins the end of `U1` to the start of
      `U2`. The call after that swaps the passes, draws a new `U2`, resets
      `U_i` and returns no pair at all (the source falls off the end of the
      method and returns `None`). */
  ghost function NextPlaylistTurn(ps: seq<Player>, pl: Playlist): (r: (Playlist, Option<Pair>))
    requires |ps| >= 1 && DistinctIds(ps)
    requires |ps| >= 2 ==> ValidPlaylist(ps, pl)
    ensures |ps| == 1 ==> r == (pl, Some(Pair(ps[0], ps[0])))
    ensures |ps| >= 2 ==> ValidPlaylist(ps, r.0)
    ensures |ps| >= 2 && pl.ui + 1 < |pl.u1| ==>
              r == (pl.(ui := pl.ui + 1), Some(Pair(pl.u1[pl.ui], pl.u1[pl.ui + 1])))
    ensures |ps| >= 2 && pl.ui + 1 == |pl.u1| ==>
              r == (pl.(ui := |pl.u1|), Some(Pair(pl.u1[|pl.u1| - 1], pl.u2[0])))
    ensures |ps| >= 2 && pl.ui >= |pl.u1| ==>
              r.1 == None && r.0.u1 == pl.u2 && r.0.ui == 0
    ensures r.1.Some? ==> r.1.value.current in ps && r.1.value.next in ps
  {
    if |ps| == 1 then (pl, Some(Pair(ps[0], ps[0])))
    else NextPlaylistTurnWith(ps, pl, Reshuffle(pl.u2, ps))
  }

  /** `next_playlist_turn` with two or more players, when the retry loop
      would stop at `drawn`: `drawn` becomes the new `U2` if this call
      swaps the passes, and is not looked at otherwise. */
  function NextPlaylistTurnWith(ps: seq<Player>, pl: Playlist, drawn: seq<Player>): (r: (Playlist, Option<Pair>))
    requires |ps| >= 2 && ValidPlaylist(ps, pl)
    requires IsPerm(drawn, ps) && Accepts(pl.u2, drawn)
    ensures ValidPlaylist(ps, r.0)
    ensures pl.ui + 1 < |pl.u1| ==>
              r == (pl.(ui := pl.ui + 1), Some(Pair(pl.u1[pl.ui], pl.u1[pl.ui + 1])))
    ensures pl.ui + 1 == |pl.u1| ==>
              r == (pl.(ui := |pl.u1|), Some(Pair(pl.u1[|pl.u1| - 1], pl.u2[0])))
    ensures pl.ui >= |pl.u1| ==> r == (Playlist(pl.u2, drawn, 0), None)
    ensures r.1.Some? ==> r.1.value.current in ps && r.1.value.next in ps
  {
    PermMembers(pl.u1, ps);
    PermMembers(pl.u2, ps);
    if pl.ui < |pl.u1| then
      if pl.ui < |pl.u1| - 1 then
        (pl.(ui := pl.ui + 1), Some(Pair(pl.u1[pl.ui], pl.u1[pl.ui + 1])))
      else
        (pl.(ui := pl.ui + 1), Some(Pair(pl.u1[|pl.u1| - 1], pl.u2[0])))
    else
      (Playlist(pl.u2, drawn, 0), None)
  }

  /** `next_playlist_turn` as its callers expect it: the call at the end
      of a pass swaps the passes, draws a new `U2` and hands out the first
      pair of the new pass, so every call yields a pair. */
  ghost function NextPlaylistTurnIntended(ps: seq<Player>, pl: Playlist): (r: (Playlist, Pair))
    requires |ps| >= 1 && DistinctIds(ps)
    requires |ps| >= 2 ==> ValidPlaylist(ps, pl)
    ensures |ps| == 1 ==> r == (pl, Pair(ps[0], ps[0]))
    ensures |ps| >= 2 ==> ValidPlaylist(ps, r.0)
    ensures |ps| >= 2 && pl.ui < |pl.u1| ==> (r.0, Some(r.1)) == NextPlaylistTurn(ps, pl)
    ensures |ps| >= 2 && pl.ui >= |pl.u1| ==>
              r.0.u1 == pl.u2 && r.0.ui == 1 && r.1 == Pair(pl.u2[0], pl.u2[1])
    ensures r.1.current in ps && r.1.next in ps
  {
    var (pl', d) := NextPlaylistTurn(ps, pl);
    if d.Some? then (pl', d.value)
    else
      assert |multiset(pl'.u1)| == |multiset(ps)|;
      var (pl'', d') := NextPlaylistTurn(ps, pl');
      (pl'', d'.value)
  }

  /** The state after `k` calls of the corrected draw, and the current
      players it handed out, one per call. */
  ghost function DriveIntended(ps: seq<Player>, pl: Playlist, k: nat): (r: (Playlist, seq<Player>))
    requires |ps| >= 1 && DistinctIds(ps)
    requires |ps| >= 2 ==> ValidPlaylist(ps, pl)
    ensures |ps| >= 2 ==> ValidPlaylist(ps, r.0)
    ensures |r.1| == k
  {
    if k == 0 then (pl, [])
    else
      var (pl', h) := DriveIntended(ps, pl, k - 1);
      var (pl'', d) := NextPlaylistTurnIntended(ps, pl');
      (pl'', h + [d.current])
  }

  /** The corrected draw keeps the history invariant: it is one or two
      calls of the source's draw, of which only the one yielding a pair
      adds to the stream. */
  lemma {:induction false} IntendedStepKeepsHistory(ps: seq<Player>, pl: Playlist, h: seq<Player>)
    requires |ps| >= 2 && DistinctIds(ps) && ValidPlaylist(ps, pl) && History(ps, pl, h)
    ensures var (pl', d) := NextPlaylistTurnIntended(ps, pl);
            History(ps, pl', h + [d.current])
  {
    StepKeepsHistory(ps, pl, h);
    var (pl', d) := NextPlaylistTurn(ps, pl);
    if d.None? {
      StepKeepsHistory(ps, pl', h);
    }
  }

  lemma {:induction false} DriveIntendedKeepsHistory(ps: seq<Player>, pl: Playlist, k: nat)
    requires |ps| >= 2 && DistinctIds(ps) && ValidPlaylist(ps, pl) && pl.ui == 0
    ensures History(ps, DriveIntended(ps, pl, k).0, DriveIntended(ps, pl, k).1)
  {
    if k == 0 {
      HistoryStart(ps, pl);
    } else {
      DriveIntendedKeepsHistory(ps, pl, k - 1);
      DriveIntendedStep(ps, pl, k);
    }
  }

  lemma DriveIntendedStep(ps: seq<Player>, pl: Playlist, k: nat)
    requires |ps| >= 2 && DistinctIds(ps) && ValidPlaylist(ps, pl) && k > 0
    requires History(ps, DriveIntended(ps, pl, k - 1).0, DriveIntended(ps, pl, k - 1).1)
    ensures History(ps, DriveIntended(ps, pl, k).0, DriveIntended(ps, pl, k).1)
  {
    var r := DriveIntended(ps, pl, k - 1);
    IntendedStepKeepsHistory(ps, r.0, r.1);
  }

  /** With the corrected draw, the turn order of a game never gives a
      player two turns in a row, and from three players on never an A, B,
      A window. */
  lemma {:induction false} IntendedStreamAvoidsRepeats(ps: seq<Player>, pl: Playlist, k: nat)
    requires |ps| >= 2 && DistinctIds(ps) && ValidPlaylist(ps, pl) && pl.ui == 0
    ensures NoAA(DriveIntended(ps, pl, k).1)
    ensures |ps| >= 3 ==> NoABA(DriveIntended(ps, pl, k).1)
  {
    DriveIntendedKeepsHistory(ps, pl, k);
  }

  /** With a single player every call hands out that player twice, and the
      playlist never changes. */
  lemma SoloAlwaysSelf(ps: seq<Player>, pl: Playlist, k: nat)
    requires |ps| == 1
    ensures Drive(ps, pl, k) == (pl, Repeat(ps[0], k))
  {
    if k > 0 {
      SoloAlwaysSelf(ps, pl, k - 1);
    }
  }

  /** `k` copies of `x`. */
  ghost function Repeat(x: Player, k: nat): (r: seq<Player>)
    ensures |r| == k && forall i :: 0 <= i < k ==> r[i] == x
  {
    if k == 0 then [] else Repeat(x, k - 1) + [x]
  }

  /** The state after `k` calls of `next_playlist_turn`, and the current
      players of the pairs those calls handed out, in order (a call that
      returned no pair adds nothing). */
  ghost function Drive(ps: seq<Player>, pl: Playlist, k: nat): (r: (Playlist, seq<Player>))
    requires |ps| >= 1 && DistinctIds(ps)
    requires |ps| >= 2 ==> ValidPlaylist(ps, pl)
    ensures |ps| >= 2 ==> ValidPlaylist(ps, r.0)
    ensures |r.1| <= k
  {
    if k == 0 then (pl, [])
    else
      var (pl', h) := Drive(ps, pl, k - 1);
      var (pl'', d) := NextPlaylistTurn(ps, pl');
      (pl'', if d.Some? then h + [d.value.current] else h)
  }

  /** What the stream of current players so far says about the playlist:
      it ends with the first `ui` players of `u1`; what came before ends a
      pass that `u1` was accepted after; and no "AA" (nor, from three
      players on, "ABA") has appeared. */
  ghost predicate History(ps: seq<Player>, pl: Playlist, h: seq<Player>) {
    InPass(pl, h) && Clean(ps, h)
  }

  /** The stream ends with the first `ui` players of `u1`, after a pass
      that `u1` was accepted after. */
  ghost predicate InPass(pl: Playlist, h: seq<Player>) {
    && pl.ui <= |pl.u1| <= |h| + |pl.u1|
    && pl.ui <= |h|
    && h[|h| - pl.ui..] == pl.u1[..pl.ui]
    && (|h| > pl.ui ==> BoundaryOk(h[..|h| - pl.ui], pl.u1))
  }

  ghost predicate Clean(ps: seq<Player>, h: seq<Player>) {
    NoAA(h) && (|ps| >= 3 ==> NoABA(h))
  }

  lemma AppendKeepsNoAA(h: seq<Player>, x: Player)
    requires NoAA(h) && (|h| > 0 ==> h[|h| - 1].id != x.id)
    ensures NoAA(h + [x])
  {
    var h' := h + [x];
    forall a, b | 0 <= a < b < |h'| && b == a + 1 ensures h'[a].id != h'[b].id {
      if b < |h| {
        assert h'[a] == h[a] && h'[b] == h[b];
      }
    }
  }

  lemma AppendKeepsNoABA(h: seq<Player>, x: Player)
    requires NoABA(h) && (|h| > 1 ==> h[|h| - 2].id != x.id)
    ensures NoABA(h + [x])
  {
    var h' := h + [x];
    forall a, b | 0 <= a < b < |h'| && b == a + 2 ensures h'[a].id != h'[b].id {
      if b < |h| {
        assert h'[a] == h[a] && h'[b] == h[b];
      }
    }
  }

  /** A call inside a pass hands out `u1[ui]`, which differs from the one
      or two players handed out just before it. */
  lemma {:induction false} InPassStepKeepsHistory(ps: seq<Player>, pl: Playlist, h: seq<Player>)
    requires |pl.u1| == |ps| >= 2 && DistinctIds(pl.u1) && History(ps, pl, h)
    requires pl.ui < |pl.u1|
    ensures History(ps, pl.(ui := pl.ui + 1), h + [pl.u1[pl.ui]])
  {
    var u1, i := pl.u1, pl.ui;
    var x := u1[i];
    var h' := h + [x];
    assert h'[|h'| - (i + 1)..] == u1[..i + 1] by {
      assert h'[|h'| - (i + 1)..] == h[|h| - i..] + [x];
      assert u1[..i + 1] == u1[..i] + [x];
    }
    var pre := h[..|h| - i];
    assert h'[..|h'| - (i + 1)] == pre;
    if |h| > 0 {
      if i > 0 {
        assert h[|h| - 1] == h[|h| - i..][i - 1] == u1[i - 1];
      } else {
        assert h[|h| - 1] == pre[|pre| - 1];
      }
    }
    AppendKeepsNoAA(h, x);
    if |ps| >= 3 {
      if |h| > 1 {
        if i > 1 {
          assert h[|h| - 2] == h[|h| - i..][i - 2] == u1[i - 2];
        } else if i == 1 {
          assert h[|h| - 2] == pre[|pre| - 1];
        } else {
          assert h[|h| - 2] == pre[|pre| - 2];
        }
      }
      AppendKeepsNoABA(h, x);
    }
  }

  /** A freshly drawn playlist, before anyone has had a turn. */
  lemma HistoryStart(ps: seq<Player>, pl: Playlist)
    requires |ps| >= 2 && ValidPlaylist(ps, pl) && pl.ui == 0
    ensures History(ps, pl, [])
  {
    assert |multiset(pl.u1)| == |multiset(ps)|;
  }

  /** The call at the end of a pass hands out nothing; the pass just
      finished is what the new `u1` was accepted after. */
  lemma {:induction false} SwapStepKeepsHistory(ps: seq<Player>, pl: Playlist, h: seq<Player>, u2: seq<Player>)
    requires |pl.u1| == |pl.u2| == |u2| == |ps| >= 2 && Accepts(pl.u1, pl.u2) && History(ps, pl, h)
    requires pl.ui >= |pl.u1|
    ensures History(ps, Playlist(pl.u2, u2, 0), h)
  {
    var u1, n := pl.u1, |pl.u1|;
    assert pl.ui == n;
    assert h[|h| - n..] == u1;
    assert h[|h| - 1] == u1[n - 1];
    assert h[|h| - 2] == u1[n - 2];
    assert BoundaryOk(h, pl.u2);
    assert h[..|h| - 0] == h;
    assert h[|h| - 0..] == [] == pl.u2[..0];
  }

  /** One call of `next_playlist_turn` keeps the history invariant,
      whichever accepted permutation its retry loop stops at. */
  lemma {:induction false} StepWithKeepsHistory(ps: seq<Player>, pl: Playlist, h: seq<Player>, drawn: seq<Player>)
    requires |ps| >= 2 && DistinctIds(ps) && ValidPlaylist(ps, pl) && History(ps, pl, h)
    requires IsPerm(drawn, ps) && Accepts(pl.u2, drawn)
    ensures var (pl', d) := NextPlaylistTurnWith(ps, pl, drawn);
            History(ps, pl', if d.Some? then h + [d.value.current] else h)
  {
    assert |multiset(pl.u1)| == |multiset(ps)|;
    assert |multiset(pl.u2)| == |multiset(ps)|;
    if pl.ui < |pl.u1| {
      PermKeepsDistinctIds(pl.u1, ps);
      InPassStepKeepsHistory(ps, pl, h);
    } else {
      assert |multiset(drawn)| == |multiset(ps)|;
      SwapStepKeepsHistory(ps, pl, h, drawn);
    }
  }

  lemma StepKeepsHistory(ps: seq<Player>, pl: Playlist, h: seq<Player>)
    requires |ps| >= 2 && DistinctIds(ps) && ValidPlaylist(ps, pl) && History(ps, pl, h)
    ensures var (pl', d) := NextPlaylistTurn(ps, pl);
            History(ps, pl', if d.Some? then h + [d.value.current] else h)
  {
    StepWithKeepsHistory(ps, pl, h, Reshuffle(pl.u2, ps));
  }

  /** The stream of current players handed out from a drawn playlist never
      repeats a player back to back, and from three players on never shows
      an A, B, A window. */
  lemma {:induction false} StreamAvoidsRepeats(ps: seq<Player>, pl: Playlist, k: nat)
    requires |ps| >= 2 && DistinctIds(ps) && ValidPlaylist(ps, pl) && pl.ui == 0
    ensures NoAA(Drive(ps, pl, k).1)
    ensures |ps| >= 3 ==> NoABA(Drive(ps, pl, k).1)
  {
    DriveKeepsHistory(ps, pl, k);
  }

  lemma {:induction false} DriveKeepsHistory(ps: seq<Player>, pl: Playlist, k: nat)
    requires |ps| >= 2 && DistinctIds(ps) && ValidPlaylist(ps, pl) && pl.ui == 0
    ensures History(ps, Drive(ps, pl, k).0, Drive(ps, pl, k).1)
  {
    if k == 0 {
      HistoryStart(ps, pl);
    } else {
      DriveKeepsHistory(ps, pl, k - 1);
      DriveStep(ps, pl, k);
    }
  }

  lemma DriveStep(ps: seq<Player>, pl: Playlist, k: nat)
    requires |ps| >= 2 && DistinctIds(ps) && ValidPlaylist(ps, pl) && k > 0
    requires History(ps, Drive(ps, pl, k - 1).0, Drive(ps, pl, k - 1).1)
    ensures History(ps, Drive(ps, pl, k).0, Drive(ps, pl, k).1)
  {
    var r := Drive(ps, pl, k - 1);
    StepKeepsHistory(ps, r.0, r.1);
  }

  /** `pick(i, u)` is a permutation of the players that the retry loop
      accepts after the pass `u`: where the `i`-th call of the draw stops
      its loop if that call swaps the passes. Every way the shuffles of a
      game can come out is given by some such `pick`. */
  ghost predicate Picks(ps: seq<Player>, pick: (nat, seq<Player>) -> seq<Player>) {
    forall i: nat, u: seq<Player> :: IsPerm(u, ps) ==> IsPerm(pick(i, u), ps) && Accepts(u, pick(i, u))
  }

  /** The state after `k` calls of `next_playlist_turn` whose shuffles
      came out as `pick` says, and the current players handed out. */
  ghost function DriveWith(ps: seq<Player>, pl: Playlist, k: nat, pick: (nat, seq<Player>) -> seq<Player>): (r: (Playlist, seq<Player>))
    requires |ps| >= 2 && ValidPlaylist(ps, pl) && Picks(ps, pick)
    ensures ValidPlaylist(ps, r.0)
    ensures |r.1| <= k
  {
    if k == 0 then (pl, [])
    else
      var (pl', h) := DriveWith(ps, pl, k - 1, pick);
      var (pl'', d) := NextPlaylistTurnWith(ps, pl', pick(k - 1, pl'.u2));
      (pl'', if d.Some? then h + [d.value.current] else h)
  }

  lemma {:induction false} DriveWithKeepsHistory(ps: seq<Player>, pl: Playlist, k: nat, pick: (nat, seq<Player>) -> seq<Player>)
    requires |ps| >= 2 && DistinctIds(ps) && ValidPlaylist(ps, pl) && pl.ui == 0 && Picks(ps, pick)
    ensures History(ps, DriveWith(ps, pl, k, pick).0, DriveWith(ps, pl, k, pick).1)
  {
    if k == 0 {
      HistoryStart(ps, pl);
    } else {
      DriveWithKeepsHistory(ps, pl, k - 1, pick);
      DriveWithStep(ps, pl, k, pick);
    }
  }

  lemma DriveWithStep(ps: seq<Player>, pl: Playlist, k: nat, pick: (nat, seq<Player>) -> seq<Player>)
    requires |ps| >= 2 && DistinctIds(ps) && ValidPlaylist(ps, pl) && Picks(ps, pick) && k > 0
    requires History(ps, DriveWith(ps, pl, k - 1, pick).0, DriveWith(ps, pl, k - 1, pick).1)
    ensures History(ps, DriveWith(ps, pl, k, pick).0, DriveWith(ps, pl, k, pick).1)
  {
    var (pl', h) := DriveWith(ps, pl, k - 1, pick);
    var drawn := pick(k - 1, pl'.u2);
    assert IsPerm(drawn, ps) && Accepts(pl'.u2, drawn);
    StepWithKeepsHistory(ps, pl', h, drawn);
  }

  /** However the shuffles come out, the stream of current players never
      repeats a player back to back, and from three players on never shows
      an A, B, A window. */
  lemma {:induction false} AnyShufflesAvoidRepeats(ps: seq<Player>, pl: Playlist, k: nat, pick: (nat, seq<Player>) -> seq<Player>)
    requires |ps| >= 2 && DistinctIds(ps) && ValidPlaylist(ps, pl) && pl.ui == 0 && Picks(ps, pick)
    ensures NoAA(DriveWith(ps, pl, k, pick).1)
    ensures |ps| >= 3 ==> NoABA(DriveWith(ps, pl, k, pick).1)
  {
    DriveWithKeepsHistory(ps, pl, k, pick);
  }
}
