/**
 Properties of the bot over whole conversations: how the kept game may
 change from one event to the next, what one poll of a PLAYING game does,
 and what the source's `join_game` lets through.
 */
module Lifecycle {
  import opened Wrappers
  import opened Text
  import opened Turns
  import opened Story
  import opened Session
  import opened Commands

  /** How a kept game may change: its parameters and title never, its
      status only forwards, its players only by appending and only while
      WAITING, its log only by appending, and no timeout count goes down. */
  ghost predicate Evolves(g: Game, g': Game) {
    && g'.nMessages == g.nMessages && g'.timeout == g.timeout && g'.chatId == g.chatId
    && g'.title == g.title
    && Rank(g.status) <= Rank(g'.status)
    && |g.players| <= |g'.players| && g'.players[..|g.players|] == g.players
    && (g.status != Waiting ==> g'.players == g.players)
    && |g.messages| <= |g'.messages| && g'.messages[..|g.messages|] == g.messages
    && (forall u :: Get(g.timeouts, u) <= Get(g'.timeouts, u))
  }

  lemma EvolvesTransitive(g1: Game, g2: Game, g3: Game)
    requires Evolves(g1, g2) && Evolves(g2, g3)
    ensures Evolves(g1, g3)
  {
    assert g3.players[..|g1.players|] == g3.players[..|g2.players|][..|g1.players|];
    assert g3.messages[..|g1.messages|] == g3.messages[..|g2.messages|][..|g1.messages|];
  }

  /** One poll of a PLAYING game moves it forward. */
  lemma TickEvolves(b: Bot, now: int)
    requires Valid(b) && b.game.Some? && b.game.value.status == Playing
    ensures Evolves(b.game.value, Tick(b, now).bot.game.value)
  {
    var g := b.game.value;
    if TimeIsUp(g, now) {
      ExpireEvolves(b, now);
    } else if FlushDue(b, now) {
      FlushEvolves(b, now);
    } else {
      EvolvesKeepingLog(g, Polled(b, now));
    }
  }

  lemma ExpireEvolves(b: Bot, now: int)
    requires Valid(b) && b.game.Some? && b.game.value.status == Playing
    ensures Evolves(b.game.value, Expire(b, now))
  {
    var g, g' := b.game.value, Expire(b, now);
    assert g'.players == g.players && g'.messages == g.messages;
    assert g.players[..|g.players|] == g.players && g.messages[..|g.messages|] == g.messages;
  }

  lemma FlushEvolves(b: Bot, now: int)
    requires Valid(b) && b.game.Some? && b.game.value.status == Playing
    ensures Evolves(b.game.value, Flush(b, now).0)
  {
    var g, g' := b.game.value, Flush(b, now).0;
    assert g'.players[..|g.players|] == g.players;
    assert g'.messages[..|g.messages|] == g.messages;
  }

  /** One event changes the kept game only forwards; the game disappears
      only when its creator cancels it or a poll exports it with an
      accepted title, and a game appears only through `/new`, as a WAITING
      game whose only player is the sender. */
  lemma HandleEvolves(b: Bot, e: Event, now: nat)
    requires Valid(b)
    ensures var r := Handle(b, e, now);
            && (b.game.Some? && r.bot.game.Some? ==> Evolves(b.game.value, r.bot.game.value))
            && (b.game.Some? && r.bot.game.None? ==>
                  (e.CancelCommand? && e.from.id == Creator(b.game.value).id)
                  || (e.Poll? && b.game.value.status == Ended
                      && exists s :: r.replies == [Exported(s)]))
            && (b.game.None? && r.bot.game.Some? ==>
                  && e.NewCommand? && r.bot.game.value.status == Waiting
                  && r.bot.game.value.players == [Player(e.from.username.value, e.from.id)])
  {
    if b.game.Some? {
      HandleKeeps(b, e, now);
      if e.Poll? {
        PollEvolves(b, now);
      }
    }
  }

  lemma HandleKeeps(b: Bot, e: Event, now: nat)
    requires Valid(b) && b.game.Some?
    ensures var r := Handle(b, e, now);
            r.bot.game.Some? ==> Evolves(b.game.value, r.bot.game.value)
  {
    var g, r := b.game.value, Handle(b, e, now);
    match e {
      case JoinCommand(from) =>
        assert r == JoinGame(b, from);
        JoinKeeps(b, from);
      case StartCommand(from) =>
        assert r == StartGame(b, from, now);
        StartKeeps(b, from, now);
      case SkipCommand(from) =>
        assert r == SkipTurn(b, from, now);
        SkipKeeps(b, from, now);
      case Poll =>
        assert r == GamePoll(b, now);
        PollEvolves(b, now);
      case NewCommand(from, chatId, args) =>
        assert r == NewGame(b, from, chatId, args);
        EvolvesKeepingLog(g, g);
      case CancelCommand(from) =>
        assert r == CancelGame(b, from);
        EvolvesKeepingLog(g, g);
      case PrivateText(from, text) =>
        assert r == GetStoryMessage(b, from, text, now);
        EvolvesKeepingLog(g, g);
    }
  }

  lemma JoinKeeps(b: Bot, from: Sender)
    requires Valid(b) && b.game.Some?
    ensures Evolves(b.game.value, JoinGame(b, from).bot.game.value)
  {
    var g := b.game.value;
    if JoinGame(b, from).bot.game != b.game {
      JoinEvolves(g, Player(from.username.value, from.id));
    } else {
      EvolvesKeepingLog(g, g);
    }
  }

  lemma StartKeeps(b: Bot, from: Sender, now: int)
    requires Valid(b) && b.game.Some?
    ensures Evolves(b.game.value, StartGame(b, from, now).bot.game.value)
  {
    var g := b.game.value;
    if StartGame(b, from, now).bot.game != b.game {
      EvolvesKeepingLog(g, Start(g, now));
    } else {
      EvolvesKeepingLog(g, g);
    }
  }

  lemma SkipKeeps(b: Bot, from: Sender, now: int)
    requires Valid(b) && b.game.Some?
    ensures Evolves(b.game.value, SkipTurn(b, from, now).bot.game.value)
  {
    var g := b.game.value;
    if SkipTurn(b, from, now).bot != b {
      EvolvesKeepingLog(g, NextTurn(g, now).0);
    } else {
      EvolvesKeepingLog(g, g);
    }
  }

  /** A step that leaves the players, the log and the timeouts alone moves
      the game forward as soon as its status does not go back. */
  lemma EvolvesKeepingLog(g: Game, g': Game)
    requires g'.nMessages == g.nMessages && g'.timeout == g.timeout && g'.chatId == g.chatId
    requires g'.title == g.title && Rank(g.status) <= Rank(g'.status)
    requires g'.players == g.players && g'.messages == g.messages && g'.timeouts == g.timeouts
    ensures Evolves(g, g')
  {
    assert g'.players[..|g.players|] == g.players;
    assert g'.messages[..|g.messages|] == g.messages;
  }

  lemma JoinEvolves(g: Game, p: Player)
    requires g.status == Waiting
    ensures Evolves(g, PlayerJoin(g, p))
  {
    assert g.messages[..|g.messages|] == g.messages;
  }

  /** A poll keeps the game moving forward, or exports it once its title
      is accepted. */
  lemma PollEvolves(b: Bot, now: int)
    requires Valid(b) && b.game.Some?
    ensures var r := GamePoll(b, now);
            && (r.bot.game.Some? ==> Evolves(b.game.value, r.bot.game.value))
            && (r.bot.game.None? ==>
                  b.game.value.status == Ended && exists s :: r.replies == [Exported(s)])
  {
    var g := b.game.value;
    assert g.players[..|g.players|] == g.players;
    assert g.messages[..|g.messages|] == g.messages;
    if g.status == Playing {
      TickEvolves(b, now);
    } else if g.status == Ended && |b.buffer| > 0 {
      var t := TitleStep(b);
      if t.bot.game.None? {
        assert t.replies == [Exported(g.(title := Titles.CheckTitle(b.buffer[0]).title))];
      }
    }
  }

  /** Every intermediate bot of a run still holds a game. */
  ghost predicate GameKept(b: Bot, events: seq<(Event, nat)>)
    requires Valid(b)
    decreases |events|
  {
    |events| == 0
    || (var b' := Handle(b, events[0].0, events[0].1).bot;
        b'.game.Some? && GameKept(b', events[1..]))
  }

  /** Over any run that keeps its game, the game only moves forward: the
      creator and everyone who joined stay in place, nobody joins after
      WAITING, logged messages and timeout counts are never taken back and
      the status never returns. */
  lemma {:induction false} RunEvolves(b: Bot, events: seq<(Event, nat)>)
    requires Valid(b) && b.game.Some? && GameKept(b, events)
    ensures Run(b, events).game.Some?
    ensures Evolves(b.game.value, Run(b, events).game.value)
    decreases |events|
  {
    var g := b.game.value;
    assert g.players[..|g.players|] == g.players;
    assert g.messages[..|g.messages|] == g.messages;
    if |events| > 0 {
      var b' := Handle(b, events[0].0, events[0].1).bot;
      HandleEvolves(b, events[0].0, events[0].1);
      RunEvolves(b', events[1..]);
      EvolvesTransitive(g, b'.game.value, Run(b', events[1..]).game.value);
    }
  }

  lemma WarningInReplies(w: seq<Reply>, rs: seq<Reply>, x: Reply)
    requires |w| <= |rs| && rs[..|w|] == w
    requires forall i :: |w| <= i < |rs| ==> !IsWarning(rs[i])
    requires IsWarning(x)
    ensures x in rs <==> x in w
  {
    if x in rs {
      var i :| 0 <= i < |rs| && rs[i] == x;
      assert i < |w| ==> w[i] == x;
    }
    if x in w {
      var i :| 0 <= i < |w| && w[i] == x;
      assert rs[i] == x;
    }
  }

  /** Each warning of a poll is sent exactly when its threshold has been
      passed and it has not been sent yet during this turn: half time from
      two-minute turns on, 30 seconds before the end from 30-second turns
      on, and 5 seconds before the end. */
  lemma PollWarnings(b: Bot, now: int)
    requires Valid(b) && b.game.Some? && b.game.value.status == Playing
    ensures var g, r := b.game.value, GamePoll(b, now);
            && (HalfTimeLeft(g.timeout / 2) in r.replies <==> !g.notifiedHalf && HalfDue(g, now))
            && (ThirtySecondsLeft in r.replies <==> !g.notifiedThirty && ThirtyDue(g, now))
            && (FiveSecondsLeft in r.replies <==> !g.notifiedFive && FiveDue(g, now))
            && (forall x :: x in r.replies && x.HalfTimeLeft? ==> x == HalfTimeLeft(g.timeout / 2))
  {
    var g, r := b.game.value, GamePoll(b, now);
    var w := Warnings(g, now).1;
    WarningInReplies(w, r.replies, HalfTimeLeft(g.timeout / 2));
    WarningInReplies(w, r.replies, ThirtySecondsLeft);
    WarningInReplies(w, r.replies, FiveSecondsLeft);
    forall x | x in r.replies && x.HalfTimeLeft?
      ensures x == HalfTimeLeft(g.timeout / 2)
    {
      WarningInReplies(w, r.replies, x);
    }
  }

  /** A second poll after one that neither timed out nor submitted never
      repeats a warning of the first. A time-out at the end of a pass is
      different: see `PassEndWarningsRepeat`. */
  lemma WarningOncePerTurn(b: Bot, t1: int, t2: int)
    requires Valid(b) && b.game.Some? && b.game.value.status == Playing
    requires !TimeIsUp(b.game.value, t1) && !FlushDue(b, t1)
    ensures var x := HalfTimeLeft(b.game.value.timeout / 2);
            var r1 := GamePoll(b, t1);
            var r2 := GamePoll(r1.bot, t2);
            && !(x in r1.replies && x in r2.replies)
            && !(ThirtySecondsLeft in r1.replies && ThirtySecondsLeft in r2.replies)
            && !(FiveSecondsLeft in r1.replies && FiveSecondsLeft in r2.replies)
  {
    var r1 := GamePoll(b, t1);
    PollWarnings(b, t1);
    PollWarnings(r1.bot, t2);
  }

  /** A turn whose time is up costs its player one timeout: the poll
      charges it, logs nothing, and, away from the end of a pass, starts
      the next turn at `now`, so a second poll at the same moment charges
      nobody. */
  lemma TimeoutChargedOnce(b: Bot, now: int)
    requires Valid(b) && b.game.Some? && b.game.value.status == Playing
    requires TimeIsUp(b.game.value, now) && !AtPassEnd(b.game.value)
    ensures var g, u := b.game.value, b.game.value.current.value.username;
            var r1 := GamePoll(b, now);
            var r2 := GamePoll(r1.bot, now);
            && TimeOut in r1.replies && TimeOut !in r2.replies
            && r1.bot.game.value.messages == g.messages
            && Get(r1.bot.game.value.timeouts, u) == Get(g.timeouts, u) + 1
            && r2.bot.game.Some? && r2.bot.game.value.timeouts == r1.bot.game.value.timeouts
  {
  }

  /** At the end of a pass the source's draw yields no pair, so a timed-out
      player keeps the turn and its start time: the next poll, even at the
      same moment, finds the turn still timed out and charges the same
      player again. */
  lemma PassEndTimeoutChargedTwice(b: Bot, now: int)
    requires Valid(b) && b.game.Some? && b.game.value.status == Playing
    requires TimeIsUp(b.game.value, now) && AtPassEnd(b.game.value)
    ensures var g, u := b.game.value, b.game.value.current.value.username;
            var r1 := GamePoll(b, now);
            var r2 := GamePoll(r1.bot, now);
            && r1.bot.game.value.current == g.current
            && TimeOut in r1.replies && TimeOut in r2.replies
            && r2.bot.game.Some?
            && Get(r2.bot.game.value.timeouts, u) == Get(g.timeouts, u) + 2
  {
    var g := b.game.value;
    var g1 := TimeOutStep(Warnings(g, now).0, now);
    assert GamePoll(b, now).bot == b.(game := Some(g1));
    assert g1.current == g.current && g1.lastTime == g.lastTime && g1.status == Playing;
  }

  /** The warnings are not once per turn at the end of a pass: the forced
      advance clears their flags but keeps the turn and its start time, so
      a second poll at the same moment sends the 5-second warning again,
      and when its flag was clear the first poll had already sent it. */
  lemma PassEndWarningsRepeat(b: Bot, now: int)
    requires Valid(b) && b.game.Some? && b.game.value.status == Playing
    requires TimeIsUp(b.game.value, now) && AtPassEnd(b.game.value)
    ensures var r1 := GamePoll(b, now);
            var r2 := GamePoll(r1.bot, now);
            && r1.bot.game.value.current == b.game.value.current
            && r1.bot.game.value.lastTime == b.game.value.lastTime
            && FiveSecondsLeft in r2.replies
            && (!b.game.value.notifiedFive ==> FiveSecondsLeft in r1.replies)
  {
    var g := b.game.value;
    var g1 := TimeOutStep(Warnings(g, now).0, now);
    assert GamePoll(b, now).bot == b.(game := Some(g1));
    assert g1.current == g.current && g1.lastTime == g.lastTime && !g1.notifiedFive;
    var b1 := b.(game := Some(g1));
    assert GamePoll(b1, now) == Tick(b1, now);
    var w := Warnings(g1, now).1;
    assert FiveSecondsLeft in w;
    assert Tick(b1, now).replies[..|w|] == w;
  }

  /** The same holds for `/skip` at the end of a pass: the skipping player
      keeps the turn and its start time, and only a second `/skip` passes
      the turn on, starting the next turn at that moment. */
  lemma PassEndSkipKeepsTurn(b: Bot, from: Sender, now: int)
    requires Valid(b) && b.game.Some? && b.game.value.status == Playing
    requires from.id == b.game.value.current.value.id && AtPassEnd(b.game.value)
    ensures var b1 := SkipTurn(b, from, now).bot;
            && b1.game.value.current == b.game.value.current
            && b1.game.value.lastTime == b.game.value.lastTime
            && SkipTurn(b1, from, now).bot.game.value.lastTime == now
            && SkipTurn(b1, from, now).bot.game.value.current.value.id != from.id
  {
    var b1 := SkipTurn(b, from, now).bot;
    assert b1.game.value.current == b.game.value.current && !AtPassEnd(b1.game.value);
    NextTurnChangesPlayer(b1.game.value, now);
  }

  /** Buffered fragments are submitted only once 500 ms have passed since
      the first, as one message joined by single spaces and credited to the
      current player with the time since the turn began; that message ends
      the story exactly when it is the `n_messages`-th. The player of the
      next drawn turn is then asked for the title; at the end of a pass no
      pair is drawn and nobody is asked. */
  lemma PollSubmits(b: Bot, now: int)
    requires Valid(b) && b.game.Some? && b.game.value.status == Playing
    requires !TimeIsUp(b.game.value, now)
    ensures var g, r := b.game.value, GamePoll(b, now);
            var g' := r.bot.game.value;
            && (|g'.messages| == |g.messages| + 1 <==> FlushDue(b, now))
            && (!FlushDue(b, now) ==> g'.messages == g.messages && r.bot.buffer == b.buffer)
            && (FlushDue(b, now) ==>
                  && g'.messages == g.messages + [Message(g.current.value, Join(b.buffer, " "), now - g.lastTime)]
                  && r.bot.buffer == [] && Registered(|g.messages| + 1) in r.replies
                  && (g'.status == Ended <==> |g.messages| + 1 == g.nMessages))
  {
    if FlushDue(b, now) {
      PollFlushes(b, now);
    } else {
      PollHolds(b, now);
    }
  }

  lemma PollFlushes(b: Bot, now: int)
    requires Valid(b) && b.game.Some? && b.game.value.status == Playing
    requires !TimeIsUp(b.game.value, now) && FlushDue(b, now)
    ensures var g, r := b.game.value, GamePoll(b, now);
            var g' := r.bot.game.value;
            && g'.messages == g.messages + [Message(g.current.value, Join(b.buffer, " "), now - g.lastTime)]
            && r.bot.buffer == [] && Registered(|g.messages| + 1) in r.replies
            && (g'.status == Ended <==> |g.messages| + 1 == g.nMessages)
  {
    FlushLogs(b, now);
    FlushEnds(b, now);
    FlushAnswers(b, now);
  }

  lemma FlushLogs(b: Bot, now: int)
    requires Valid(b) && b.game.Some? && b.game.value.status == Playing
    requires !TimeIsUp(b.game.value, now) && FlushDue(b, now)
    ensures var g, g' := b.game.value, GamePoll(b, now).bot.game.value;
            g'.messages == g.messages + [Message(g.current.value, Join(b.buffer, " "), now - g.lastTime)]
  {
    var f := Flush(b, now).0;
    assert f.messages == b.game.value.messages
      + [Message(b.game.value.current.value, Join(b.buffer, " "), now - b.game.value.lastTime)];
    assert GamePoll(b, now) == Tick(b, now);
  }

  lemma FlushEnds(b: Bot, now: int)
    requires Valid(b) && b.game.Some? && b.game.value.status == Playing
    requires !TimeIsUp(b.game.value, now) && FlushDue(b, now)
    ensures var g, g' := b.game.value, GamePoll(b, now).bot.game.value;
            g'.status == Ended <==> |g.messages| + 1 == g.nMessages
  {
    assert GamePoll(b, now) == Tick(b, now);
  }

  lemma FlushAnswers(b: Bot, now: int)
    requires Valid(b) && b.game.Some? && b.game.value.status == Playing
    requires !TimeIsUp(b.game.value, now) && FlushDue(b, now)
    ensures var r := GamePoll(b, now);
            r.bot.buffer == [] && Registered(|b.game.value.messages| + 1) in r.replies
  {
    assert GamePoll(b, now) == Tick(b, now);
  }

  lemma PollHolds(b: Bot, now: int)
    requires Valid(b) && b.game.Some? && b.game.value.status == Playing
    requires !TimeIsUp(b.game.value, now) && !FlushDue(b, now)
    ensures var g, r := b.game.value, GamePoll(b, now);
            r.bot.game.value.messages == g.messages && r.bot.buffer == b.buffer
  {
    assert GamePoll(b, now) == Tick(b, now);
  }

  /** When the story's last message is submitted, the title is requested
      from the player of the extra pair drawn, unless the pass has just
      ended: then no pair comes out and nobody is asked. */
  lemma LastMessageAsksForTitle(b: Bot, now: int)
    requires Valid(b) && b.game.Some? && b.game.value.status == Playing
    requires !TimeIsUp(b.game.value, now) && FlushDue(b, now)
    requires |b.game.value.messages| + 1 == b.game.value.nMessages
    ensures var r := GamePoll(b, now);
            && r.bot.game.value.status == Ended
            && (!AtPassEnd(b.game.value) ==> TitleRequest(r.bot.game.value.current.value) in r.replies)
            && (AtPassEnd(b.game.value) ==> forall p :: TitleRequest(p) !in r.replies)
    ensures var g, r := b.game.value, GamePoll(b, now);
            var d := NextPlaylistTurn(g.players, g.playlist);
            !AtPassEnd(g) ==> && d.1.Some?
                              && r.bot.game.value.current == Some(d.1.value.current)
                              && TitleRequest(d.1.value.current) in r.replies
  {
    var g := b.game.value;
    var (g3, w) := Warnings(g, now);
    var (g4, notes) := Submit(g3, Join(b.buffer, " "), now);
    var r := GamePoll(b, now);
    assert r.replies == w + notes;
    if !AtPassEnd(g) {
      assert r.replies[|w| + 1] == notes[1];
    } else {
      forall p ensures TitleRequest(p) !in r.replies {
        WarningOrRegistered(w, notes, r.replies, TitleRequest(p));
      }
    }
  }

  /** A poll that forces the turn on or submits the buffered fragments
      hands the turn to the player the sequencer draws; with two or more
      players and the pass going on, that is a player of another account. */
  lemma PollPassesTurn(b: Bot, now: int)
    requires Valid(b) && b.game.Some? && b.game.value.status == Playing
    requires TimeIsUp(b.game.value, now) || FlushDue(b, now)
    requires |b.game.value.players| >= 2 && !AtPassEnd(b.game.value)
    ensures var g, g' := b.game.value, GamePoll(b, now).bot.game.value;
            var d := NextPlaylistTurn(g.players, g.playlist);
            && d.1.Some? && g'.current == Some(d.1.value.current)
            && g'.current.value.id != g.current.value.id
  {
    assert GamePoll(b, now) == Tick(b, now);
    if TimeIsUp(b.game.value, now) {
      ExpireHandsOn(b, now);
    } else {
      FlushHandsOn(b, now);
    }
  }

  lemma WarningOrRegistered(w: seq<Reply>, notes: seq<Reply>, rs: seq<Reply>, x: Reply)
    requires rs == w + notes && |notes| == 1 && notes[0].Registered?
    requires forall y :: y in w ==> IsWarning(y)
    requires x.TitleRequest?
    ensures x !in rs
  {
  }

  /** As written, `join_game` lets a Telegram account join a second time
      under another username. With two players sharing one id no pair of
      passes passes the boundary test, so the retry loop of `init_playlist`
      can never stop once the game starts. */
  lemma AsWrittenJoinAdmitsDuplicateId()
    ensures var b1 := NewGame(Initial, Sender(Some("alice"), 7), -100, Some((10, 60))).bot;
            var b2 := JoinGameAsWritten(b1, Sender(Some("alicia"), 7)).bot;
            && b2.game.Some? && b2.game.value.players == [Player("alice", 7), Player("alicia", 7)]
            && !DistinctIds(b2.game.value.players)
            && forall u1, u2 :: IsPerm(u1, b2.game.value.players) && IsPerm(u2, b2.game.value.players)
                                ==> !Accepts(u1, u2)
  {
    var b1 := NewGame(Initial, Sender(Some("alice"), 7), -100, Some((10, 60))).bot;
    assert b1.game.value.players == [Player("alice", 7)];
    SecondUsername(b1);
    var ps := [Player("alice", 7), Player("alicia", 7)];
    SharedIdNeverAccepted(ps, 7);
  }

  /** "alicia" is not among the usernames of a game whose only player is
      alice, so the username-only check lets the same account in again. */
  lemma SecondUsername(b1: Bot)
    requires b1.game.Some? && b1.game.value.players == [Player("alice", 7)]
    requires b1.game.value.status == Waiting
    ensures JoinGameAsWritten(b1, Sender(Some("alicia"), 7)).bot.game.value.players
            == [Player("alice", 7), Player("alicia", 7)]
  {
    assert Usernames(b1.game.value.players) == ["alice"];
    assert "alicia" != "alice";
  }

  /** When every player has the same id, every boundary between two passes
      puts that id twice in a row, so no pair of passes is accepted. */
  lemma SharedIdNeverAccepted(ps: seq<Player>, id: int)
    requires forall i :: 0 <= i < |ps| ==> ps[i].id == id
    ensures forall u1, u2 :: IsPerm(u1, ps) && IsPerm(u2, ps) ==> !Accepts(u1, u2)
  {
    forall u1: seq<Player>, u2: seq<Player> | IsPerm(u1, ps) && IsPerm(u2, ps) ensures !Accepts(u1, u2) {
      if |u1| >= 1 && |u2| >= 1 {
        PermMembers(u1, ps);
        PermMembers(u2, ps);
        assert u1[|u1| - 1] in ps && u2[0] in ps;
      }
    }
  }

  /** The corrected `join_game` refuses a known account, so the players
      of every game keep distinct ids and every pass has an accepted
      successor. */
  lemma JoinKeepsShuffleFinite(b: Bot, from: Sender)
    requires Valid(b)
    ensures var b' := JoinGame(b, from).bot;
            b'.game.Some? && |b'.game.value.players| >= 2 ==>
              forall u1 :: IsPerm(u1, b'.game.value.players) ==>
                exists u2 :: IsPerm(u2, b'.game.value.players) && Accepts(u1, u2)
  {
    var b' := JoinGame(b, from).bot;
    if b'.game.Some? && |b'.game.value.players| >= 2 {
      forall u1 | IsPerm(u1, b'.game.value.players)
        ensures exists u2 :: IsPerm(u2, b'.game.value.players) && Accepts(u1, u2)
      {
        AcceptableExists(u1, b'.game.value.players);
      }
    }
  }
}
