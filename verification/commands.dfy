/**
 The command handlers and the periodic poll of main.py, without the
 Telegram calls. The module-level state of main.py (the single current
 game, the fragment buffer and the buffer's start time) is a `Bot` value;
 each handler maps it, together with the incoming message and the clock
 reading `now` in milliseconds, to the next `Bot` and the list of replies
 the bot would send. A handler that ignores a message answers with the
 unchanged state and no reply.
 */
module Commands {
  import opened Wrappers
  import opened Text
  import opened Turns
  import opened Story
  import opened Session
  import opened Titles

  /** The sender of a Telegram message; `username` is absent for accounts
      without one. */
  datatype Sender = Sender(username: Option<string>, id: int)

  /** `game`, `message_buffer` and `message_buffer_time` of main.py. */
  datatype Bot = Bot(game: Option<Game>, buffer: seq<string>, bufferTime: int)

  const Initial := Bot(None, [], -1)

  const MaxMessages := 10000
  const MinTimeout := 10
  const MaxTimeout := 7 * 24 * 60 * 60
  /** Fragments arriving this many ms after the first one are dropped. */
  const FragmentWindow := 250
  /** The buffer is submitted once this many ms have passed since the first fragment. */
  const FlushDelay := 500

  /** What the bot sends back, by kind. */
  datatype Reply =
    | NeedUsername | GameExists | Usage | BadMessageCount | BadTimeout | Created
    | AlreadyJoined | Joined
    | NotCreator | Started | Canceled | Skipped
    | HalfTimeLeft(seconds: int) | ThirtySecondsLeft | FiveSecondsLeft | TimeOut
    | Registered(count: nat) | TitleRequest(author: Player)
    | TitleTooLong | TitleRejected | Exported(story: Game)

  datatype Response = Response(bot: Bot, replies: seq<Reply>)

  /** What holds of the bot between two handler calls. */
  predicate Valid(b: Bot) {
    && (b.game.Some? ==> WellFormed(b.game.value))
    && (b.bufferTime == -1 <==> |b.buffer| == 0)
  }

  function Usernames(ps: seq<Player>): (r: seq<string>)
    ensures |r| == |ps| && forall i :: 0 <= i < |ps| ==> r[i] == ps[i].username
  {
    if |ps| == 0 then [] else [ps[0].username] + Usernames(ps[1..])
  }

  function Ids(ps: seq<Player>): (r: seq<int>)
    ensures |r| == |ps| && forall i :: 0 <= i < |ps| ==> r[i] == ps[i].id
  {
    if |ps| == 0 then [] else [ps[0].id] + Ids(ps[1..])
  }

  /** The bounds `new_game` puts on its two arguments. */
  predicate ParametersOk(nMessages: int, timeout: int) {
    1 <= nMessages <= MaxMessages && MinTimeout <= timeout <= MaxTimeout
  }

  /** `new_game`: the sender needs a username, there must be no game yet,
      and the two arguments must parse and lie within bounds; then a
      WAITING game is created whose only player is the sender. `args` is
      the result of parsing the command's two integers, absent when that
      fails. */
  function NewGame(b: Bot, from: Sender, chatId: int, args: Option<(int, int)>): (r: Response)
    requires Valid(b)
    ensures Valid(r.bot)
    ensures r.bot.buffer == b.buffer && r.bot.bufferTime == b.bufferTime
    ensures r.bot.game != b.game <==>
              from.username.Some? && b.game.None? && args.Some? && ParametersOk(args.value.0, args.value.1)
    ensures r.bot.game != b.game ==>
              var g := r.bot.game.value;
              && g.status == Waiting && g.messages == []
              && g.players == [Player(from.username.value, from.id)]
              && g.nMessages == args.value.0 && g.timeout == args.value.1 && g.chatId == chatId
              && r.replies == [Created]
    ensures from.username.None? ==> r.replies == [NeedUsername]
    ensures from.username.Some? && b.game.Some? ==> r.replies == [GameExists]
  {
    if from.username.None? then Response(b, [NeedUsername])
    else if b.game.Some? then Response(b, [GameExists])
    else if args.None? then Response(b, [Usage])
    else
      var (n, t) := args.value;
      if n <= 0 || n > MaxMessages then Response(b, [BadMessageCount])
      else if t < MinTimeout || t > MaxTimeout then Response(b, [BadTimeout])
      else
        var g := PlayerJoin(Create(n, t, chatId), Player(from.username.value, from.id));
        Response(b.(game := Some(g)), [Created])
  }

  /** `join_game` as the source writes it: only the username is checked
      against the players already in. */
  function JoinGameAsWritten(b: Bot, from: Sender): (r: Response)
    ensures r.bot.buffer == b.buffer && r.bot.bufferTime == b.bufferTime
    ensures r.bot.game != b.game <==>
              && from.username.Some? && b.game.Some? && b.game.value.status == Waiting
              && from.username.value !in Usernames(b.game.value.players)
    ensures r.bot.game != b.game ==>
              r.bot.game == Some(PlayerJoin(b.game.value, Player(from.username.value, from.id)))
  {
    if from.username.None? then Response(b, [NeedUsername])
    else if b.game.None? || b.game.value.status != Waiting then Response(b, [])
    else if from.username.value in Usernames(b.game.value.players) then Response(b, [AlreadyJoined])
    else Response(b.(game := Some(PlayerJoin(b.game.value, Player(from.username.value, from.id)))), [Joined])
  }

  /** `join_game`, refusing a Telegram account that is already in under
      another username as well as a username that is already in. Only a
      WAITING game takes players; the newcomer goes to the end of the list. */
  function JoinGame(b: Bot, from: Sender): (r: Response)
    requires Valid(b)
    ensures Valid(r.bot)
    ensures r.bot.buffer == b.buffer && r.bot.bufferTime == b.bufferTime
    ensures r.bot.game != b.game <==>
              && from.username.Some? && b.game.Some? && b.game.value.status == Waiting
              && from.username.value !in Usernames(b.game.value.players)
              && from.id !in Ids(b.game.value.players)
    ensures r.bot.game != b.game ==>
              && r.bot.game == Some(PlayerJoin(b.game.value, Player(from.username.value, from.id)))
              && r.replies == [Joined]
    ensures (from.username.Some? && b.game.Some? && b.game.value.status == Waiting
             && from.username.value in Usernames(b.game.value.players)) ==> r.replies == [AlreadyJoined]
  {
    if from.username.None? then Response(b, [NeedUsername])
    else if b.game.None? || b.game.value.status != Waiting then Response(b, [])
    else
      var g := b.game.value;
      var u := from.username.value;
      if u in Usernames(g.players) || from.id in Ids(g.players) then Response(b, [AlreadyJoined])
      else
        var p := Player(u, from.id);
        var g' := PlayerJoin(g, p);
        assert DistinctIds(g'.players) by {
          forall i | 0 <= i < |g.players| ensures g.players[i].id != from.id {
            assert Ids(g.players)[i] == g.players[i].id;
          }
        }
        assert DistinctUsernames(g'.players) by {
          forall i | 0 <= i < |g.players| ensures g.players[i].username != u {
            assert Usernames(g.players)[i] == g.players[i].username;
          }
        }
        Response(b.(game := Some(g')), [Joined])
  }

  /** `start_game`: only in WAITING, and only for the creator. */
  ghost function StartGame(b: Bot, from: Sender, now: int): (r: Response)
    requires Valid(b)
    ensures Valid(r.bot)
    ensures r.bot.buffer == b.buffer && r.bot.bufferTime == b.bufferTime
    ensures r.bot.game != b.game <==>
              b.game.Some? && b.game.value.status == Waiting && from.id == Creator(b.game.value).id
    ensures r.bot.game != b.game ==> r.bot.game == Some(Start(b.game.value, now)) && r.replies == [Started]
  {
    if b.game.None? || b.game.value.status != Waiting then Response(b, [])
    else if from.id != Creator(b.game.value).id then Response(b, [NotCreator])
    else Response(b.(game := Some(Start(b.game.value, now))), [Started])
  }

  /** `cancel_game`: in any status, only for the creator; the game is
      dropped. The fragment buffer is left as it is. */
  function CancelGame(b: Bot, from: Sender): (r: Response)
    requires Valid(b)
    ensures Valid(r.bot)
    ensures r.bot.game.None?
            <==> b.game.None? || from.id == Creator(b.game.value).id
    ensures r.bot.game.Some? ==> r.bot == b
    ensures r.bot.buffer == b.buffer && r.bot.bufferTime == b.bufferTime
  {
    if b.game.None? then Response(b, [])
    else if from.id != Creator(b.game.value).id then Response(b, [NotCreator])
    else Response(b.(game := None), [Canceled])
  }

  /** `skip_turn`: only in PLAYING and only for the current player; the
      turn advances with no message logged. The fragment buffer is left as
      it is. */
  ghost function SkipTurn(b: Bot, from: Sender, now: int): (r: Response)
    requires Valid(b)
    ensures Valid(r.bot)
    ensures r.bot.buffer == b.buffer && r.bot.bufferTime == b.bufferTime
    ensures r.bot != b ==>
              && b.game.Some? && b.game.value.status == Playing
              && from.id == b.game.value.current.value.id
              && r.bot.game == Some(NextTurn(b.game.value, now).0)
              && r.replies == [Skipped]
    ensures b.game.Some? && b.game.value.status == Playing && from.id == b.game.value.current.value.id ==>
              r.bot.game == Some(NextTurn(b.game.value, now).0)
  {
    if b.game.None? || b.game.value.status != Playing then Response(b, [])
    else if from.id != b.game.value.current.value.id then Response(b, [])
    else Response(b.(game := Some(NextTurn(b.game.value, now).0)), [Skipped])
  }

  /** `get_story_message`: a private text from the current player of a
      PLAYING or ENDED game. The first fragment starts the buffer's clock;
      a fragment is kept only while fewer than 250 ms have passed since
      then, and dropped afterwards. */
  function GetStoryMessage(b: Bot, from: Sender, text: string, now: nat): (r: Response)
    requires Valid(b)
    ensures Valid(r.bot)
    ensures r.bot.game == b.game && r.replies == []
    ensures !(b.game.Some? && b.game.value.status != Waiting && b.game.value.current.value.id == from.id)
            ==> r.bot == b
    ensures b.game.Some? && b.game.value.status != Waiting && b.game.value.current.value.id == from.id ==>
              var start := if b.bufferTime == -1 then now else b.bufferTime;
              && r.bot.bufferTime == start
              && (now < start + FragmentWindow ==> r.bot.buffer == b.buffer + [text])
              && (now >= start + FragmentWindow ==> r.bot.buffer == b.buffer)
  {
    if b.game.None? || b.game.value.status !in {Playing, Ended} then Response(b, [])
    else if b.game.value.current.value.id != from.id then Response(b, [])
    else
      var start := if b.bufferTime == -1 then now else b.bufferTime;
      if now < start + FragmentWindow then Response(Bot(b.game, b.buffer + [text], start), [])
      else Response(b.(bufferTime := start), [])
  }

  /** The half-time warning is due: only for turns of two minutes or more. */
  predicate HalfDue(g: Game, now: int) {
    g.timeout >= 120 && now - g.lastTime > g.timeout * 500
  }

  /** The 30-second warning is due: only for turns of 30 seconds or more. */
  predicate ThirtyDue(g: Game, now: int) {
    g.timeout >= 30 && now - g.lastTime > (g.timeout - 30) * 1000
  }

  predicate FiveDue(g: Game, now: int) {
    now - g.lastTime > (g.timeout - 5) * 1000
  }

  predicate TimeIsUp(g: Game, now: int) {
    now - g.lastTime >= g.timeout * 1000
  }

  /** The buffered fragments are due for submission: 500 ms have passed
      since the first one arrived. */
  predicate FlushDue(b: Bot, now: int) {
    |b.buffer| > 0 && now >= b.bufferTime + FlushDelay
  }

  predicate IsWarning(x: Reply) {
    x.HalfTimeLeft? || x.ThirtySecondsLeft? || x.FiveSecondsLeft?
  }

  /** Where a warning comes in the sequence half-time, 30 s, 5 s. */
  function WarningRank(x: Reply): nat {
    if x.HalfTimeLeft? then 0 else if x.ThirtySecondsLeft? then 1 else 2
  }

  /** The three warnings of one poll, each fired at most once per turn
      thanks to its flag, in the order half-time, 30 s, 5 s. */
  function Warnings(g: Game, now: int): (r: (Game, seq<Reply>))
    ensures r.0 == g.(notifiedHalf := r.0.notifiedHalf, notifiedThirty := r.0.notifiedThirty,
                      notifiedFive := r.0.notifiedFive)
    ensures r.0.notifiedHalf == (g.notifiedHalf || HalfDue(g, now))
    ensures r.0.notifiedThirty == (g.notifiedThirty || ThirtyDue(g, now))
    ensures r.0.notifiedFive == (g.notifiedFive || FiveDue(g, now))
    ensures HalfTimeLeft(g.timeout / 2) in r.1 <==> !g.notifiedHalf && HalfDue(g, now)
    ensures ThirtySecondsLeft in r.1 <==> !g.notifiedThirty && ThirtyDue(g, now)
    ensures FiveSecondsLeft in r.1 <==> !g.notifiedFive && FiveDue(g, now)
    ensures forall x :: x in r.1 ==> IsWarning(x)
    ensures forall x :: x in r.1 ==> x == HalfTimeLeft(g.timeout / 2) || x == ThirtySecondsLeft || x == FiveSecondsLeft
    ensures forall i, j :: 0 <= i < j < |r.1| ==> WarningRank(r.1[i]) < WarningRank(r.1[j])
    ensures |r.1| <= 3
  {
    var (g1, half) :=
      if !g.notifiedHalf && HalfDue(g, now) then (g.(notifiedHalf := true), [HalfTimeLeft(g.timeout / 2)])
      else (g, []);
    var (g2, thirty) :=
      if !g1.notifiedThirty && ThirtyDue(g1, now) then (g1.(notifiedThirty := true), [ThirtySecondsLeft])
      else (g1, []);
    var (g3, five) :=
      if !g2.notifiedFive && FiveDue(g2, now) then (g2.(notifiedFive := true), [FiveSecondsLeft])
      else (g2, []);
    (g3, half + thirty + five)
  }

  /** The forced advance of a turn whose time is up: one more timeout for
      its player, then the next turn, handed to the pair the sequencer
      draws. At the end of a pass no pair is drawn, so the same player
      keeps the turn and its start time. */
  ghost function TimeOutStep(g: Game, now: int): (r: Game)
    requires WellFormed(g) && g.status == Playing
    ensures WellFormed(r) && r.status == Playing
    ensures r.messages == g.messages && r.players == g.players
    ensures r.nMessages == g.nMessages && r.timeout == g.timeout && r.chatId == g.chatId && r.title == g.title
    ensures Get(r.timeouts, g.current.value.username) == Get(g.timeouts, g.current.value.username) + 1
    ensures forall v :: v != g.current.value.username ==> Get(r.timeouts, v) == Get(g.timeouts, v)
    ensures !AtPassEnd(g) ==> r.lastTime == now
    ensures AtPassEnd(g) ==> r.current == g.current && r.lastTime == g.lastTime && !AtPassEnd(r)
    ensures var d := NextPlaylistTurn(g.players, g.playlist);
            && r.playlist == d.0
            && (d.1.Some? ==> r.current == Some(d.1.value.current) && r.next == Some(d.1.value.next))
    ensures |g.players| >= 2 && !AtPassEnd(g) ==> r.current.value.id != g.current.value.id
  {
    var g1 := TimedOut(g);
    NextTurnChangesPlayer(g1, now);
    NextTurn(g1, now).0
  }

  /** The buffered fragments, joined by single spaces, become the current
      player's message. Reaching `n_messages` ends the story and draws one
      more pair, whose current player is asked for the title; otherwise the
      next turn begins. */
  ghost function Submit(g: Game, text: string, now: int): (r: (Game, seq<Reply>))
    requires WellFormed(g) && g.status == Playing
    ensures WellFormed(r.0) && r.0.players == g.players
    ensures r.0.messages == g.messages + [Message(g.current.value, text, now - g.lastTime)]
    ensures r.0.timeouts == g.timeouts
    ensures r.0.nMessages == g.nMessages && r.0.timeout == g.timeout && r.0.chatId == g.chatId
    ensures r.0.title == g.title
    ensures r.0.status == Ended <==> |r.0.messages| == g.nMessages
    ensures r.0.status == Playing <==> |r.0.messages| < g.nMessages
    ensures !AtPassEnd(g) ==> r.0.lastTime == now
    ensures 1 <= |r.1| <= 2 && r.1[0] == Registered(|r.0.messages|)
    ensures |r.1| == 2 <==> r.0.status == Ended && !AtPassEnd(g)
    ensures |r.1| == 2 ==> r.1[1] == TitleRequest(r.0.current.value)
    ensures forall x :: x in r.1 ==> !IsWarning(x) && x != TimeOut
    ensures var d := NextPlaylistTurn(g.players, g.playlist);
            && r.0.playlist == d.0
            && (d.1.Some? ==> r.0.current == Some(d.1.value.current) && r.0.next == Some(d.1.value.next))
            && (|r.1| == 2 ==> d.1.Some? && r.1[1] == TitleRequest(d.1.value.current))
    ensures |g.players| >= 2 && !AtPassEnd(g) ==> r.0.current.value.id != g.current.value.id
  {
    var g5 := Record(g, text, now);
    NextTurnChangesPlayer(g5, now);
    var next := NextTurn(g5, now);
    (next.0, [Registered(|g5.messages|)]
             + (if g5.status == Ended && next.1.Some? then [TitleRequest(next.1.value.current)] else []))
  }

  /** `play_turn`, followed by `end` when the log now holds `n_messages`
      messages. */
  function Record(g: Game, text: string, now: int): (r: Game)
    requires WellFormed(g) && g.status == Playing
    ensures WellFormed(r) && r.status != Waiting
    ensures r.messages == g.messages + [Message(g.current.value, text, now - g.lastTime)]
    ensures r.status == Ended <==> |r.messages| == g.nMessages
    ensures r == g.(messages := r.messages, status := r.status)
  {
    var g4 := PlayTurn(g, text, now);
    if |g4.messages| == g4.nMessages then End(g4) else g4
  }

  /** Replies that follow the warnings of a poll are no warnings, and a
      time-out is among them only if it is among those that follow. */
  lemma WarningsFirst(warnings: seq<Reply>, rest: seq<Reply>)
    requires forall x :: x in warnings ==> IsWarning(x)
    requires forall x :: x in rest ==> !IsWarning(x)
    ensures (warnings + rest)[..|warnings|] == warnings
    ensures forall i :: |warnings| <= i < |warnings + rest| ==> !IsWarning((warnings + rest)[i])
    ensures TimeOut in warnings + rest <==> TimeOut in rest
  {
    forall i | |warnings| <= i < |warnings + rest| ensures !IsWarning((warnings + rest)[i]) {
      assert (warnings + rest)[i] == rest[i - |warnings|];
    }
  }

  /** The game once this poll's warnings are recorded: the turn goes on. */
  function Polled(b: Bot, now: int): (r: Game)
    requires Valid(b) && b.game.Some? && b.game.value.status == Playing
    ensures WellFormed(r) && r.status == Playing
    ensures r.players == b.game.value.players && r.messages == b.game.value.messages
    ensures r.nMessages == b.game.value.nMessages && r.current == b.game.value.current
    ensures r.lastTime == b.game.value.lastTime && r.playlist == b.game.value.playlist
    ensures r.timeouts == b.game.value.timeouts && r.title == b.game.value.title
    ensures r.timeout == b.game.value.timeout && r.chatId == b.game.value.chatId
  {
    Warnings(b.game.value, now).0
  }

  /** The time-out branch of a poll: the turn is forced on after the warnings. */
  ghost function Expire(b: Bot, now: int): (r: Game)
    requires Valid(b) && b.game.Some? && b.game.value.status == Playing
    ensures WellFormed(r) && r.status == Playing
    ensures var g := b.game.value;
            && r.messages == g.messages && r.players == g.players
            && r.nMessages == g.nMessages && r.timeout == g.timeout && r.chatId == g.chatId && r.title == g.title
            && Get(r.timeouts, g.current.value.username) == Get(g.timeouts, g.current.value.username) + 1
            && forall v :: v != g.current.value.username ==> Get(r.timeouts, v) == Get(g.timeouts, v)
  {
    TimeOutStep(Polled(b, now), now)
  }

  /** On time-out the turn goes to the pair the sequencer draws, a player
      of another account when there are two or more players; at the end of
      a pass the same turn goes on. */
  lemma ExpireHandsOn(b: Bot, now: int)
    requires Valid(b) && b.game.Some? && b.game.value.status == Playing
    ensures var g, r := b.game.value, Expire(b, now);
            var d := NextPlaylistTurn(g.players, g.playlist);
            && r.playlist == d.0
            && (d.1.Some? ==> r.current == Some(d.1.value.current) && r.next == Some(d.1.value.next))
            && (AtPassEnd(g) ==> r.current == g.current && r.lastTime == g.lastTime)
            && (|g.players| >= 2 && !AtPassEnd(g) ==> r.current.value.id != g.current.value.id)
  {
  }

  /** The submission branch of a poll: the buffered fragments, joined by
      single spaces, are submitted after the warnings. */
  ghost function Flush(b: Bot, now: int): (r: (Game, seq<Reply>))
    requires Valid(b) && b.game.Some? && b.game.value.status == Playing
    ensures WellFormed(r.0) && r.0.status != Waiting
    ensures var g := b.game.value;
            && r.0.players == g.players
            && r.0.messages == g.messages + [Message(g.current.value, Join(b.buffer, " "), now - g.lastTime)]
            && r.0.timeouts == g.timeouts && r.0.title == g.title
            && r.0.nMessages == g.nMessages && r.0.timeout == g.timeout && r.0.chatId == g.chatId
            && (r.0.status == Ended <==> |g.messages| + 1 == g.nMessages)
    ensures |r.1| >= 1 && r.1[0] == Registered(|r.0.messages|)
    ensures forall x :: x in r.1 ==> !IsWarning(x) && x != TimeOut
  {
    Submit(Polled(b, now), Join(b.buffer, " "), now)
  }

  /** A submission hands the turn to the pair the sequencer draws, a player
      of another account when there are two or more players and the pass
      goes on; when it ends the story away from a pass end, the title is
      asked of that drawn player. */
  lemma FlushHandsOn(b: Bot, now: int)
    requires Valid(b) && b.game.Some? && b.game.value.status == Playing
    ensures var g, r := b.game.value, Flush(b, now);
            var d := NextPlaylistTurn(g.players, g.playlist);
            && r.0.playlist == d.0
            && (d.1.Some? ==> r.0.current == Some(d.1.value.current) && r.0.next == Some(d.1.value.next))
            && (|g.players| >= 2 && !AtPassEnd(g) ==> r.0.current.value.id != g.current.value.id)
            && |r.1| <= 2
            && (|r.1| == 2 <==> r.0.status == Ended && !AtPassEnd(g))
            && (|r.1| == 2 ==> d.1.Some? && r.1[1] == TitleRequest(d.1.value.current))
  {
  }

  /** The PLAYING part of `game_poll`: the due warnings, then either the
      forced advance on time-out, or the submission of the buffered
      fragments once 500 ms have passed since the first one. Time-out does
      not empty the fragment buffer. */
  ghost function Tick(b: Bot, now: int): (r: Response)
    requires Valid(b) && b.game.Some? && b.game.value.status == Playing
    ensures Valid(r.bot) && r.bot.game.Some?
    ensures var w := Warnings(b.game.value, now).1;
            && |w| <= |r.replies| && r.replies[..|w|] == w
            && forall i :: |w| <= i < |r.replies| ==> !IsWarning(r.replies[i])
    ensures TimeOut in r.replies <==> TimeIsUp(b.game.value, now)
    ensures TimeIsUp(b.game.value, now) ==>
              && r.bot.game == Some(Expire(b, now))
              && r.bot.buffer == b.buffer && r.bot.bufferTime == b.bufferTime
    ensures !TimeIsUp(b.game.value, now) && FlushDue(b, now) ==>
              && r.bot.game == Some(Flush(b, now).0)
              && r.bot.buffer == [] && r.bot.bufferTime == -1
              && r.replies == Warnings(b.game.value, now).1 + Flush(b, now).1
              && Registered(|b.game.value.messages| + 1) in r.replies
    ensures !TimeIsUp(b.game.value, now) && !FlushDue(b, now) ==>
              r == Response(b.(game := Some(Polled(b, now))), Warnings(b.game.value, now).1)
  {
    var g := b.game.value;
    var g3, warnings := Polled(b, now), Warnings(g, now).1;
    if TimeIsUp(g, now) then
      WarningsFirst(warnings, [TimeOut]);
      Response(b.(game := Some(Expire(b, now))), warnings + [TimeOut])
    else if FlushDue(b, now) then
      var sub := Flush(b, now);
      WarningsFirst(warnings, sub.1);
      assert (warnings + sub.1)[|warnings|] == sub.1[0];
      Response(Bot(Some(sub.0), [], -1), warnings + sub.1)
    else
      Response(b.(game := Some(g3)), warnings)
  }

  /** The ENDED part of `game_poll`: the first buffered text is taken as
      the title and the buffer emptied. A good title ends the game (it is
      exported and dropped); a bad one leaves the game waiting for another. */
  function TitleStep(b: Bot): (r: Response)
    requires Valid(b) && b.game.Some? && |b.buffer| > 0
    ensures Valid(r.bot)
    ensures r.bot.buffer == [] && r.bot.bufferTime == -1
    ensures r.bot.game.None? <==> CheckTitle(b.buffer[0]).Accepted?
    ensures r.bot.game.Some? ==> r.bot.game == b.game
    ensures r.bot.game.None? ==>
              r.replies == [Exported(b.game.value.(title := CheckTitle(b.buffer[0]).title))]
  {
    var cleared := Bot(b.game, [], -1);
    match CheckTitle(b.buffer[0])
    case TooLong => Response(cleared, [TitleTooLong])
    case Rejected => Response(cleared, [TitleRejected])
    case Accepted(t) => Response(cleared.(game := None), [Exported(b.game.value.(title := t))])
  }

  /** `game_poll`. In ENDED only the title is looked at; in WAITING
      nothing happens. */
  ghost function GamePoll(b: Bot, now: int): (r: Response)
    requires Valid(b)
    ensures Valid(r.bot)
    ensures b.game.None? ==> r.bot == b
    ensures b.game.Some? && b.game.value.status == Waiting ==> r.bot == b
    ensures b.game.Some? && b.game.value.status == Ended && |b.buffer| == 0 ==> r.bot == b
    ensures b.game.Some? && b.game.value.status == Ended && |b.buffer| > 0 ==> r == TitleStep(b)
    ensures b.game.Some? && b.game.value.status == Playing ==> r == Tick(b, now)
  {
    if b.game.None? then Response(b, [])
    else if b.game.value.status == Ended && |b.buffer| > 0 then TitleStep(b)
    else if b.game.value.status != Playing then Response(b, [])
    else Tick(b, now)
  }

  /** Everything that reaches the bot: the commands, a private text, and a
      poll tick. */
  datatype Event =
    | NewCommand(from: Sender, chatId: int, args: Option<(int, int)>)
    | JoinCommand(from: Sender)
    | StartCommand(from: Sender)
    | CancelCommand(from: Sender)
    | SkipCommand(from: Sender)
    | PrivateText(from: Sender, text: string)
    | Poll

  /** One event, handled at time `now`. */
  ghost function Handle(b: Bot, e: Event, now: nat): (r: Response)
    requires Valid(b)
    ensures Valid(r.bot)
  {
    match e
    case NewCommand(from, chatId, args) => NewGame(b, from, chatId, args)
    case JoinCommand(from) => JoinGame(b, from)
    case StartCommand(from) => StartGame(b, from, now)
    case CancelCommand(from) => CancelGame(b, from)
    case SkipCommand(from) => SkipTurn(b, from, now)
    case PrivateText(from, text) => GetStoryMessage(b, from, text, now)
    case Poll => GamePoll(b, now)
  }

  /** The bot after a sequence of timed events. */
  ghost function Run(b: Bot, events: seq<(Event, nat)>): (r: Bot)
    requires Valid(b)
    ensures Valid(r)
    ensures r.game.Some? ==> |r.game.value.messages| <= r.game.value.nMessages
    decreases |events|
  {
    if |events| == 0 then b else Run(Handle(b, events[0].0, events[0].1).bot, events[1..])
  }
}
