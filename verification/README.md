# Exquisite-corpse Telegram bot: a verified model of its game logic

This project models the game logic of a Telegram bot for collaborative
storytelling ("exquisite corpse", *cadavre exquis*). A player opens a game in a group chat
with `/new <messages> <timeout>`, others `/join` in private chat, and the
creator `/start`s it. Then the players take turns privately writing the next
message of a story. Each player sees only the previous message and has
`timeout` seconds per turn. A player may `/skip`. A turn that runs out of time
is charged to its player as a timeout. Once the story holds `n_messages`
messages, one more player is asked for a title, and the story is exported.

The model keeps every decision the bot takes and none of the Telegram traffic:

- `Turns`: the turn sequencer (`init_playlist`, `next_playlist_turn`). Two
  permutations of the players, `U1` and `U2`, and an index `U_i`. The
  reshuffle retry loop becomes a choice of any permutation the loop would
  accept. Its existence is proved for two or more players with distinct ids.
- `Session`: the `Game` class. Its status (WAITING, PLAYING, ENDED), players,
  notification flags, story log and per-username timeout counters, with each
  method a function from state to state. Its invariant keeps the player on
  turn in step with the sequencer: the player just before `U_i`, or, right
  after the passes were swapped, the last player of the previous pass.
- `Story`: the integer statistics of a finished story (word count, who wrote
  the most characters, who timed out most often).
- `Commands`: the command handlers and the half-second poll of `main.py`.
  The module-level state (the game, the fragment buffer and its start time)
  is a `Bot` value. Every handler maps it, with the incoming message and the
  clock reading `now` in milliseconds, to the next `Bot` and the replies.
- `Titles`: the title check and sanitiser of the poll.
- `Lifecycle`: properties over single events and whole runs.
- `TimeFormat`: `format_time` of `utils.py`.
- `Text`, `Wrappers`: whitespace splitting, joining, stripping and decimal
  rendering in Python's sense, and `Option`.

Clock readings are explicit parameters. The source compares float seconds.
The model compares integer milliseconds, so `elapsed > timeout / 2` becomes
`elapsed_ms > timeout * 500` and the 0.25 s / 0.5 s buffer windows become
250 ms and 500 ms. Python dicts iterate in insertion order and are modelled
as association lists in that order. This matters because `max(d, key=d.get)`
returns the first maximal key.

## Behaviour kept as written

- **End of a pass.** `next_playlist_turn` falls off the end after swapping
  the passes, so the call at the end of each pass returns `None`.
  `Game.next_turn` then raises while unpacking it. By then the flags are
  cleared and the playlist is advanced, but the new pair and the new turn
  start are never stored. What the bot's transport does with the exception
  is not modelled.
  - `Session.NextTurn` returns an optional pair and the state as it stands
    at that point.
  - At the end of a pass the same player keeps the turn and its start time.
  - A timed-out player is charged twice for one turn
    (`Lifecycle.PassEndTimeoutChargedTwice`).
  - A `/skip` there does not pass the turn (`Lifecycle.PassEndSkipKeepsTurn`).
  - The warnings are not once per turn there: the flags are cleared but
    the turn goes on, so the next poll sends them again
    (`Lifecycle.PassEndWarningsRepeat`).
  - If the story's last message lands there, nobody is asked for a title
    (`Lifecycle.LastMessageAsksForTitle`).
- **Corrected draw, for contrast.** `Turns.NextPlaylistTurnIntended` is the
  draw its callers expect: it hands out the first pair of the new pass in
  the same call. Only with it is the turn order free of back-to-back
  repeats (`Turns.IntendedStreamAvoidsRepeats`).
- **Fragment buffer.** The buffer is not emptied on a timeout, a skip or a
  cancel. Fragments left over from a timed-out turn are submitted later and
  credited to whoever holds the turn by then (`Commands.Tick`,
  `Lifecycle.PollSubmits`).

## Model

| member | source | states |
|---|---|---|
| Turns.AcceptableExists | game.py:49-59 | with two or more players of distinct ids, every pass has a successor permutation the retry loop accepts, so the loop can stop |
| Turns.Reshuffle | game.py:76-83 | the new `U2` is a permutation of the players that meets the boundary test after `U1`: no "AA", and from three players on no "ABA" |
| Turns.InitPlaylist | game.py:44-61 | with one player nothing changes; otherwise `U1` and `U2` are permutations of the players and the boundary between them passes the test |
| Turns.NextPlaylistTurn | game.py:63-85 | one player: always (players[0], players[0]); inside a pass the neighbours `U1[i]`, `U1[i+1]`; at the last pair (`U1[-1]`, `U2[0]`); after that the passes are swapped, `U_i` reset and no pair returned; the playlist stays valid |
| Turns.SoloAlwaysSelf | game.py:63-65 | with one player every draw yields that player and the playlist never changes |
| Turns.StreamAvoidsRepeats | game.py:44-85 | the current players handed out from a fresh playlist never share an id back to back, and from three players on never form an A, B, A window (for one fixed outcome of each reshuffle) |
| Turns.NextPlaylistTurnWith | game.py:63-85 | the draw with the reshuffle's outcome given as an argument (any permutation the retry loop accepts): the same four branches as `Turns.NextPlaylistTurn`, with the given permutation becoming the new `U2` |
| Turns.AnyShufflesAvoidRepeats | game.py:44-85 | whatever accepted permutations the reshuffles produce, the current players handed out never share an id back to back, and from three players on never form an A, B, A window |
| Turns.NextPlaylistTurnIntended | game.py:75-85 | the draw with the end-of-pass call handing out the first pair of the new pass: it always yields a pair and agrees with the source inside a pass |
| Turns.IntendedStreamAvoidsRepeats | game.py:52-58 | with that draw the turn order has no back-to-back repeat and, from three players on, no A, B, A window |
| Session.Create | game.py:12-42 | a new game is WAITING with no players, messages or timeouts, and with valid parameters it is well formed once its creator joins |
| Session.PlayerJoin | game.py:90-91 | the new player goes to the end and everyone already in stays in place |
| Session.Start | game.py:96-101 | the game becomes PLAYING with a valid playlist, the first pair is drawn (the sole player twice, or `U1[0]`, `U1[1]`) and the turn clock starts at `now` |
| Session.PlayTurn | game.py:103-110 | exactly one entry is appended, with the current player, the text and the time since the turn began; earlier entries are unchanged |
| Session.NextTurn | game.py:114-120 | the three flags are cleared; the new playlist and the pair are exactly the sequencer's draw (`Turns.NextPlaylistTurn`); a drawn pair becomes current and next and restarts the clock; at the end of a pass no pair comes out and current, next and the turn start stay as they were |
| Session.NextTurnChangesPlayer | game.py:114-120 | for any started game: with two or more players and away from the end of a pass, a pair is drawn and the turn is handed to a player of another account |
| Session.End | game.py:122-123 | the game becomes ENDED and nothing else changes; the status never moves back, and a started game stays well formed |
| Session.Creator | game.py:93-94 | the creator is one of the players, and later joins never change who it is |
| Session.TimedOut | game.py:125-129 | the current username's count goes up by exactly one and every other count is unchanged |
| Story.Bump | game.py:137-140 | the dict update keeps keys distinct, appends a new key at the end, and adds `n` to exactly one count |
| Story.Lengths | game.py:133-140 | one entry per author, in order of first appearance, holding the author's character total |
| Story.FirstMax | game.py:149 | the index of a maximal count, with every earlier entry strictly smaller (Python's `max` keeps the first maximum) |
| Story.Statistics | game.py:131-155 | no statistics exactly for an empty log; otherwise the word count is the sum of the texts' word counts, the top writer's count is that author's character total, and the timeout field is absent exactly when nobody timed out |
| Story.StatisticsMeaning | game.py:131-155 | words is the sum of the texts' word counts; the top writer is the first author, in order of first appearance, with the highest character total; the timeout fields are absent exactly when nobody timed out, and otherwise name the first username with the highest count |
| Story.StatisticsExample | game.py:146-149 | "hi there" by alice and "yo" by bob give 3 words, with alice the top writer with 8 characters |
| Text.Join | main.py:312 | the parts with the separator between neighbours: nothing for no parts, the first part comes first, and with an empty separator it is the plain concatenation |
| Text.JoinLength | utils.py:63 | a join of one or more parts is as long as the parts together plus one separator between each two neighbours |
| Text.SplitKeepsText | game.py:147 | splitting on whitespace loses exactly the whitespace |
| Text.WordsOfJoin | game.py:147 | joining texts with single spaces and splitting gives as many words as the texts have together |
| Text.Split | game.py:147 | every word is nonempty and contains no whitespace |
| Text.SplitCountsWordStarts | game.py:147 | the number of words is the number of positions holding a non-whitespace character at the start of the text or right after whitespace, counted independently of how the text is cut |
| Text.Strip | main.py:248-252 | the result is a slice of the input with only whitespace cut off either end, and it neither starts nor ends with whitespace |
| Text.DecimalRoundTrip | utils.py:41 | the decimal rendering of a count reads back as the same number |
| Titles.Filter | main.py:249 | every allowed character is kept as often as it occurs and every other character is dropped, so the result holds only allowed characters and is never longer |
| Titles.CheckTitle | main.py:241-258 | refused as too long exactly when over 50 characters; refused as empty exactly when nothing survives sanitising; an accepted title is exactly the sanitised text: 1 to 50 allowed characters with no surrounding whitespace |
| Titles.SanitiseIdempotent | main.py:248-252 | sanitising an accepted title changes nothing |
| Commands.NewGame | main.py:68-100 | a game is created exactly when the sender has a username, no game exists, and the arguments parse with 1 ≤ n ≤ 10000 and 10 ≤ timeout ≤ 604800; the creator is its only player and it starts WAITING |
| Commands.JoinGameAsWritten | main.py:135-147 | as written, a player is appended exactly when the game is WAITING and the username is new, whatever the account id |
| Commands.JoinGame | main.py:127-147 | with the correction, a player is appended at the end exactly when the game is WAITING and neither the username nor the account is in yet; a known username is answered "already joined" |
| Commands.StartGame | main.py:156-171 | the game starts exactly when it is WAITING and the sender is the creator, `players[0]` |
| Commands.CancelGame | main.py:174-188 | the game is dropped in any status exactly when the sender is its creator; the fragment buffer is left alone |
| Commands.SkipTurn | main.py:191-206 | only the current player of a PLAYING game can skip; the next turn is drawn, nothing is logged and the buffer is kept |
| Commands.GetStoryMessage | main.py:209-226 | only the current player's texts in PLAYING or ENDED count; the first one starts the buffer clock; a text is buffered before 250 ms and dropped after; the game is untouched |
| Commands.Warnings | main.py:282-300 | each warning fires exactly when its flag is clear and its threshold passed, sets its flag, and several can fire in one poll, sent in the order half-time, 30 s, 5 s; every reply is one of the three, and the half-time one announces `timeout // 2` seconds |
| Commands.TimeOutStep | main.py:302-309 | one more timeout for the current player and no other, nothing logged; the playlist and the new pair are the sequencer's draw, and with two or more players away from the end of a pass the turn goes to another account, starting at `now`; at the end of a pass the same player keeps the turn and its start time |
| Commands.ExpireHandsOn | main.py:302-309 | a poll's forced advance hands the turn to the sequencer's draw, another account with two or more players away from a pass end, and keeps the same turn at a pass end |
| Commands.Record | main.py:312-323 | `play_turn` then `end` when full: exactly one message is appended, with the current player, the text and the time since the turn began; the game ends exactly when the log reaches `n_messages`; nothing else changes |
| Commands.Flush | main.py:311-337 | the flush of a polled game: the space-joined buffer is logged for the current player; players, timeouts and parameters are kept; the story ends exactly at `n_messages`; the first reply registers the new message count, and no reply is a warning or a time-out |
| Commands.Submit | main.py:311-337 | the buffered text becomes the current player's message; the playlist and the new pair are the sequencer's draw, and with two or more players away from a pass end the turn goes to another account; the story ends exactly at `n_messages`, and then, unless the pass has just ended, the player of the drawn pair is asked for a title |
| Commands.FlushHandsOn | main.py:311-337 | a poll's submission hands the turn to the sequencer's draw, another account with two or more players away from a pass end; at most two replies, the second exactly when the story ends away from a pass end, asking the drawn player for the title |
| Commands.Tick | main.py:279-337 | the due warnings come first; then either the timeout advance (buffer kept, the current username charged once), or the flush once 500 ms have passed since the first fragment (buffer reset, the joined buffer logged, the new message count registered), or nothing else |
| Commands.TitleStep | main.py:236-277 | the first buffered text is taken as the title and the buffer emptied; the game is exported and dropped exactly when the title is accepted |
| Commands.GamePoll | main.py:229-280 | no game, a WAITING game, or an ENDED game with an empty buffer: nothing changes; an ENDED game with buffered text runs only the title step; a PLAYING game runs the tick |
| Commands.Handle | main.py:68-337 | with the corrected join, every handler keeps the bot consistent: the game well formed, the log within `n_messages`, the buffer clock set exactly when the buffer is not empty |
| Commands.Run | main.py:321-323 | with the corrected join, along any sequence of events the story never holds more than `n_messages` messages |
| Lifecycle.HandleEvolves | main.py:68-337 | with the corrected join, one event only moves a game forward; a game disappears only by its creator's cancel or an accepted title, and appears only by `/new` as a WAITING game of one |
| Lifecycle.RunEvolves | game.py:90-129 | with the corrected join, over a run that keeps its game: status only forwards, the creator and joined players stay, nobody joins after WAITING, messages and timeout counts are never taken back |
| Lifecycle.PollWarnings | main.py:282-300 | half-time only for turns of 120 s or more, past half; 30 s only for turns of 30 s or more, past timeout − 30; 5 s past timeout − 5; each only while its flag is clear; any half-time warning of the poll announces `timeout // 2` seconds |
| Lifecycle.WarningOncePerTurn | main.py:282-300 | a second poll after one that neither timed out nor submitted sends none of the first one's warnings again |
| Lifecycle.PassEndWarningsRepeat | game.py:75-85 | after a time-out at the end of a pass the same turn goes on with its flags cleared, so a second poll at the same moment sends the 5-second warning again, and when its flag was clear the first poll sent it too |
| Lifecycle.TimeoutChargedOnce | main.py:302-309 | away from the end of a pass, a timed-out turn costs one timeout, logs nothing, and a second poll at the same moment charges nobody |
| Lifecycle.PassEndTimeoutChargedTwice | game.py:75-85 | at the end of a pass the timed-out player keeps the turn and is charged again by the next poll |
| Lifecycle.PassEndSkipKeepsTurn | game.py:75-85 | at the end of a pass a skip leaves the same player on turn with the same start time, and a second skip passes it to a player of another account, starting the new turn at that moment |
| Lifecycle.PollSubmits | main.py:311-321 | messages grow exactly when the flush is due; the flush logs the space-joined buffer for the current player, empties the buffer, and ends the story exactly at `n_messages` |
| Lifecycle.LastMessageAsksForTitle | main.py:321-335 | the last message ends the story and the player of the pair the sequencer draws is put on turn and asked for the title, except at the end of a pass where nobody is asked |
| Lifecycle.PollPassesTurn | main.py:302-337 | a poll that times out or submits, with two or more players away from a pass end, puts the sequencer's drawn player on turn, an account other than the previous one |
| Lifecycle.AsWrittenJoinAdmitsDuplicateId | main.py:138-147 | as written, one account can join twice under two usernames, and then no pair of passes passes the boundary test |
| Lifecycle.JoinKeepsShuffleFinite | game.py:49-59 | after the corrected join every pass has an accepted successor |
| TimeFormat.FieldsAsWritten | utils.py:39-61 | seconds are `t % 60`, minutes `(t // 60) % 60`, hours `(t // 3600) % 60`, days `(t // 216000) % 24` and weeks `(t // 5184000) % 7`; every field is within its modulus, and below 216000 s the hours, minutes and seconds add up to the input |
| TimeFormat.Fields | utils.py:33-36 | with 7-day weeks and 24-hour days the fields are in range and add up to the input |
| TimeFormat.Render | utils.py:37-63 | the positive fields are listed largest unit first, separated by ", ", each with an "s" exactly when its count exceeds one; the text is empty exactly when no field is positive |
| TimeFormat.FormatTime | utils.py:33-63 | `format_time` as written: the fields with the source's divisors, largest unit first; empty exactly when all of them are zero |
| TimeFormat.EntryReadsBack | utils.py:40-41 | an entry for a positive count splits into two words: the count in decimal, which reads back as the count, and the unit, with an "s" exactly when the count exceeds one |
| TimeFormat.FormatTimeIntended | utils.py:33-63 | `format_time` with 7-day weeks and 24-hour days: the same largest-first form over those fields, empty exactly for zero seconds |
| TimeFormat.AgreeBelowADay | utils.py:48-61 | below one day the source's divisors agree with the documented ones, so both formats give the same text |
| TimeFormat.EmptyExactlyWhenNoField | utils.py:37-63 | the text is empty exactly when no field is positive; `format_time(0)` is empty |
| TimeFormat.OneWeekAsWritten | utils.py:48-61 | 604800 s gives "2 days, 48 hours" as written and "1 week" with the documented units |

## Left out

- Telegram I/O: messages, replies, Markdown text, keyboards and `smart_split` are foreign library calls. Each reply is a `Reply` constructor.
- Routing of messages to handlers by chat type (group or private) and by command is the library's. Events arrive already classified.
- The CLI, save directory checks, `bot.polling` and the `RepeatedTimer` thread are process plumbing. Polls and handler calls are sequential events.
- The save-file append in `play_turn`, the HTML export and `generate_html` are file output and templating.
- The mean-duration statistics and `round` are float arithmetic on wall-clock time. So is the float part of message durations, which the model keeps in whole milliseconds.
- The random nonce is not modelled. `random.shuffle` is modelled only as a choice of a permutation.
- Commands.NewGame: the argument string's parsing by `int()` is not modelled. The handler receives the parsed pair, or nothing when parsing fails.
- Titles.Allowed: `str.isalpha` and `str.isdigit` are modelled for ASCII letters and digits only. Unicode letters and digits are not modelled.
- Commands.Handle: `/join` is dispatched to the corrected `Commands.JoinGame`, which also refuses an account already in the game. The consistency invariant includes distinct account ids, which the join as written breaks (see Findings). So `Commands.Handle`, `Commands.Run`, `Lifecycle.HandleEvolves` and `Lifecycle.RunEvolves` describe the bot with that correction, not as written.
- Story.StatisticsMeaning: with an empty log the source's `max` raises. The model answers `None` there.

## Findings

| source | as written | input that shows it | evidently intended | confidence | as-written member | corrected member |
|---|---|---|---|---|---|---|
| main.py:138 | `join_game` rejects a known username only, so one Telegram account can join twice under two usernames | account 7 sends `/new 10 60` as "alice", renames itself, and sends `/join` as "alicia"; at `/start`, no permutation of [alice, alicia] (both id 7) passes "no AA", so the retry loop in `init_playlist` never ends | reject an account whose id is already among the players | likely; not executed | Lifecycle.AsWrittenJoinAdmitsDuplicateId | Commands.JoinGame |
| utils.py:48-61 | after minutes it divides by 60 again, then by 24, so hours are `(t // 3600) % 60`, days `(t // 216000) % 24` and weeks `(t // 5184000) % 7` | `format_time(604800)` gives "2 days, 48 hours" | 24-hour days and 7-day weeks as the docstring says, so "1 week" | certain; not executed | TimeFormat.OneWeekAsWritten | TimeFormat.Fields |
