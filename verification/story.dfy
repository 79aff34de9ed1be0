/**
 The story log of a game and the integer part of `get_statistics`
 (game.py): the number of words, who wrote the most characters, and who
 timed out most often. The source keeps its per-username tallies in Python
 dicts, whose iteration order is insertion order; the model keeps them as
 association lists in that order.
 */
module Story {
  import opened Wrappers
  import opened Text
  import opened Turns

  /** One entry of the story log: who wrote it, the text, and how many
      milliseconds after the start of the turn it was registered. */
  datatype Message = Message(player: Player, text: string, duration: int)

  /** One entry of a dict from username to a count. */
  datatype Counter = Counter(username: string, count: nat)

  /** The integer statistics. `mostTimeouts` is the source's pair
      `most_timeouts_player` / `most_timeouts_count`, both `None` together. */
  datatype Stats = Stats(
    words: nat,
    mostCharactersCount: nat,
    mostCharactersPlayer: string,
    mostTimeouts: Option<Counter>)

  function Keys(cs: seq<Counter>): (r: seq<string>)
    ensures |r| == |cs| && forall i {:trigger r[i]} :: 0 <= i < |cs| ==> r[i] == cs[i].username
  {
    if |cs| == 0 then [] else [cs[0].username] + Keys(cs[1..])
  }

  /** A dict never holds a key twice. */
  predicate DistinctKeys(cs: seq<Counter>) {
    forall i, j :: 0 <= i < j < |cs| ==> cs[i].username != cs[j].username
  }

  /** `d.get(u, 0)`. */
  function Get(cs: seq<Counter>, u: string): (r: nat) {
    if |cs| == 0 then 0 else if cs[0].username == u then cs[0].count else Get(cs[1..], u)
  }

  /** `if u not in d: d[u] = 0` followed by `d[u] += n`. */
  function Bump(cs: seq<Counter>, u: string, n: nat): (r: seq<Counter>)
    requires DistinctKeys(cs)
    ensures DistinctKeys(r)
    ensures u in Keys(cs) ==> Keys(r) == Keys(cs)
    ensures u !in Keys(cs) ==> Keys(r) == Keys(cs) + [u]
    ensures forall v :: Get(r, v) == Get(cs, v) + (if v == u then n else 0)
  {
    if |cs| == 0 then [Counter(u, n)]
    else if cs[0].username == u then
      BumpHere(cs, n);
      [Counter(u, cs[0].count + n)] + cs[1..]
    else
      var rest := Bump(cs[1..], u, n);
      BumpFurther(cs, u, rest);
      BumpFurtherCounts(cs, u, n, rest);
      [cs[0]] + rest
  }

  /** `Bump` when the first entry holds the key. */
  lemma BumpHere(cs: seq<Counter>, n: nat)
    requires DistinctKeys(cs) && |cs| > 0
    ensures var u, r := cs[0].username, [Counter(cs[0].username, cs[0].count + n)] + cs[1..];
            && DistinctKeys(r) && Keys(r) == Keys(cs)
            && forall v :: Get(r, v) == Get(cs, v) + (if v == u then n else 0)
  {
    var r := [Counter(cs[0].username, cs[0].count + n)] + cs[1..];
    assert r[1..] == cs[1..];
    assert Keys(r) == [cs[0].username] + Keys(cs[1..]);
    assert Keys(cs) == [cs[0].username] + Keys(cs[1..]);
  }

  /** `Bump` when the key lies further on: the first entry stays in front
      of the bumped rest, so the keys keep their order and stay distinct. */
  lemma BumpFurther(cs: seq<Counter>, u: string, rest: seq<Counter>)
    requires DistinctKeys(cs) && |cs| > 0 && cs[0].username != u
    requires DistinctKeys(rest)
    requires u in Keys(cs[1..]) ==> Keys(rest) == Keys(cs[1..])
    requires u !in Keys(cs[1..]) ==> Keys(rest) == Keys(cs[1..]) + [u]
    ensures var r := [cs[0]] + rest;
            && DistinctKeys(r)
            && (u in Keys(cs) ==> Keys(r) == Keys(cs))
            && (u !in Keys(cs) ==> Keys(r) == Keys(cs) + [u])
  {
    var r := [cs[0]] + rest;
    assert r[1..] == rest;
    assert Keys(cs) == [cs[0].username] + Keys(cs[1..]);
    assert Keys(r) == [cs[0].username] + Keys(rest);
    HeadNotInTail(cs);
    PrependKeepsDistinct(cs[0], rest);
    if u !in Keys(cs[1..]) {
      assert [cs[0].username] + (Keys(cs[1..]) + [u]) == Keys(cs) + [u];
    }
  }

  /** The counts after putting the first entry back in front. */
  lemma BumpFurtherCounts(cs: seq<Counter>, u: string, n: nat, rest: seq<Counter>)
    requires |cs| > 0 && cs[0].username != u
    requires forall v :: Get(rest, v) == Get(cs[1..], v) + (if v == u then n else 0)
    ensures forall v :: Get([cs[0]] + rest, v) == Get(cs, v) + (if v == u then n else 0)
  {
    assert ([cs[0]] + rest)[1..] == rest;
  }

  lemma HeadNotInTail(cs: seq<Counter>)
    requires DistinctKeys(cs) && |cs| > 0
    ensures cs[0].username !in Keys(cs[1..])
  {
  }

  lemma PrependKeepsDistinct(c: Counter, cs: seq<Counter>)
    requires DistinctKeys(cs) && c.username !in Keys(cs)
    ensures DistinctKeys([c] + cs)
  {
    var keys := Keys(cs);
    forall k | 0 <= k < |cs| ensures cs[k].username != c.username {
      assert keys[k] in keys;
    }
    var r := [c] + cs;
    forall i, j | 0 <= i < j < |r| ensures r[i].username != r[j].username {
      assert r[j] == cs[j - 1];
      if i > 0 {
        assert r[i] == cs[i - 1];
      }
    }
  }

  /** The usernames of a sequence of messages, in order. */
  function Authors(ms: seq<Message>): (r: seq<string>)
    ensures |r| == |ms| && forall i :: 0 <= i < |ms| ==> r[i] == ms[i].player.username
  {
    if |ms| == 0 then [] else Authors(ms[..|ms| - 1]) + [ms[|ms| - 1].player.username]
  }

  /** The distinct elements of `xs` in order of first appearance. */
  function Dedup(xs: seq<string>): (r: seq<string>) {
    if |xs| == 0 then []
    else
      var d := Dedup(xs[..|xs| - 1]);
      if xs[|xs| - 1] in d then d else d + [xs[|xs| - 1]]
  }

  /** The number of characters `u` wrote, summed over the log. */
  function CharsBy(ms: seq<Message>, u: string): (r: nat) {
    if |ms| == 0 then 0
    else CharsBy(ms[..|ms| - 1], u) + (if ms[|ms| - 1].player.username == u then |ms[|ms| - 1].text| else 0)
  }

  /** The `lengths` dict of `get_statistics`: one entry per author, in
      order of first appearance, holding the author's character total. */
  function Lengths(ms: seq<Message>): (r: seq<Counter>)
    ensures DistinctKeys(r)
    ensures Keys(r) == Dedup(Authors(ms))
    ensures forall u :: Get(r, u) == CharsBy(ms, u)
  {
    if |ms| == 0 then []
    else
      var m := ms[|ms| - 1];
      assert Authors(ms) == Authors(ms[..|ms| - 1]) + [m.player.username];
      assert Authors(ms)[..|ms| - 1] == Authors(ms[..|ms| - 1]);
      Bump(Lengths(ms[..|ms| - 1]), m.player.username, |m.text|)
  }

  /** `max(d, key=d.get)`: the index of the first entry whose count is
      maximal. */
  function FirstMax(cs: seq<Counter>): (k: nat)
    requires |cs| > 0
    ensures k < |cs|
    ensures forall j :: 0 <= j < |cs| ==> cs[j].count <= cs[k].count
    ensures forall j :: 0 <= j < k ==> cs[j].count < cs[k].count
  {
    if |cs| == 1 then 0
    else
      var k := FirstMax(cs[..|cs| - 1]);
      if cs[|cs| - 1].count > cs[k].count then |cs| - 1 else k
  }

  function Texts(ms: seq<Message>): (r: seq<string>)
    ensures |r| == |ms| && forall i :: 0 <= i < |ms| ==> r[i] == ms[i].text
  {
    if |ms| == 0 then [] else [ms[0].text] + Texts(ms[1..])
  }

  /** `get_statistics` with the float statistics left out. With an empty
      log the source's `max(lengths.values())` raises; the model answers
      `None` there. */
  function Statistics(ms: seq<Message>, timeouts: seq<Counter>): (r: Option<Stats>)
    ensures r.None? <==> |ms| == 0
    ensures r.Some? ==> r.value.words == SumWords(Texts(ms))
    ensures r.Some? ==> r.value.mostCharactersCount == CharsBy(ms, r.value.mostCharactersPlayer)
    ensures r.Some? ==> (r.value.mostTimeouts.None? <==> |timeouts| == 0)
  {
    if |ms| == 0 then None
    else
      var ls := Lengths(ms);
      var k := FirstMax(ls);
      WordsOfJoin(Texts(ms));
      GetAt(ls, k);
      Some(Stats(
        |Split(Join(Texts(ms), " "))|,
        ls[k].count,
        ls[k].username,
        if |timeouts| == 0 then None else Some(timeouts[FirstMax(timeouts)])))
  }

  lemma GetAt(cs: seq<Counter>, i: nat)
    requires DistinctKeys(cs) && i < |cs|
    ensures Get(cs, cs[i].username) == cs[i].count
  {
    if i > 0 {
      assert DistinctKeys(cs[1..]);
      assert cs[0].username != cs[i].username;
      GetAt(cs[1..], i - 1);
    }
  }

  lemma GetAbsent(cs: seq<Counter>, u: string)
    requires u !in Keys(cs)
    ensures Get(cs, u) == 0
  {
    if |cs| > 0 {
      assert Keys(cs) == [cs[0].username] + Keys(cs[1..]);
      GetAbsent(cs[1..], u);
    }
  }

  lemma DedupMembers(xs: seq<string>, u: string)
    ensures u in Dedup(xs) <==> u in xs
  {
    if |xs| > 0 {
      DedupMembers(xs[..|xs| - 1], u);
      assert xs == xs[..|xs| - 1] + [xs[|xs| - 1]];
    }
  }

  /** What the integer statistics mean: `words` is the word count of each
      text added up; `mostCharactersPlayer` is an author whose character
      total, `mostCharactersCount`, no author exceeds, and every author met
      before it in order of first appearance wrote strictly less;
      `mostTimeouts` is absent exactly when nobody timed out, and otherwise
      names the first username with the highest timeout count. */
  lemma {:induction false} StatisticsMeaning(ms: seq<Message>, timeouts: seq<Counter>)
    requires DistinctKeys(timeouts)
    ensures Statistics(ms, timeouts).None? <==> |ms| == 0
    ensures Statistics(ms, timeouts).Some? ==>
      var s := Statistics(ms, timeouts).value;
      var order := Dedup(Authors(ms));
      && s.words == SumWords(Texts(ms))
      && s.mostCharactersPlayer in order
      && s.mostCharactersCount == CharsBy(ms, s.mostCharactersPlayer)
      && (forall i :: 0 <= i < |ms| ==> CharsBy(ms, ms[i].player.username) <= s.mostCharactersCount)
      && (forall j :: 0 <= j < |order| && order[j] != s.mostCharactersPlayer
                     && (forall l :: 0 <= l < |order| && order[l] == s.mostCharactersPlayer ==> j < l)
                     ==> CharsBy(ms, order[j]) < s.mostCharactersCount)
      && (s.mostTimeouts.None? <==> |timeouts| == 0)
      && (s.mostTimeouts.Some? ==>
            && (forall c :: c in timeouts ==> c.count <= s.mostTimeouts.value.count)
            && exists k :: 0 <= k < |timeouts| && timeouts[k] == s.mostTimeouts.value
                           && forall j :: 0 <= j < k ==> timeouts[j].count < timeouts[k].count)
  {
    if |ms| > 0 {
      WordsOfJoin(Texts(ms));
      var ls := Lengths(ms);
      TopWriterMeaning(ms, ls, FirstMax(ls));
      MostTimeoutsMeaning(timeouts);
    }
  }

  /** The entry `FirstMax` picks from the `lengths` dict is an author, with
      their total, that no author exceeds and every author met before it
      stays strictly below. */
  lemma TopWriterMeaning(ms: seq<Message>, ls: seq<Counter>, k: nat)
    requires |ms| > 0 && ls == Lengths(ms) && k == FirstMax(ls)
    ensures var order := Dedup(Authors(ms));
      && ls[k].username in order
      && ls[k].count == CharsBy(ms, ls[k].username)
      && (forall i :: 0 <= i < |ms| ==> CharsBy(ms, ms[i].player.username) <= ls[k].count)
      && (forall j :: 0 <= j < |order| && order[j] != ls[k].username
                     && (forall l :: 0 <= l < |order| && order[l] == ls[k].username ==> j < l)
                     ==> CharsBy(ms, order[j]) < ls[k].count)
  {
    TopWriterIsMax(ms, ls, k);
    TopWriterIsFirst(ms, ls, k);
  }

  lemma TopWriterIsMax(ms: seq<Message>, ls: seq<Counter>, k: nat)
    requires |ms| > 0 && ls == Lengths(ms) && k == FirstMax(ls)
    ensures ls[k].username in Dedup(Authors(ms))
    ensures ls[k].count == CharsBy(ms, ls[k].username)
    ensures forall i :: 0 <= i < |ms| ==> CharsBy(ms, ms[i].player.username) <= ls[k].count
  {
    var order := Dedup(Authors(ms));
    assert Keys(ls) == order;
    assert Keys(ls)[k] == ls[k].username;
    GetAt(ls, k);
    forall i | 0 <= i < |ms| ensures CharsBy(ms, ms[i].player.username) <= ls[k].count {
      var u := ms[i].player.username;
      DedupMembers(Authors(ms), u);
      assert Authors(ms)[i] == u;
      var j :| 0 <= j < |order| && order[j] == u;
      GetAt(ls, j);
    }
  }

  lemma TopWriterIsFirst(ms: seq<Message>, ls: seq<Counter>, k: nat)
    requires |ms| > 0 && ls == Lengths(ms) && k == FirstMax(ls)
    ensures var order := Dedup(Authors(ms));
      forall j :: 0 <= j < |order| && order[j] != ls[k].username
                  && (forall l :: 0 <= l < |order| && order[l] == ls[k].username ==> j < l)
                  ==> CharsBy(ms, order[j]) < ls[k].count
  {
    var order := Dedup(Authors(ms));
    assert Keys(ls) == order;
    GetAt(ls, k);
    forall j | 0 <= j < |order| && order[j] != ls[k].username
               && (forall l :: 0 <= l < |order| && order[l] == ls[k].username ==> j < l)
      ensures CharsBy(ms, order[j]) < ls[k].count
    {
      assert order[k] == ls[k].username;
      GetAt(ls, j);
    }
  }

  lemma MostTimeoutsMeaning(timeouts: seq<Counter>)
    ensures |timeouts| > 0 ==>
              var m := timeouts[FirstMax(timeouts)];
              && (forall c :: c in timeouts ==> c.count <= m.count)
              && exists k :: 0 <= k < |timeouts| && timeouts[k] == m
                             && forall j :: 0 <= j < k ==> timeouts[j].count < timeouts[k].count
  {
    if |timeouts| > 0 {
      var k := FirstMax(timeouts);
      assert forall j :: 0 <= j < k ==> timeouts[j].count < timeouts[k].count;
    }
  }

  /** Two messages, "hi there" by alice and "yo" by bob: three words, and
      alice wrote the most with eight characters. */
  lemma StatisticsExample()
    ensures Statistics([Message(Player("alice", 1), "hi there", 2000),
                        Message(Player("bob", 2), "yo", 4000)], [])
            == Some(Stats(3, 8, "alice", None))
  {
    var ms := [Message(Player("alice", 1), "hi there", 2000), Message(Player("bob", 2), "yo", 4000)];
    ExampleLengths(ms);
    assert FirstMax(Lengths(ms)) == 0;
    ExampleText(ms);
  }

  lemma ExampleText(ms: seq<Message>)
    requires ms == [Message(Player("alice", 1), "hi there", 2000), Message(Player("bob", 2), "yo", 4000)]
    ensures |Split(Join(Texts(ms), " "))| == 3
  {
    assert Texts(ms) == ["hi there", "yo"] by {
      assert ms[1..] == [ms[1]];
    }
    assert Join(["hi there", "yo"], " ") == "hi there yo";
    ExampleWords();
  }

  lemma ExampleWords()
    ensures |Split("hi there yo")| == 3
  {
    var there_yo := "there" + " " + "yo";
    assert "hi there yo" == "hi" + " " + there_yo;
    assert NoSpace("hi") && NoSpace("there") && NoSpace("yo");
    SplitOneWord("hi");
    SplitOneWord("there");
    SplitOneWord("yo");
    SplitAroundSpace("there", "yo");
    assert |Split(there_yo)| == 2;
    SplitAroundSpace("hi", there_yo);
  }

  lemma ExampleLengths(ms: seq<Message>)
    requires ms == [Message(Player("alice", 1), "hi there", 2000), Message(Player("bob", 2), "yo", 4000)]
    ensures Lengths(ms) == [Counter("alice", 8), Counter("bob", 2)]
  {
    assert ms[..1] == [ms[0]];
    ExampleFirstLength(ms[..1]);
    assert "alice" != "bob";
    assert Bump([Counter("alice", 8)], "bob", 2) == [Counter("alice", 8)] + Bump([], "bob", 2);
  }

  lemma ExampleFirstLength(ms: seq<Message>)
    requires ms == [Message(Player("alice", 1), "hi there", 2000)]
    ensures Lengths(ms) == [Counter("alice", 8)]
  {
    assert ms[..0] == [];
  }
}
