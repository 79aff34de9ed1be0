/**
 Python string operations the game relies on: `sep.join(parts)`, `str.split()`
 with no argument, `str.strip()` with no argument, and `f"{n}"` for a
 non-negative integer. Strings are sequences of Unicode code points, as in
 Python 3.
 */
module Text {

  /** Python's `str.isspace` for one code point: the characters `str.split()`
      and `str.strip()` treat as whitespace. */
  predicate IsSpace(c: char) {
    || c == ' ' || c == '\t' || c == '\n' || c == '\r'
    || c == '\U{000B}' || c == '\U{000C}'
    || '\U{001C}' <= c <= '\U{001F}'
    || c == '\U{0085}' || c == '\U{00A0}' || c == '\U{1680}'
    || '\U{2000}' <= c <= '\U{200A}'
    || c == '\U{2028}' || c == '\U{2029}' || c == '\U{202F}' || c == '\U{205F}'
    || c == '\U{3000}'
  }

  predicate NoSpace(s: string) {
    forall i :: 0 <= i < |s| ==> !IsSpace(s[i])
  }

  /** `sep.join(parts)`: the parts in order with `sep` between neighbours,
      so with no separator it is their plain concatenation. */
  function Join(parts: seq<string>, sep: string): (r: string)
    ensures |parts| == 0 ==> r == ""
    ensures |parts| > 0 ==> |parts[0]| <= |r| && r[..|parts[0]|] == parts[0]
    ensures sep == "" ==> r == Concat(parts)
  {
    if |parts| == 0 then ""
    else if |parts| == 1 then assert Concat(parts) == parts[0] + ""; parts[0]
    else parts[0] + sep + Join(parts[1..], sep)
  }

  /** Concatenation of all parts, with no separator. */
  function Concat(parts: seq<string>): string {
    if |parts| == 0 then "" else parts[0] + Concat(parts[1..])
  }

  /** A join is as long as its parts together plus one separator between
      each two neighbours. */
  lemma {:induction false} JoinLength(parts: seq<string>, sep: string)
    requires |parts| > 0
    ensures |Join(parts, sep)| == |Concat(parts)| + (|parts| - 1) * |sep|
  {
    if |parts| == 1 {
      assert Concat(parts) == parts[0] + "";
    } else {
      JoinLength(parts[1..], sep);
      assert (|parts| - 1) * |sep| == |sep| + (|parts| - 2) * |sep|;
    }
  }

  /** `s` with every whitespace character removed. */
  function RemoveSpaces(s: string): (r: string)
    ensures NoSpace(r)
    ensures |r| <= |s|
  {
    if |s| == 0 then ""
    else if IsSpace(s[0]) then RemoveSpaces(s[1..])
    else [s[0]] + RemoveSpaces(s[1..])
  }

  /** Length of the run of non-whitespace characters that starts `s`. */
  function RunLength(s: string): (k: nat)
    ensures k <= |s|
    ensures NoSpace(s[..k])
    ensures k < |s| ==> IsSpace(s[k])
  {
    if |s| == 0 || IsSpace(s[0]) then 0 else 1 + RunLength(s[1..])
  }

  /** Python's `s.split()`: the maximal runs of non-whitespace characters, in order. */
  function Split(s: string): (r: seq<string>)
    ensures forall i :: 0 <= i < |r| ==> |r[i]| > 0 && NoSpace(r[i])
    decreases |s|
  {
    if |s| == 0 then []
    else if IsSpace(s[0]) then Split(s[1..])
    else
      var k := RunLength(s);
      [s[..k]] + Split(s[k..])
  }

  /** Removing whitespace from a string with none changes nothing. */
  lemma {:induction false} RemoveSpacesOfNoSpace(s: string)
    requires NoSpace(s)
    ensures RemoveSpaces(s) == s
  {
    if |s| > 0 {
      assert NoSpace(s[1..]) by {
        forall i | 0 <= i < |s[1..]| ensures !IsSpace(s[1..][i]) {
          assert s[1..][i] == s[i + 1];
        }
      }
      RemoveSpacesOfNoSpace(s[1..]);
    }
  }

  lemma {:induction false} RemoveSpacesAppend(a: string, b: string)
    ensures RemoveSpaces(a + b) == RemoveSpaces(a) + RemoveSpaces(b)
  {
    if |a| > 0 {
      assert (a + b)[1..] == a[1..] + b;
      RemoveSpacesAppend(a[1..], b);
    } else {
      assert a + b == b;
    }
  }

  /** The tokens `Split` returns are exactly the non-whitespace characters of
      `s`, in order: nothing is lost, reordered or invented. */
  lemma {:induction false} SplitKeepsText(s: string)
    ensures Concat(Split(s)) == RemoveSpaces(s)
    decreases |s|
  {
    if |s| == 0 {
    } else if IsSpace(s[0]) {
      SplitKeepsText(s[1..]);
    } else {
      var k := RunLength(s);
      SplitKeepsText(s[k..]);
      assert s == s[..k] + s[k..];
      RemoveSpacesAppend(s[..k], s[k..]);
      RemoveSpacesOfNoSpace(s[..k]);
      var r := Split(s);
      assert r == [s[..k]] + Split(s[k..]);
      assert r[1..] == Split(s[k..]);
    }
  }

  /** A run that ends before a whitespace character does not reach past it. */
  lemma {:induction false} RunLengthStopsAtSpace(a: string, b: string)
    requires |b| > 0 && IsSpace(b[0])
    ensures RunLength(a + b) == RunLength(a)
  {
    if |a| > 0 {
      assert (a + b)[0] == a[0];
      if !IsSpace(a[0]) {
        assert (a + b)[1..] == a[1..] + b;
        RunLengthStopsAtSpace(a[1..], b);
      }
    } else {
      assert a + b == b;
    }
  }

  /** Splitting `a + " " + b` splits `a` and `b` separately: the joining
      space never glues two words together. */
  lemma {:induction false} SplitAroundSpace(a: string, b: string)
    ensures Split(a + " " + b) == Split(a) + Split(b)
    decreases |a|
  {
    var s := a + " " + b;
    if |a| == 0 {
      assert s == [' '] + b;
      assert s[1..] == b;
    } else if IsSpace(a[0]) {
      assert s[0] == a[0];
      assert s[1..] == a[1..] + " " + b;
      SplitAroundSpace(a[1..], b);
    } else {
      assert s[0] == a[0];
      assert s == a + ([' '] + b);
      RunLengthStopsAtSpace(a, [' '] + b);
      var k := RunLength(a);
      assert s[..k] == a[..k];
      assert s[k..] == a[k..] + " " + b;
      SplitAroundSpace(a[k..], b);
    }
  }

  /** A non-empty string without whitespace is a single word. */
  lemma SplitOneWord(w: string)
    requires |w| > 0 && NoSpace(w)
    ensures Split(w) == [w]
  {
    RunLengthOfNoSpace(w);
    assert !IsSpace(w[0]);
    assert w[..|w|] == w;
    assert Split(w[|w|..]) == [];
  }

  lemma {:induction false} RunLengthOfNoSpace(w: string)
    requires NoSpace(w)
    ensures RunLength(w) == |w|
  {
    if |w| > 0 {
      assert NoSpace(w[1..]) by {
        forall i | 0 <= i < |w[1..]| ensures !IsSpace(w[1..][i]) {
          assert w[1..][i] == w[i + 1];
        }
      }
      RunLengthOfNoSpace(w[1..]);
    }
  }

  /** A word of `s` begins at position `i`: a non-whitespace character at
      the start of `s` or right after whitespace. */
  predicate StartsWord(s: string, i: int) {
    0 <= i < |s| && !IsSpace(s[i]) && (i == 0 || IsSpace(s[i - 1]))
  }

  /** The number of positions in `[lo, hi)` where a word of `s` begins. */
  function WordStartsIn(s: string, lo: nat, hi: nat): nat
    decreases hi - lo
  {
    if lo >= hi then 0 else (if StartsWord(s, lo) then 1 else 0) + WordStartsIn(s, lo + 1, hi)
  }

  /** The word starts of `t` read front to back, where `afterSpace` says
      whether what came before `t` ends in whitespace (or is nothing). */
  function WordsAfter(t: string, afterSpace: bool): nat {
    if |t| == 0 then 0
    else (if !IsSpace(t[0]) && afterSpace then 1 else 0) + WordsAfter(t[1..], IsSpace(t[0]))
  }

  /** Reading `s` from position `lo` on counts the word starts there. */
  lemma {:induction false} WordStartsFrom(s: string, lo: nat)
    requires lo <= |s|
    ensures WordStartsIn(s, lo, |s|) == WordsAfter(s[lo..], lo == 0 || IsSpace(s[lo - 1]))
    decreases |s| - lo
  {
    if lo < |s| {
      var t := s[lo..];
      assert t[0] == s[lo] && t[1..] == s[lo + 1..];
      WordStartsFrom(s, lo + 1);
    } else {
      assert s[lo..] == [];
    }
  }

  /** A run of non-whitespace read after non-whitespace starts no word. */
  lemma {:induction false} WordsAfterRun(t: string, k: nat)
    requires 1 <= k <= |t| && NoSpace(t[..k])
    ensures WordsAfter(t[1..], false) == WordsAfter(t[k..], false)
    decreases k
  {
    if k > 1 {
      assert t[1] == t[..k][1];
      assert t[1..][1..] == t[2..];
      var u := t[1..][..k - 1];
      assert NoSpace(u) by {
        forall i | 0 <= i < |u| ensures !IsSpace(u[i]) {
          assert u[i] == t[..k][i + 1];
        }
      }
      WordsAfterRun(t[1..], k - 1);
      assert t[1..][k - 1..] == t[k..];
    }
  }

  /** Right after a run, `t` is empty or starts with whitespace, so what
      came before it does not matter. */
  lemma WordsAfterFlag(t: string)
    requires |t| == 0 || IsSpace(t[0])
    ensures WordsAfter(t, false) == WordsAfter(t, true)
  {
  }

  /** `Split` makes one word per word start. */
  lemma {:induction false} SplitCountsWords(t: string)
    ensures |Split(t)| == WordsAfter(t, true)
    decreases |t|
  {
    if |t| > 0 {
      if IsSpace(t[0]) {
        SplitCountsWords(t[1..]);
      } else {
        var k := RunLength(t);
        assert Split(t) == [t[..k]] + Split(t[k..]);
        SplitCountsWords(t[k..]);
        WordsAfterRun(t, k);
        WordsAfterFlag(t[k..]);
      }
    }
  }

  /** `len(s.split())` is the number of positions where a word begins,
      counted independently of how the text is cut into words. */
  lemma SplitCountsWordStarts(s: string)
    ensures |Split(s)| == WordStartsIn(s, 0, |s|)
  {
    SplitCountsWords(s);
    WordStartsFrom(s, 0);
    assert s[0..] == s;
  }

  /** A run of non-whitespace ends where the first whitespace after it is. */
  lemma {:induction false} RunLengthOfWord(a: string, t: string)
    requires NoSpace(a) && (|t| == 0 || IsSpace(t[0]))
    ensures RunLength(a + t) == |a|
  {
    if |a| == 0 {
      assert a + t == t;
    } else {
      assert (a + t)[0] == a[0] && (a + t)[1..] == a[1..] + t;
      assert NoSpace(a[1..]) by {
        forall i | 0 <= i < |a[1..]| ensures !IsSpace(a[1..][i]) {
          assert a[1..][i] == a[i + 1];
        }
      }
      RunLengthOfWord(a[1..], t);
    }
  }

  /** Two words with one space between them split back into the two words. */
  lemma SplitTwoWords(a: string, b: string)
    requires |a| > 0 && |b| > 0 && NoSpace(a) && NoSpace(b)
    ensures Split(a + " " + b) == [a, b]
  {
    var sb := " " + b;
    var s := a + sb;
    assert s == a + " " + b;
    RunLengthOfWord(a, sb);
    assert !IsSpace(s[0]) by { assert s[0] == a[0]; }
    assert s[..|a|] == a && s[|a|..] == sb;
    assert Split(s) == [a] + Split(sb);
    assert sb[1..] == b;
    assert Split(sb) == Split(b);
    RunLengthOfWord(b, "");
    assert b + "" == b;
    assert b[..|b|] == b && b[|b|..] == "";
    assert Split(b) == [b] + Split("");
  }

  /** Word count of each part, added up. */
  function SumWords(parts: seq<string>): nat {
    if |parts| == 0 then 0 else |Split(parts[0])| + SumWords(parts[1..])
  }

  /** The words of `" ".join(parts)` are the words of the parts, in order; so
      its word count is the sum of the parts' word counts. */
  lemma {:induction false} WordsOfJoin(parts: seq<string>)
    ensures |Split(Join(parts, " "))| == SumWords(parts)
  {
    if |parts| == 1 {
      assert parts[1..] == [];
    } else if |parts| > 1 {
      WordsOfJoin(parts[1..]);
      SplitAroundSpace(parts[0], Join(parts[1..], " "));
    }
  }

  /** The decimal digit for `d`. */
  function DigitChar(d: nat): (c: char)
    requires d < 10
    ensures '0' <= c <= '9'
  {
    ('0' as int + d) as char
  }

  function DigitValue(c: char): nat
    requires '0' <= c <= '9'
  {
    (c as int - '0' as int) as nat
  }

  /** `f"{n}"` for a non-negative integer: its decimal digits, with no
      leading zero. */
  function NatToString(n: nat): (r: string)
    ensures |r| >= 1
    ensures forall i :: 0 <= i < |r| ==> '0' <= r[i] <= '9'
    ensures r[0] == '0' ==> n == 0
  {
    if n < 10 then [DigitChar(n)] else NatToString(n / 10) + [DigitChar(n % 10)]
  }

  /** The value of a string of decimal digits. */
  function ParseDecimal(s: string): nat
    requires forall i :: 0 <= i < |s| ==> '0' <= s[i] <= '9'
  {
    if |s| == 0 then 0 else 10 * ParseDecimal(s[..|s| - 1]) + DigitValue(s[|s| - 1])
  }

  /** Reading the digits back gives the number that was written. */
  lemma {:induction false} DecimalRoundTrip(n: nat)
    ensures ParseDecimal(NatToString(n)) == n
  {
    var s := NatToString(n);
    if n >= 10 {
      DecimalRoundTrip(n / 10);
      assert s[..|s| - 1] == NatToString(n / 10);
      assert DigitValue(s[|s| - 1]) == n % 10;
      assert 10 * (n / 10) + n % 10 == n;
    }
  }

  /** Python's `s.rstrip().lstrip()`: `s` without leading and trailing whitespace. */
  function Strip(s: string): (r: string)
    ensures |r| <= |s|
    ensures |r| > 0 ==> !IsSpace(r[0]) && !IsSpace(r[|r| - 1])
    ensures exists i, j :: 0 <= i <= j <= |s| && r == s[i..j]
                           && (forall k :: 0 <= k < i ==> IsSpace(s[k]))
                           && (forall k :: j <= k < |s| ==> IsSpace(s[k]))
  {
    var t := StripRight(s);
    var r := StripLeft(t);
    assert r == s[|t| - |r|..|t|];
    r
  }

  function StripRight(s: string): (r: string)
    ensures |r| <= |s| && r == s[..|r|]
    ensures |r| > 0 ==> !IsSpace(r[|r| - 1])
    ensures forall k :: |r| <= k < |s| ==> IsSpace(s[k])
  {
    if |s| == 0 || !IsSpace(s[|s| - 1]) then s else StripRight(s[..|s| - 1])
  }

  function StripLeft(s: string): (r: string)
    ensures |r| <= |s| && r == s[|s| - |r|..]
    ensures |r| > 0 ==> !IsSpace(r[0])
    ensures forall k :: 0 <= k < |s| - |r| ==> IsSpace(s[k])
  {
    if |s| == 0 || !IsSpace(s[0]) then s else StripLeft(s[1..])
  }
}
