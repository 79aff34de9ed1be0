/**
 The title check of `game_poll` (main.py): a title longer than 50
 characters is refused; otherwise every character that is not a letter, a
 digit or one of ` -_'"()` is dropped, surrounding whitespace is stripped,
 and an empty result is refused.
 */
module Titles {
  import opened Text

  const MaxTitleLength := 50

  predicate IsLetter(c: char) {
    'a' <= c <= 'z' || 'A' <= c <= 'Z'
  }

  predicate IsDigit(c: char) {
    '0' <= c <= '9'
  }

  /** The characters a title may keep. */
  predicate Allowed(c: char) {
    IsLetter(c) || IsDigit(c) || c == ' ' || c == '-' || c == '_' || c == '\'' || c == '"' || c == '(' || c == ')'
  }

  predicate AllAllowed(s: string) {
    forall i :: 0 <= i < |s| ==> Allowed(s[i])
  }

  /** `"".join([c for c in s if <allowed>])`. */
  function Filter(s: string): (r: string)
    ensures AllAllowed(r)
    ensures |r| <= |s|
    ensures forall c {:trigger multiset(r)[c]} :: multiset(r)[c] == if Allowed(c) then multiset(s)[c] else 0
  {
    if |s| == 0 then ""
    else
      assert s == [s[0]] + s[1..];
      Keep(s[0]) + Filter(s[1..])
  }

  /** What filtering makes of one character. */
  function Keep(c: char): string {
    if Allowed(c) then [c] else []
  }

  lemma FilterCons(s: string)
    requires |s| > 0
    ensures Filter(s) == Keep(s[0]) + Filter(s[1..])
  {
  }

  /** The outcome of the title check. */
  datatype TitleCheck = TooLong | Rejected | Accepted(title: string)

  /** `title` cleaned of disallowed characters and surrounding whitespace. */
  function Sanitise(raw: string): (r: string) {
    Strip(Filter(raw))
  }

  /** The title check: refuse over-long titles before looking at their
      characters, then refuse a title that nothing survives of. */
  function CheckTitle(raw: string): (r: TitleCheck)
    ensures r.TooLong? <==> |raw| > MaxTitleLength
    ensures r.Rejected? <==> |raw| <= MaxTitleLength && |Sanitise(raw)| == 0
    ensures r.Accepted? ==>
              && 0 < |r.title| <= MaxTitleLength
              && AllAllowed(r.title)
              && !IsSpace(r.title[0]) && !IsSpace(r.title[|r.title| - 1])
    ensures r.Accepted? ==> r.title == Sanitise(raw)
  {
    if |raw| > MaxTitleLength then TooLong
    else
      var t := Sanitise(raw);
      if |t| == 0 then Rejected
      else
        SliceKeepsAllowed(Filter(raw), t);
        Accepted(t)
  }

  /** A piece of a string made only of allowed characters has only allowed
      characters. */
  lemma SliceKeepsAllowed(s: string, t: string)
    requires AllAllowed(s)
    requires exists i, j :: 0 <= i <= j <= |s| && t == s[i..j]
    ensures AllAllowed(t)
  {
    var i, j :| 0 <= i <= j <= |s| && t == s[i..j];
    forall k | 0 <= k < |t| ensures Allowed(t[k]) {
      assert t[k] == s[i + k];
    }
  }

  /** Filtering distributes over concatenation, one character at a time:
      it keeps exactly the allowed characters, in their order. */
  lemma {:induction false} FilterAppend(a: string, b: string)
    ensures Filter(a + b) == Filter(a) + Filter(b)
  {
    if |a| > 0 {
      FilterCons(a + b);
      assert (a + b)[0] == a[0];
      assert (a + b)[1..] == a[1..] + b;
      FilterAppend(a[1..], b);
      FilterCons(a);
    } else {
      assert a + b == b;
    }
  }

  lemma {:induction false} FilterOfAllowed(s: string)
    requires AllAllowed(s)
    ensures Filter(s) == s
  {
    if |s| > 0 {
      assert AllAllowed(s[1..]) by {
        forall i | 0 <= i < |s[1..]| ensures Allowed(s[1..][i]) {
          assert s[1..][i] == s[i + 1];
        }
      }
      FilterOfAllowed(s[1..]);
    }
  }

  /** A string with no whitespace at either end strips to itself. */
  lemma StripOfStripped(s: string)
    requires |s| > 0 ==> !IsSpace(s[0]) && !IsSpace(s[|s| - 1])
    ensures Strip(s) == s
  {
  }

  /** Cleaning a clean title changes nothing. */
  lemma SanitiseIdempotent(raw: string)
    ensures Sanitise(Sanitise(raw)) == Sanitise(raw)
  {
    var t := Sanitise(raw);
    SliceKeepsAllowed(Filter(raw), t);
    FilterOfAllowed(t);
    StripOfStripped(t);
  }
}
