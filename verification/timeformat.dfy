/**
 `format_time` of utils.py: a number of seconds written out as weeks,
 days, hours, minutes and seconds, largest unit first, leaving out the
 units whose count is zero. The source takes each field with `//` and `%`;
 for the positive divisors used here Dafny's `/` and `%` agree with
 Python's, negative inputs included.
 */
module TimeFormat {
  import opened Text

  /** The five fields of a duration. */
  datatype Duration = Duration(weeks: int, days: int, hours: int, minutes: int, seconds: int)

  /** The fields as the source computes them: after the minutes it keeps
      dividing by 60 and 24, so `hours` is `(t // 3600) % 60`, `days` is
      `(t // 216000) % 24` and `weeks` is `(t // 5184000) % 7`. */
  function FieldsAsWritten(t: int): (d: Duration)
    ensures 0 <= d.seconds < 60 && 0 <= d.minutes < 60 && 0 <= d.hours < 60
    ensures 0 <= d.days < 24 && 0 <= d.weeks < 7
    ensures d.seconds == t % 60 && d.minutes == (t / 60) % 60 && d.hours == (t / 3600) % 60
    ensures d.days == (t / 216000) % 24 && d.weeks == (t / 5184000) % 7
    ensures 0 <= t < 216000 ==> d.weeks == 0 && d.days == 0 && t == d.hours * 3600 + d.minutes * 60 + d.seconds
  {
    var t1 := t / 60;
    var t2 := t1 / 60;
    var t3 := t2 / 60;
    var t4 := t3 / 24;
    DivDiv(t, 60, 60);
    DivDiv(t, 3600, 60);
    DivDiv(t, 216000, 24);
    Duration(t4 % 7, t3 % 24, t2 % 60, t1 % 60, t % 60)
  }

  /** Dividing by `a` and then by `b` is dividing by `a * b` (floor
      division, as Python's `//` with positive divisors). */
  lemma DivDiv(t: int, a: int, b: int)
    requires a > 0 && b > 0
    ensures t / a / b == t / (a * b)
  {
    var r, r2 := t % a, t / a % b;
    Decompose(t, a, b);
    RemainderBound(a, b, r, r2);
    DivUnique(t, a * b, t / a / b, a * r2 + r);
  }

  lemma Decompose(t: int, a: int, b: int)
    requires a > 0 && b > 0
    ensures t == (a * b) * (t / a / b) + (a * (t / a % b) + t % a)
  {
    var q := t / a;
    var q2, r2 := q / b, q % b;
    assert t == a * q + t % a;
    assert q == b * q2 + r2;
    MulAdd(a, b * q2, r2);
    MulAssoc(a, b, q2);
  }

  lemma RemainderBound(a: int, b: int, r: int, r2: int)
    requires a > 0 && 0 <= r < a && 0 <= r2 < b
    ensures 0 <= a * r2 + r < a * b
  {
    MulMono(a, r2, b - 1);
    MulAdd(a, b, -1);
    MulMono(a, 0, r2);
  }

  lemma MulAssoc(a: int, b: int, c: int)
    ensures a * (b * c) == (a * b) * c
  {
  }

  lemma MulAdd(m: int, x: int, y: int)
    ensures m * (x + y) == m * x + m * y
  {
  }

  lemma MulMono(m: int, x: int, y: int)
    requires m >= 0 && x <= y
    ensures m * x <= m * y
  {
    MulAdd(m, x, y - x);
    assert m * (y - x) >= 0;
  }

  /** The quotient is the one `q` with `t == m * q + r` and `0 <= r < m`. */
  lemma DivUnique(t: int, m: int, q: int, r: int)
    requires m > 0 && t == m * q + r && 0 <= r < m
    ensures t / m == q
  {
    var q', r' := t / m, t % m;
    assert t == m * q' + r' && 0 <= r' < m;
    if q' < q {
      MulMono(m, q' + 1, q);
      MulAdd(m, q', 1);
    } else if q' > q {
      MulMono(m, q + 1, q');
      MulAdd(m, q, 1);
    }
  }

  /** The fields in the units the function's documentation promises: a
      week of 7 days, a day of 24 hours. */
  function Fields(t: int): (d: Duration)
    requires t >= 0
    ensures 0 <= d.seconds < 60 && 0 <= d.minutes < 60 && 0 <= d.hours < 24 && 0 <= d.days < 7
    ensures 0 <= d.weeks
    ensures t == d.weeks * 604800 + d.days * 86400 + d.hours * 3600 + d.minutes * 60 + d.seconds
  {
    var t1 := t / 60;
    var t2 := t1 / 60;
    var t3 := t2 / 24;
    var t4 := t3 / 7;
    assert t == 60 * t1 + t % 60;
    assert t1 == 60 * t2 + t1 % 60;
    assert t2 == 24 * t3 + t2 % 24;
    assert t3 == 7 * t4 + t3 % 7;
    Duration(t4, t3 % 7, t2 % 24, t1 % 60, t % 60)
  }

  /** One entry of the list: `"<n> <unit>"`, with an "s" for more than
      one, or nothing when the count is not positive. */
  function Entry(n: int, unit: string): (r: seq<string>)
    ensures |r| <= 1
    ensures |r| == 1 <==> n > 0
  {
    if n > 0 then [NatToString(n) + " " + unit + (if n > 1 then "s" else "")] else []
  }

  /** A positive count's entry is two words: the count in decimal, which
      reads back as the count, and the unit, with an "s" exactly for more
      than one. */
  lemma EntryReadsBack(n: int, unit: string)
    requires n > 0 && |unit| > 0 && NoSpace(unit)
    ensures var ws := Split(Entry(n, unit)[0]);
            && |ws| == 2
            && (forall i :: 0 <= i < |ws[0]| ==> '0' <= ws[0][i] <= '9') && ParseDecimal(ws[0]) == n
            && (ws[1] == unit || ws[1] == unit + "s")
            && (ws[1] == unit + "s" <==> n > 1)
  {
    DecimalRoundTrip(n);
    var d, u := NatToString(n), unit + (if n > 1 then "s" else "");
    assert NoSpace(d) by {
      forall i | 0 <= i < |d| ensures !IsSpace(d[i]) {
        assert '0' <= d[i] <= '9';
      }
    }
    assert NoSpace(u) by {
      forall i | 0 <= i < |u| ensures !IsSpace(u[i]) {
        if i < |unit| {
          assert u[i] == unit[i];
        }
      }
    }
    SplitTwoWords(d, u);
    assert Entry(n, unit)[0] == d + " " + u;
    assert u == unit + "s" <==> n > 1 by {
      if n == 1 {
        assert |u| != |unit + "s"|;
      }
    }
  }

  /** `xs[::-1]`. */
  function Reverse<T>(xs: seq<T>): (r: seq<T>)
    ensures |r| == |xs|
  {
    seq(|xs|, i requires 0 <= i < |xs| => xs[|xs| - 1 - i])
  }

  /** The list is built smallest unit first and reversed before joining,
      so the positive fields come out largest unit first, each with its
      plural "s" exactly when its count exceeds one, separated by ", ";
      nothing is printed exactly when no field is positive. */
  function Render(d: Duration): (r: string)
    ensures r == Join(Entry(d.weeks, "week") + Entry(d.days, "day") + Entry(d.hours, "hour")
                      + Entry(d.minutes, "minute") + Entry(d.seconds, "second"), ", ")
    ensures r == "" <==> d.weeks <= 0 && d.days <= 0 && d.hours <= 0 && d.minutes <= 0 && d.seconds <= 0
  {
    var s, m, h, dd, w := Entry(d.seconds, "second"), Entry(d.minutes, "minute"), Entry(d.hours, "hour"),
                          Entry(d.days, "day"), Entry(d.weeks, "week");
    ReverseOfShortPieces(s, m, h, dd, w);
    var parts := w + dd + h + m + s;
    JoinEmpty(parts);
    assert |parts| == 1 ==> |parts[0]| > 0;
    Join(Reverse(s + m + h + dd + w), ", ")
  }

  /** `format_time` as written: the fields with the source's divisors,
      largest unit first; the empty string exactly when every field is
      zero. */
  function FormatTime(t: int): (r: string)
    ensures var d := FieldsAsWritten(t);
            r == Join(Entry(d.weeks, "week") + Entry(d.days, "day") + Entry(d.hours, "hour")
                      + Entry(d.minutes, "minute") + Entry(d.seconds, "second"), ", ")
    ensures r == "" <==> FieldsAsWritten(t) == Duration(0, 0, 0, 0, 0)
  {
    Render(FieldsAsWritten(t))
  }

  /** `format_time` with the documented units: the same largest-first
      form over weeks of 7 days and days of 24 hours; the empty string
      exactly for zero seconds. */
  function FormatTimeIntended(t: int): (r: string)
    requires t >= 0
    ensures var d := Fields(t);
            r == Join(Entry(d.weeks, "week") + Entry(d.days, "day") + Entry(d.hours, "hour")
                      + Entry(d.minutes, "minute") + Entry(d.seconds, "second"), ", ")
    ensures r == "" <==> t == 0
  {
    Render(Fields(t))
  }

  /** Below one day the source's divisors never come into play, so the
      written and the documented formats agree. */
  lemma AgreeBelowADay(t: int)
    requires 0 <= t < 86400
    ensures FieldsAsWritten(t) == Fields(t)
    ensures FormatTime(t) == FormatTimeIntended(t)
  {
    DivDiv(t, 60, 60);
    assert t / 3600 < 24;
    assert t / 216000 == 0;
  }

  /** Reversing a concatenation reverses the order of the pieces. */
  lemma {:induction false} ReverseAppend<T>(a: seq<T>, b: seq<T>)
    ensures Reverse(a + b) == Reverse(b) + Reverse(a)
  {
    var l, r := Reverse(a + b), Reverse(b) + Reverse(a);
    assert |l| == |r|;
    forall i | 0 <= i < |l| ensures l[i] == r[i] {
      if i < |b| {
        assert r[i] == b[|b| - 1 - i];
      } else {
        assert r[i] == Reverse(a)[i - |b|] == a[|a| - 1 - (i - |b|)];
      }
    }
  }

  lemma ReverseOfShortPieces<T>(s: seq<T>, m: seq<T>, h: seq<T>, dd: seq<T>, w: seq<T>)
    requires |s| <= 1 && |m| <= 1 && |h| <= 1 && |dd| <= 1 && |w| <= 1
    ensures Reverse(s + m + h + dd + w) == w + dd + h + m + s
  {
    ReverseShort(s);
    ReverseShort(m);
    ReverseShort(h);
    ReverseShort(dd);
    ReverseShort(w);
    ReverseAppend(s, m);
    var a2 := s + m;
    ReverseAppend(a2, h);
    var a3 := a2 + h;
    assert Reverse(a3) == h + (m + s);
    ReverseAppend(a3, dd);
    var a4 := a3 + dd;
    assert Reverse(a4) == dd + (h + (m + s));
    ReverseAppend(a4, w);
    assert Reverse(a4 + w) == w + (dd + (h + (m + s)));
  }

  lemma ReverseShort<T>(xs: seq<T>)
    requires |xs| <= 1
    ensures Reverse(xs) == xs
  {
  }

  lemma JoinEmpty(parts: seq<string>)
    ensures Join(parts, ", ") == "" <==> |parts| == 0 || (|parts| == 1 && parts[0] == "")
  {
  }

  /** Nothing is printed exactly when no field is positive; in particular
      zero seconds format to the empty string. */
  lemma EmptyExactlyWhenNoField(t: int)
    ensures FormatTime(t) == "" <==> FieldsAsWritten(t) == Duration(0, 0, 0, 0, 0)
    ensures FormatTime(0) == ""
  {
    assert FieldsAsWritten(0) == Duration(0, 0, 0, 0, 0);
  }

  /** As written, one week (604800 s, the largest turn length `/new`
      accepts) formats as "2 days, 48 hours"; with the documented units it
      is "1 week". */
  lemma OneWeekAsWritten()
    ensures FieldsAsWritten(604800) == Duration(0, 2, 48, 0, 0)
    ensures FormatTime(604800) == "2 days, 48 hours"
    ensures Fields(604800) == Duration(1, 0, 0, 0, 0)
    ensures FormatTimeIntended(604800) == "1 week"
  {
    TwoDaysFortyEightHours();
    OneWeek();
  }

  lemma TwoDaysFortyEightHours()
    ensures Render(Duration(0, 2, 48, 0, 0)) == "2 days, 48 hours"
  {
    TwoDays();
    FortyEightHours();
    var parts := Entry(0, "week") + Entry(2, "day") + Entry(48, "hour") + Entry(0, "minute") + Entry(0, "second");
    assert parts == ["2 days", "48 hours"];
    assert parts[1..] == ["48 hours"];
    assert Join(parts, ", ") == "2 days" + ", " + "48 hours";
    assert "2 days" + ", " + "48 hours" == "2 days, 48 hours";
  }

  lemma TwoDays()
    ensures Entry(2, "day") == ["2 days"]
  {
    assert NatToString(2) == "2";
    assert "2" + " " + "day" + "s" == "2 days";
  }

  lemma FortyEightHours()
    ensures Entry(48, "hour") == ["48 hours"]
  {
    assert NatToString(48) == NatToString(4) + [DigitChar(8)] == "48";
    assert "48" + " " + "hour" + "s" == "48 hours";
  }

  lemma OneWeek()
    ensures Render(Duration(1, 0, 0, 0, 0)) == "1 week"
  {
    assert NatToString(1) == "1";
    assert Entry(1, "week") == ["1" + " " + "week" + ""];
  }
}
