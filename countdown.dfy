/** The countdown shared by the MCQ and system-design rounds
    (src/pages/MCQ.tsx, src/pages/SystemDesign.tsx): the one-second tick rule
    of the interval and the `MM:SS` label. */
module Countdown {
  import opened Ui
  import opened Text

  const McqSeconds := 300
  const SystemDesignSeconds := 900

  /** The time left and whether the interval is still installed. */
  datatype Clock = Clock(left: int, running: bool)

  /** One firing of the interval: at more than one second left it counts
      down; at one second or less it sets zero, clears itself and reports
      that the round's submit handler is called. A cleared interval does
      not fire. */
  function Step(c: Clock): (r: (Clock, bool))
    ensures r.1 <==> c.running && c.left <= 1
    ensures r.1 ==> r.0 == Clock(0, false)
    ensures !r.1 && c.running ==> r.0 == Clock(c.left - 1, true)
    ensures !c.running ==> r.0 == c
  {
    if !c.running then (c, false)
    else if c.left <= 1 then (Clock(0, false), true)
    else (Clock(c.left - 1, true), false)
  }

  /** `k` firings in a row: the final clock and how many submits were called. */
  function Run(c: Clock, k: nat): (Clock, nat)
    decreases k
  {
    if k == 0 then (c, 0)
    else
      var (next, fired) := Step(c);
      var (last, n) := Run(next, k - 1);
      (last, n + (if fired then 1 else 0))
  }

  /** A stopped interval stays stopped and calls nothing. */
  lemma {:induction false} RunStopped(c: Clock, k: nat)
    requires !c.running
    ensures Run(c, k) == (c, 0)
  {
    if k > 0 {
      RunStopped(c, k - 1);
    }
  }

  /** Started at `start` seconds, the countdown calls submit exactly once,
      on the `start`-th firing, and is then stopped at zero. */
  lemma {:induction false} SubmitFiresOnce(start: int, k: nat)
    requires start >= 1
    ensures Run(Clock(start, true), k)
         == if k < start then (Clock(start - k, true), 0) else (Clock(0, false), 1)
  {
    if k > 0 {
      if start == 1 {
        RunStopped(Clock(0, false), k - 1);
      } else {
        SubmitFiresOnce(start - 1, k - 1);
      }
    }
  }

  // ----- the MM:SS label -----

  /** A remainder in range is the Euclidean remainder. */
  lemma RemUnique(x: int, b: int, k: int, m: int)
    requires b > 0 && 0 <= m < b && x == b * k + m
    ensures x % b == m
  {
    var d := k - x / b;
    assert b * d == x % b - m;
  }

  /** The Euclidean remainder of a negated positive number, in terms of the
      remainder of the number itself. */
  lemma NegatedRem(n: int, b: int)
    requires n > 0 && b > 0
    ensures (-n) % b == if n % b == 0 then 0 else b - n % b
  {
    var q, m := n / b, n % b;
    assert n == b * q + m;
    if m == 0 {
      RemUnique(-n, b, -q, 0);
    } else {
      RemUnique(-n, b, -q - 1, b - m);
    }
  }

  /** JavaScript's `%`: the remainder takes the sign of the dividend, so for
      a negative dividend it is the Euclidean remainder moved down by `b`
      (or zero when `b` divides it). */
  function JsRem(a: int, b: int): (r: int)
    requires b > 0
    ensures a >= 0 ==> 0 <= r < b && r == a % b
    ensures a < 0 ==> -b < r <= 0 && r == (if a % b == 0 then 0 else a % b - b)
  {
    if a >= 0 then a % b
    else
      NegatedRem(-a, b);
      -((-a) % b)
  }

  /** `formatTime`: `Math.floor(s / 60)` and `s % 60`, each rendered in
      decimal and padded to two characters with '0', joined by ':'. */
  function FormatTime(seconds: int): (r: string)
    ensures seconds >= 0 ==> |r| >= 5 && r[|r| - 3] == ':'
    ensures 0 <= seconds < 6000 ==> |r| == 5
  {
    var mins := seconds / 60;
    var secs := JsRem(seconds, 60);
    ShortNumber(secs);
    ShortNumber(mins);
    PadStart2(IntToString(mins)) + ":" + PadStart2(IntToString(secs))
  }

  /** Numbers below 100 have at most two digits. */
  lemma ShortNumber(n: int)
    ensures 0 <= n < 100 ==> |IntToString(n)| <= 2
  {
    if 10 <= n < 100 {
      assert |NatToString(n / 10)| == 1;
    }
  }

  /** Reads an `M…M:SS` label back: at least two minute digits, exactly two
      second digits below 60. */
  function ParseClock(t: string): (r: Option<nat>)
    ensures r.Some? ==> |t| >= 5 && t[|t| - 3] == ':'
  {
    if |t| >= 5 && t[|t| - 3] == ':' && AllDigits(t[..|t| - 3]) && AllDigits(t[|t| - 2..])
       && ParseDigits(t[|t| - 2..]) < 60
    then Some(ParseDigits(t[..|t| - 3]) * 60 + ParseDigits(t[|t| - 2..]))
    else None
  }

  /** The padded rendering of a natural number reads back as that number. */
  lemma PaddedReadsBack(n: nat)
    ensures |PadStart2(NatToString(n))| >= 2
    ensures AllDigits(PadStart2(NatToString(n)))
    ensures ParseDigits(PadStart2(NatToString(n))) == n
  {
    var s := NatToString(n);
    ParseNatToString(n);
    if |s| == 1 {
      ParseLeadingZero(s);
    }
  }

  /** The seconds field: exactly two digits reading back as the seconds. */
  lemma SecondsField(secs: nat)
    requires secs < 60
    ensures |PadStart2(NatToString(secs))| == 2
    ensures AllDigits(PadStart2(NatToString(secs)))
    ensures ParseDigits(PadStart2(NatToString(secs))) == secs
  {
    ShortNumber(secs);
    PaddedReadsBack(secs);
  }

  lemma FormatTimeParts(s: nat)
    ensures FormatTime(s) == PadStart2(NatToString(s / 60)) + ":" + PadStart2(NatToString(s % 60))
  {
    assert JsRem(s, 60) == s % 60;
  }

  /** Reading a label built from two digit strings. */
  lemma ParseJoined(m: string, c: string, mins: nat, secs: nat)
    requires |m| >= 2 && AllDigits(m) && |c| == 2 && AllDigits(c)
    requires ParseDigits(m) == mins && ParseDigits(c) == secs < 60
    ensures ParseClock(m + ":" + c) == Some(mins * 60 + secs)
  {
    var t := m + ":" + c;
    assert t[..|t| - 3] == m;
    assert t[|t| - 2..] == c;
  }

  /** Padded minutes and seconds fields joined by ':' read back as the
      minutes times sixty plus the seconds. */
  lemma FieldsReadBack(mins: nat, secs: nat)
    requires secs < 60
    ensures ParseClock(PadStart2(NatToString(mins)) + ":" + PadStart2(NatToString(secs)))
            == Some(mins * 60 + secs)
  {
    var m, c := PadStart2(NatToString(mins)), PadStart2(NatToString(secs));
    SecondsField(secs);
    PaddedReadsBack(mins);
    ParseJoined(m, c, mins, secs);
  }

  /** For a non-negative time the label reads back as that time: the
      minutes times sixty plus the seconds give `s`, and the seconds are
      below sixty. */
  lemma FormatTimeRoundTrip(s: nat)
    ensures ParseClock(FormatTime(s)) == Some(s)
  {
    var mins, secs := s / 60, s % 60;
    assert mins * 60 + secs == s;
    FormatTimeParts(s);
    FieldsReadBack(mins, secs);
  }
}
