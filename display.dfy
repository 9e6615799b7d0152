/**
 * The text and ring values that `_update_display` and `set_phase` put on
 * screen: the `MM:SS` countdown, the `"{m}m {s}s left"` message of the
 * threshold notifications, the `Session n/total` label, the ring's colour per
 * phase and the remaining-time fraction it depicts.
 */
module Display {
  import opened Text
  import opened Timer
  import opened Arith

  /** `divmod(max(0, secs), 60)`: whole minutes and leftover seconds. */
  function MinSec(secs: int): (r: (nat, nat))
    ensures r.0 * 60 + r.1 == Max(0, secs)
    ensures r.1 < 60
  {
    var t := Max(0, secs);
    (t / 60, t % 60)
  }

  /** The countdown label `f"{m:02d}:{s:02d}"`. */
  function TimeText(secs: int): string
  {
    var (m, s) := MinSec(secs);
    Pad2(m) + ":" + Pad2(s)
  }

  /**
   * Reading the countdown label back: the digits before the colon (at least
   * two) are the minutes and the two after it are the seconds, below 60, of
   * the same non-negative remaining time.
   */
  lemma TimeTextReadsBack(secs: int)
    ensures var t := TimeText(secs);
      && |t| >= 5 && t[|t| - 3] == ':'
      && IsDigits(t[..|t| - 3]) && IsDigits(t[|t| - 2..])
      && ParseDecimal(t[|t| - 2..]) < 60
      && ParseDecimal(t[..|t| - 3]) * 60 + ParseDecimal(t[|t| - 2..]) == Max(0, secs)
  {
    var (m, s) := MinSec(secs);
    var mm, ss := Pad2(m), Pad2(s);
    var t := mm + ":" + ss;
    assert t[..|t| - 3] == mm;
    assert t[|t| - 2..] == ss;
  }

  /** The message of the threshold notifications, `f"{m}m {s}s left"`. */
  function LeftText(secs: int): string
  {
    var (m, s) := MinSec(secs);
    Decimal(m) + "m " + Decimal(s) + "s left"
  }

  /** The session number shown during focus: `session_count % sessions + 1`, between 1 and `sessions`. */
  function SessionNumber(count: int, sessions: int): (n: int)
    requires sessions >= 1
    ensures 1 <= n <= sessions
  {
    count % sessions + 1
  }

  /**
   * The label reads `sessions/sessions` exactly in the focus phase whose
   * completion is followed by a long break (the next count is a multiple of
   * `sessions`), and the number goes up by one, wrapping to 1, with each
   * completed focus phase.
   */
  lemma SessionNumberCycle(count: int, sessions: int)
    requires sessions >= 1
    ensures SessionNumber(count, sessions) == sessions <==> (count + 1) % sessions == 0
    ensures SessionNumber(count + 1, sessions)
      == if SessionNumber(count, sessions) == sessions then 1 else SessionNumber(count, sessions) + 1
  {
    var q, r := count / sessions, count % sessions;
    if r == sessions - 1 {
      ModOfDecomposition(count + 1, sessions, q + 1, 0);
    } else {
      ModOfDecomposition(count + 1, sessions, q, r + 1);
    }
  }

  const SessionPrefix := "Session "

  /** The session label `f"Session {n}/{sessions}"`. */
  function SessionLabel(count: int, sessions: int): string
    requires sessions >= 1
  {
    SessionPrefix + Decimal(SessionNumber(count, sessions)) + "/" + Decimal(sessions)
  }

  /**
   * Reading the session label back: after the prefix comes the session
   * number, between 1 and `sessions`, then a slash and `sessions`.
   */
  lemma SessionLabelReadsBack(count: int, sessions: int)
    requires sessions >= 1
    ensures var r := SessionLabel(count, sessions);
      && |r| > |SessionPrefix| && r[..|SessionPrefix|] == SessionPrefix
      && exists i :: |SessionPrefix| < i < |r| && r[i] == '/'
                     && ParseDecimal(r[|SessionPrefix|..i]) == SessionNumber(count, sessions)
                     && ParseDecimal(r[i + 1..]) == sessions
  {
    var n := SessionNumber(count, sessions);
    var num, tot := Decimal(n), Decimal(sessions);
    var r := SessionPrefix + num + "/" + tot;
    var i := |SessionPrefix| + |num|;
    assert r[|SessionPrefix|..i] == num;
    assert r[i + 1..] == tot;
    DecimalRoundTrip(n);
    DecimalRoundTrip(sessions);
  }

  /** `PHASE_COLORS`: the ring colour of each phase. */
  function PhaseColor(p: Phase): string
  {
    match p
    case Focus => "#f28fad"
    case Break => "#6de0f2"
    case LongBreak => "#88f2b6"
  }

  /** A remaining-time fraction `num / den`. */
  datatype Fraction = Fraction(num: int, den: int)

  /**
   * `secs / total if total > 0 else 0.0`, kept as an exact fraction; under
   * the invariant it lies in [0, 1], is 1 on phase entry, and is at most 1/2
   * or 1/4 exactly when the corresponding threshold is met.
   */
  function Progress(secs: int, total: int): (f: Fraction)
    ensures f.den > 0
    ensures 0 <= secs <= total ==> 0 <= f.num <= f.den
    ensures total > 0 ==> (2 * f.num <= f.den <==> HalfLeft(secs, total))
    ensures total > 0 ==> (4 * f.num <= f.den <==> QuarterLeft(secs, total))
    ensures total > 0 && secs == total ==> f.num == f.den
  {
    if total > 0 then Fraction(secs, total) else Fraction(0, 1)
  }
}
