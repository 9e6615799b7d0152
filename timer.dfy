/**
 * The Pomodoro phase state machine of `ChibiTomo` as values: the durations
 * record, the three phases, and one function per operation of the widget
 * that changes the timer's state. The class in module Widget runs these
 * operations in place and is proved to agree with them; the lemmas here
 * state what the operations guarantee, tick by tick and over whole phases.
 */
module Timer {

  datatype Phase = Focus | Break | LongBreak

  /** Phase lengths in minutes and the number of focus sessions per long break. */
  datatype Durations = Durations(focus: int, brk: int, longBrk: int, sessions: int)

  /** The dataclass defaults, also the "Pomodoro (25/5)" preset. */
  const Default := Durations(25, 5, 15, 4)

  /** The "50/10" preset of the mode menu. */
  const FiftyTen := Durations(50, 10, 20, 4)

  predicate Positive(d: Durations)
  {
    d.focus >= 1 && d.brk >= 1 && d.longBrk >= 1 && d.sessions >= 1
  }

  /** The ranges of the four spin boxes of the custom-durations dialog. */
  predicate InDialogRange(d: Durations)
  {
    1 <= d.focus <= 120 && 1 <= d.brk <= 60 && 1 <= d.longBrk <= 60 && 1 <= d.sessions <= 12
  }

  /** Seconds a phase starts with, as `set_phase` chooses them (anything but focus or break gets the long break). */
  function EntrySeconds(d: Durations, p: Phase): int
  {
    match p
    case Focus => d.focus * 60
    case Break => d.brk * 60
    case LongBreak => d.longBrk * 60
  }

  /**
   * The phase length `total` that the display divides by; the source selects
   * it in a different order (anything but focus or long break gets the short
   * break), and for the three phases both selections agree.
   */
  function TotalSeconds(d: Durations, p: Phase): (t: int)
    ensures t == EntrySeconds(d, p)
    ensures Positive(d) ==> t >= 60
  {
    (if p == Focus then d.focus else if p == LongBreak then d.longBrk else d.brk) * 60
  }

  /** `secs / total <= 0.5`, with total > 0, stated without division. */
  predicate HalfLeft(secs: int, total: int)
  {
    2 * secs <= total
  }

  /** `secs / total <= 0.25`, with total > 0, stated without division. */
  predicate QuarterLeft(secs: int, total: int)
  {
    4 * secs <= total
  }

  /** The timer fields of the widget; `active` is whether the 1-second timer runs. */
  datatype Core = Core(phase: Phase, secs: int, sessionCount: int,
                       notified50: bool, notified25: bool, active: bool)

  /** The invariant the widget keeps: remaining time within the phase, flags only once their threshold is met. */
  predicate Inv(d: Durations, c: Core)
  {
    && Positive(d)
    && c.sessionCount >= 0
    && 0 <= c.secs <= TotalSeconds(d, c.phase)
    && (c.notified50 ==> HalfLeft(c.secs, TotalSeconds(d, c.phase)))
    && (c.notified25 ==> QuarterLeft(c.secs, TotalSeconds(d, c.phase)))
    && (c.notified25 ==> c.notified50)
  }

  // ---------------------------------------------------------------------
  // The operations
  // ---------------------------------------------------------------------

  /** The display fires the 50% notification: timer active, half or less left, not yet fired. */
  predicate Fires50(d: Durations, c: Core)
  {
    var total := TotalSeconds(d, c.phase);
    total > 0 && c.active && HalfLeft(c.secs, total) && !c.notified50
  }

  /** The display fires the 25% notification: timer active, a quarter or less left, not yet fired. */
  predicate Fires25(d: Durations, c: Core)
  {
    var total := TotalSeconds(d, c.phase);
    total > 0 && c.active && QuarterLeft(c.secs, total) && !c.notified25
  }

  /** What `_update_display` does to the timer fields: it raises the flags of the notifications it fires. */
  function Refresh(d: Durations, c: Core): (r: Core)
    ensures r.(notified50 := c.notified50, notified25 := c.notified25) == c
    ensures r.notified50 <==> c.notified50 || Fires50(d, c)
    ensures r.notified25 <==> c.notified25 || Fires25(d, c)
  {
    c.(notified50 := c.notified50 || Fires50(d, c), notified25 := c.notified25 || Fires25(d, c))
  }

  /** `set_phase(p)`. */
  function EnterPhase(d: Durations, c: Core, p: Phase): Core
  {
    Refresh(d, c.(phase := p, secs := EntrySeconds(d, p), notified50 := false, notified25 := false))
  }

  /** `start()`: (re)arms the timer. */
  function Start(c: Core): Core
  {
    c.(active := true)
  }

  /** `pause()`: stops the timer. */
  function Pause(c: Core): Core
  {
    c.(active := false)
  }

  /** `reset()`. */
  function Reset(d: Durations, c: Core): Core
  {
    EnterPhase(d, Pause(c).(sessionCount := 0, notified50 := false, notified25 := false), Focus)
  }

  /**
   * The phase that follows a completed phase, with the new session count: a
   * completed focus phase counts one more session and is followed by a long
   * break when the count is a multiple of `sessions`; a break is followed by
   * focus.
   */
  function NextPhase(p: Phase, count: int, sessions: int): (r: (Phase, int))
    requires sessions >= 1
  {
    if p == Focus then
      var n := count + 1;
      (if n % sessions == 0 then LongBreak else Break, n)
    else
      (Focus, count)
  }

  /**
   * `_tick()`: with time left, one second less and a display refresh; with
   * none, stop the timer, enter the next phase and start the timer again.
   */
  function Tick(d: Durations, c: Core): Core
    requires d.sessions >= 1
  {
    if c.secs <= 0 then
      var (p, n) := NextPhase(c.phase, c.sessionCount, d.sessions);
      Start(EnterPhase(d, Pause(c).(sessionCount := n), p))
    else
      Refresh(d, c.(secs := c.secs - 1))
  }

  /** `n` consecutive ticks. */
  function Run(d: Durations, c: Core, n: nat): Core
    requires d.sessions >= 1
  {
    if n == 0 then c else Tick(d, Run(d, c, n - 1))
  }

  /** The state right after entering phase `p`: full time, both flags clear. */
  function Fresh(d: Durations, p: Phase, count: int, active: bool): Core
  {
    Core(p, EntrySeconds(d, p), count, false, false, active)
  }

  // ---------------------------------------------------------------------
  // Phase entry and reset
  // ---------------------------------------------------------------------

  /**
   * On entry to a phase no threshold notification can fire, whether or not
   * the timer runs, because the full time is more than half of it; so a
   * refresh changes nothing, and the invariant holds.
   */
  lemma FreshIsQuiet(d: Durations, p: Phase, count: int, active: bool)
    requires Positive(d)
    ensures !Fires50(d, Fresh(d, p, count, active)) && !Fires25(d, Fresh(d, p, count, active))
    ensures Refresh(d, Fresh(d, p, count, active)) == Fresh(d, p, count, active)
    ensures count >= 0 ==> Inv(d, Fresh(d, p, count, active))
  {
  }

  /** Entering a phase sets the time from that phase's duration and clears both flags, and raises neither. */
  lemma EnterPhaseIsFresh(d: Durations, c: Core, p: Phase)
    requires Positive(d)
    ensures EnterPhase(d, c, p) == Fresh(d, p, c.sessionCount, c.active)
    ensures c.sessionCount >= 0 ==> Inv(d, EnterPhase(d, c, p))
  {
    FreshIsQuiet(d, p, c.sessionCount, c.active);
  }

  /** `reset()` leaves the timer stopped in focus with full time, no sessions and both flags clear. */
  lemma ResetState(d: Durations, c: Core)
    requires Positive(d)
    ensures Reset(d, c) == Core(Focus, d.focus * 60, 0, false, false, false)
    ensures Inv(d, Reset(d, c))
  {
    EnterPhaseIsFresh(d, Pause(c).(sessionCount := 0, notified50 := false, notified25 := false), Focus);
  }

  /** `start` and `pause` change only whether the timer runs, and keep the invariant. */
  lemma StartPausePreserve(d: Durations, c: Core)
    requires Inv(d, c)
    ensures Inv(d, Start(c)) && Start(c).active && Start(c).(active := c.active) == c
    ensures Inv(d, Pause(c)) && !Pause(c).active && Pause(c).(active := c.active) == c
  {
  }

  /**
   * Both presets of the mode menu are positive and within the dialog's
   * ranges; after `_apply_mode` with the 50/10 preset and its `reset()`, focus
   * starts with 3000 seconds and its 50% notification is due at 1500 left.
   */
  lemma Presets(c: Core)
    ensures InDialogRange(Default) && InDialogRange(FiftyTen)
    ensures Reset(FiftyTen, c) == Core(Focus, 3000, 0, false, false, false)
    ensures HalfLeft(1500, TotalSeconds(FiftyTen, Focus)) && !HalfLeft(1501, TotalSeconds(FiftyTen, Focus))
  {
    ResetState(FiftyTen, c);
  }

  // ---------------------------------------------------------------------
  // One tick
  // ---------------------------------------------------------------------

  /**
   * A tick with time left takes exactly one second off; phase, session count
   * and timer state stay; each flag is raised when the timer runs and its
   * threshold is met at the new time, and a raised flag stays raised.
   */
  lemma DecrementTick(d: Durations, c: Core)
    requires Positive(d) && c.secs > 0
    ensures Tick(d, c).secs == c.secs - 1
    ensures Tick(d, c).phase == c.phase && Tick(d, c).sessionCount == c.sessionCount
    ensures Tick(d, c).active == c.active
    ensures Tick(d, c).notified50 <==>
      c.notified50 || (c.active && HalfLeft(c.secs - 1, TotalSeconds(d, c.phase)))
    ensures Tick(d, c).notified25 <==>
      c.notified25 || (c.active && QuarterLeft(c.secs - 1, TotalSeconds(d, c.phase)))
  {
  }

  /**
   * A tick with no time left changes phase: after focus one more session is
   * counted and the next phase is a long break exactly when the count is a
   * multiple of `sessions`; after a break it is focus with the count kept.
   * The new phase has full time, clear flags, and the timer runs.
   */
  lemma PhaseChangeTick(d: Durations, c: Core)
    requires Positive(d) && c.secs <= 0
    ensures var r := Tick(d, c);
      && r.secs == EntrySeconds(d, r.phase)
      && !r.notified50 && !r.notified25 && r.active
      && (c.phase == Focus ==>
            && r.sessionCount == c.sessionCount + 1
            && (r.phase == LongBreak <==> r.sessionCount % d.sessions == 0)
            && (r.phase == Break <==> r.sessionCount % d.sessions != 0))
      && (c.phase != Focus ==> r.phase == Focus && r.sessionCount == c.sessionCount)
  {
    var (p, n) := NextPhase(c.phase, c.sessionCount, d.sessions);
    EnterPhaseIsFresh(d, Pause(c).(sessionCount := n), p);
  }

  /** Every tick keeps the invariant. */
  lemma TickPreservesInv(d: Durations, c: Core)
    requires Inv(d, c)
    ensures Inv(d, Tick(d, c))
  {
    if c.secs <= 0 {
      PhaseChangeTick(d, c);
    }
  }

  /** While the timer is stopped, a tick never raises a flag: pausing cannot produce a notification. */
  lemma StoppedTickFiresNothing(d: Durations, c: Core)
    requires Positive(d) && !c.active && c.secs > 0
    ensures !Fires50(d, c.(secs := c.secs - 1)) && !Fires25(d, c.(secs := c.secs - 1))
    ensures Tick(d, c).notified50 == c.notified50 && Tick(d, c).notified25 == c.notified25
  {
  }

  // ---------------------------------------------------------------------
  // A whole phase
  // ---------------------------------------------------------------------

  /**
   * Tick by tick through one phase of total length T entered fresh: after
   * n <= T ticks the phase is unchanged, T - n seconds remain, and each flag
   * is set exactly when the timer runs and its threshold is met.
   */
  lemma {:induction false} PhaseTimeline(d: Durations, p: Phase, count: int, active: bool, n: nat)
    requires Positive(d) && n <= EntrySeconds(d, p)
    ensures var t := EntrySeconds(d, p);
      Run(d, Fresh(d, p, count, active), n)
        == Core(p, t - n, count, active && HalfLeft(t - n, t), active && QuarterLeft(t - n, t), active)
  {
    if n > 0 {
      PhaseTimeline(d, p, count, active, n - 1);
    }
  }

  /**
   * A running phase of T seconds lasts T + 1 ticks: the T-th tick reaches
   * zero and keeps the phase, the next one enters the following phase, fresh
   * and running.
   */
  lemma PhaseLastsTotalPlusOne(d: Durations, p: Phase, count: int)
    requires Positive(d)
    ensures var t := EntrySeconds(d, p);
      && Run(d, Fresh(d, p, count, true), t) == Core(p, 0, count, true, true, true)
      && var (q, n) := NextPhase(p, count, d.sessions);
         Run(d, Fresh(d, p, count, true), t + 1) == Fresh(d, q, n, true)
  {
    var t := EntrySeconds(d, p);
    PhaseTimeline(d, p, count, true, t);
    var (q, n) := NextPhase(p, count, d.sessions);
    EnterPhaseIsFresh(d, Pause(Run(d, Fresh(d, p, count, true), t)).(sessionCount := n), q);
  }

  /**
   * In a running phase of T seconds the 50% notification fires on exactly
   * one tick, the tick T - T/2 (the first at which at most half is left),
   * and the 25% notification on exactly the tick T - T/4.
   */
  lemma ThresholdTicks(d: Durations, p: Phase, count: int, n: nat)
    requires Positive(d) && 1 <= n <= EntrySeconds(d, p)
    ensures var t := EntrySeconds(d, p);
      var before := Run(d, Fresh(d, p, count, true), n - 1);
      && (Fires50(d, before.(secs := before.secs - 1)) <==> n == t - t / 2)
      && (Fires25(d, before.(secs := before.secs - 1)) <==> n == t - t / 4)
  {
    PhaseTimeline(d, p, count, true, n - 1);
  }

  // ---------------------------------------------------------------------
  // The long-break cycle
  // ---------------------------------------------------------------------

  /** The phase and session count after `k` phase changes. */
  function Changes(p: Phase, count: int, sessions: int, k: nat): (Phase, int)
    requires sessions >= 1
  {
    if k == 0 then (p, count)
    else
      var (q, n) := Changes(p, count, sessions, k - 1);
      NextPhase(q, n, sessions)
  }

  /**
   * From a reset (focus, no sessions) the phases alternate focus and break,
   * and the break after the j-th completed focus phase is long exactly when
   * j is a multiple of `sessions`.
   */
  lemma {:induction false} Cycle(sessions: int, j: nat)
    requires sessions >= 1
    ensures Changes(Focus, 0, sessions, 2 * j) == (Focus, j)
    ensures Changes(Focus, 0, sessions, 2 * j + 1)
      == (if (j + 1) % sessions == 0 then LongBreak else Break, j + 1)
  {
    if j > 0 {
      Cycle(sessions, j - 1);
      assert 2 * j == 2 * (j - 1) + 1 + 1;
    }
  }

  // ---------------------------------------------------------------------
  // The default durations, tick by tick
  // ---------------------------------------------------------------------

  /** With the default 25/5/15/4 durations, after reset and start, the 50% flag is raised on tick 750. */
  lemma DefaultScenario(c: Core)
    ensures var s := Start(Reset(Default, c));
      && !Run(Default, s, 749).notified50 && Run(Default, s, 750).notified50
  {
    ResetState(Default, c);
    var s := Start(Reset(Default, c));
    assert s == Fresh(Default, Focus, 0, true);
    PhaseTimeline(Default, Focus, 0, true, 749);
    PhaseTimeline(Default, Focus, 0, true, 750);
  }

  /** With the default durations, the 25% flag is raised on tick 1125 of the first focus phase. */
  lemma DefaultScenarioQuarter(c: Core)
    ensures var s := Start(Reset(Default, c));
      && !Run(Default, s, 1124).notified25 && Run(Default, s, 1125).notified25
  {
    ResetState(Default, c);
    var s := Start(Reset(Default, c));
    assert s == Fresh(Default, Focus, 0, true);
    PhaseTimeline(Default, Focus, 0, true, 1124);
    PhaseTimeline(Default, Focus, 0, true, 1125);
  }

  /**
   * With the default durations, the clock reads zero after 1500 ticks still
   * in focus, and tick 1501 enters a running 5-minute break with one session
   * counted.
   */
  lemma DefaultScenarioEnd(c: Core)
    ensures var s := Start(Reset(Default, c));
      && Run(Default, s, 1500) == Core(Focus, 0, 0, true, true, true)
      && Run(Default, s, 1501) == Core(Break, 300, 1, false, false, true)
  {
    ResetState(Default, c);
    var s := Start(Reset(Default, c));
    assert s == Fresh(Default, Focus, 0, true);
    PhaseLastsTotalPlusOne(Default, Focus, 0);
  }
}
