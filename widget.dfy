/**
 * The `ChibiTomo` widget's timer as an object: the fields `_tick`,
 * `_update_display`, `start`, `pause`, `reset`, `set_phase`, `_apply_mode`
 * and `_show_custom_settings` update in place, the texts and ring values on
 * screen, and the log of every notification raised. Each method is proved to
 * move the timer fields exactly as the matching function of module Timer
 * does, so the lemmas proved there hold of the object; the class invariant
 * adds what only the object sees: the screen matches the state, and each
 * threshold notification was raised at most once in the current phase.
 */
module Widget {
  import opened Timer
  import opened Display
  import opened Notify

  /**
   * `added` are the threshold notifications a refresh raises: one if the 50%
   * notification fires and one if the 25% one fires, the 50% one first, each
   * what `_notify` delivers for its title with `message`.
   */
  ghost predicate ThresholdAlerts(added: seq<Alert>, fires50: bool, fires25: bool, message: string, popup: bool, sound: bool)
  {
    && |added| == (if fires50 then 1 else 0) + (if fires25 then 1 else 0)
    && (fires50 ==> Delivers(added[0], Title50, message, popup, sound))
    && (fires25 ==> Delivers(added[|added| - 1], Title25, message, popup, sound))
  }

  class ChibiTomo {
    var durations: Durations
    var phase: Phase
    var secs: int
    var sessionCount: int
    var notified50: bool
    var notified25: bool
    /** Whether the 1-second `QTimer` runs. */
    var timerActive: bool
    /** The popup and sound preferences `_notify` reads from the settings store. */
    var notifyPopup: bool
    var notifySound: bool
    /** What the time label, the session label and the progress ring show. */
    var timeText: string
    var sessionText: string
    var sessionShown: bool
    var ringColor: string
    var ring: Fraction
    /** Every notification raised so far, oldest first. */
    var alerts: seq<Alert>
    /** Where the alerts of the current phase start in `alerts`. */
    ghost var phaseStart: nat

    function Snapshot(): Core
      reads this`phase, this`secs, this`sessionCount, this`notified50, this`notified25, this`timerActive
    {
      Core(phase, secs, sessionCount, notified50, notified25, timerActive)
    }

    /** The time label and the ring show the remaining time. */
    predicate ShowsTime()
      reads this`durations, this`phase, this`secs, this`timeText, this`ring
    {
      timeText == TimeText(secs) && ring == Progress(secs, TotalSeconds(durations, phase))
    }

    /** The session label is shown, with the session number, exactly in focus. */
    predicate ShowsSession()
      reads this`durations, this`phase, this`sessionCount, this`sessionShown, this`sessionText
    {
      && durations.sessions >= 1
      && (sessionShown <==> phase == Focus)
      && (phase == Focus ==> sessionText == SessionLabel(sessionCount, durations.sessions))
    }

    /** The labels and the ring show the current state. */
    predicate Shows()
      reads this`durations, this`phase, this`secs, this`sessionCount
      reads this`timeText, this`ring, this`ringColor, this`sessionShown, this`sessionText
    {
      ShowsTime() && ringColor == PhaseColor(phase) && ShowsSession()
    }

    /**
     * The notifications raised in the current phase are the threshold
     * notifications whose flags are set, the 50% one first: each was raised
     * once if its flag is set and never otherwise.
     */
    ghost predicate Accounted()
      reads this`alerts, this`phaseStart, this`notified50, this`notified25
    {
      && phaseStart <= |alerts|
      && |alerts| - phaseStart == (if notified50 then 1 else 0) + (if notified25 then 1 else 0)
      && (notified50 ==> alerts[phaseStart].title == Title50)
      && (notified25 ==> alerts[|alerts| - 1].title == Title25)
    }

    ghost predicate Valid()
      reads this
    {
      Inv(durations, Snapshot()) && Shows() && Accounted()
    }

    /**
     * `__init__`: the default durations and a stopped timer, then the
     * durations and preferences loaded from the settings store, then
     * `reset()`.
     */
    constructor (d: Durations, popup: bool, sound: bool)
      requires Positive(d)
      ensures Valid()
      ensures durations == d && notifyPopup == popup && notifySound == sound
      ensures Snapshot() == Core(Focus, d.focus * 60, 0, false, false, false)
      ensures alerts == []
    {
      durations := Default;
      notified50, notified25 := false, false;
      phase := Focus;
      sessionCount := 0;
      secs := Default.focus * 60;
      timerActive := false;
      timeText, sessionText, sessionShown := "25:00", " ", true;
      ringColor, ring := "#f28fad", Fraction(1, 1);
      alerts, phaseStart := [], 0;
      notifyPopup, notifySound := popup, sound;
      new;
      durations := d;
      ghost var before := Snapshot();
      Reset();
      ResetState(d, before);
    }

    /**
     * `_notify(title, message)`: one alert delivered under the current
     * preferences, the message picked at random; `added` is that alert.
     */
    method Notify(title: string, message: string) returns (ghost added: Alert)
      modifies this`alerts
      ensures alerts == old(alerts) + [added]
      ensures added.title == title && Delivers(added, title, message, notifyPopup, notifySound)
    {
      var k :| 0 <= k < PoolSize;
      var a := NotifyAlert(title, message, notifyPopup, notifySound, k);
      alerts := alerts + [a];
      added := a;
    }

    /**
     * `_update_display()`: the labels and ring show the state, and the
     * threshold notifications due are raised, the 50% one before the 25% one,
     * each with the remaining time as message; `added` are the alerts raised.
     */
    method UpdateDisplay() returns (ghost added: seq<Alert>)
      modifies this`timeText, this`ring, this`sessionText, this`sessionShown
      modifies this`alerts, this`notified50, this`notified25
      requires Inv(durations, Snapshot()) && Accounted() && ringColor == PhaseColor(phase)
      ensures Valid()
      ensures Snapshot() == Refresh(durations, old(Snapshot()))
      ensures alerts == old(alerts) + added
      ensures ThresholdAlerts(added, Fires50(durations, old(Snapshot())), Fires25(durations, old(Snapshot())),
                              LeftText(secs), notifyPopup, notifySound)
      ensures durations == old(durations) && notifyPopup == old(notifyPopup) && notifySound == old(notifySound)
    {
      var total := ShowTime();
      added := NotifyDue(total);
      assert ShowsTime() && Inv(durations, Snapshot()) && Accounted();
      ShowSession();
      assert ShowsTime() && Inv(durations, Snapshot()) && Accounted();
    }

    /** The first part of `_update_display()`: the time label and the ring show the remaining time. */
    method ShowTime() returns (total: int)
      modifies this`timeText, this`ring
      ensures total == TotalSeconds(durations, phase) && ShowsTime()
      ensures Snapshot() == old(Snapshot()) && Accounted() == old(Accounted())
      ensures durations == old(durations) && notifyPopup == old(notifyPopup) && notifySound == old(notifySound)
    {
      timeText := TimeText(secs);
      total := TotalSeconds(durations, phase);
      ring := Progress(secs, total);
    }

    /** The last part of `_update_display()`: the session label is updated and shown in focus, and hidden otherwise. */
    method ShowSession()
      modifies this`sessionText, this`sessionShown
      requires durations.sessions >= 1
      ensures ShowsSession()
      ensures phase != Focus ==> sessionText == old(sessionText)
      ensures Snapshot() == old(Snapshot()) && Accounted() == old(Accounted()) && ShowsTime() == old(ShowsTime())
      ensures durations == old(durations) && notifyPopup == old(notifyPopup) && notifySound == old(notifySound)
    {
      if phase == Focus {
        sessionText := SessionLabel(sessionCount, durations.sessions);
        sessionShown := true;
      } else {
        sessionShown := false;
      }
    }

    /**
     * The notification part of `_update_display()`: while the timer runs,
     * the 50% notification and then the 25% one, each when its threshold is
     * met and its flag is clear, and the flag is raised.
     */
    method NotifyDue(total: int) returns (ghost added: seq<Alert>)
      modifies this`alerts, this`notified50, this`notified25
      requires total == TotalSeconds(durations, phase)
      requires Inv(durations, Snapshot()) && Accounted()
      ensures Inv(durations, Snapshot()) && Accounted()
      ensures Snapshot() == Refresh(durations, old(Snapshot()))
      ensures alerts == old(alerts) + added
      ensures ThresholdAlerts(added, Fires50(durations, old(Snapshot())), Fires25(durations, old(Snapshot())),
                              LeftText(secs), notifyPopup, notifySound)
      ensures durations == old(durations) && notifyPopup == old(notifyPopup) && notifySound == old(notifySound)
    {
      added := [];
      if total > 0 && timerActive {
        if HalfLeft(secs, total) && !notified50 {
          var a := Notify(Title50, LeftText(secs));
          added := added + [a];
          notified50 := true;
        }
        if QuarterLeft(secs, total) && !notified25 {
          var a := Notify(Title25, LeftText(secs));
          added := added + [a];
          notified25 := true;
        }
      }
    }

    /** `start()`: arms the timer and nothing else. */
    method Start()
      modifies this`timerActive
      ensures Snapshot() == Timer.Start(old(Snapshot()))
      ensures old(Valid()) ==> Valid()
      ensures durations == old(durations) && notifyPopup == old(notifyPopup) && notifySound == old(notifySound)
    {
      timerActive := true;
    }

    /** `pause()`: stops the timer and nothing else. */
    method Pause()
      modifies this`timerActive
      ensures Snapshot() == Timer.Pause(old(Snapshot()))
      ensures old(Valid()) ==> Valid()
      ensures durations == old(durations) && notifyPopup == old(notifyPopup) && notifySound == old(notifySound)
    {
      timerActive := false;
    }

    /**
     * `set_phase(p)`: full time for `p`, both flags clear, the ring in the
     * phase's colour; no notification is raised and the alerts of the new
     * phase start here.
     */
    method SetPhase(p: Phase)
      modifies this`phase, this`secs, this`notified50, this`notified25, this`ringColor, this`ring, this`phaseStart
      modifies this`timeText, this`sessionText, this`sessionShown, this`alerts
      requires Positive(durations) && sessionCount >= 0
      ensures Snapshot() == EnterPhase(durations, old(Snapshot()), p)
      ensures Valid()
      ensures alerts == old(alerts) && phaseStart == |alerts|
      ensures durations == old(durations) && notifyPopup == old(notifyPopup) && notifySound == old(notifySound)
    {
      EnterFresh(p);
      FreshIsQuiet(durations, p, sessionCount, timerActive);
      EnterPhaseIsFresh(durations, old(Snapshot()), p);
      ghost var added := UpdateDisplay();
    }

    /**
     * The first part of `set_phase(p)`: phase `p` with its full time and
     * both flags clear, the ring in the phase's colour and full; the alerts
     * of the new phase start here.
     */
    method EnterFresh(p: Phase)
      modifies this`phase, this`secs, this`notified50, this`notified25, this`ringColor, this`ring, this`phaseStart
      ensures Snapshot() == Fresh(durations, p, sessionCount, timerActive)
      ensures ringColor == PhaseColor(p) && ring == Progress(secs, TotalSeconds(durations, p))
      ensures phaseStart == |alerts| && Accounted()
    {
      phase := p;
      notified50, notified25 := false, false;
      if p == Focus {
        secs := durations.focus * 60;
      } else if p == Break {
        secs := durations.brk * 60;
      } else {
        secs := durations.longBrk * 60;
      }
      ringColor := PhaseColor(p);
      ring := Progress(secs, TotalSeconds(durations, phase));
      phaseStart := |alerts|;
    }

    /** `reset()`: stopped, no sessions, back in focus with full time. */
    method Reset()
      modifies this
      requires Positive(durations)
      ensures Snapshot() == Timer.Reset(durations, old(Snapshot()))
      ensures Valid()
      ensures durations == old(durations) && notifyPopup == old(notifyPopup) && notifySound == old(notifySound)
      ensures alerts == old(alerts) && phaseStart == |alerts|
    {
      Pause();
      sessionCount := 0;
      notified50, notified25 := false, false;
      SetPhase(Focus);
    }

    /** `_apply_mode(...)` with a preset of the mode menu (or any positive durations): new durations, then `reset()`. */
    method ApplyMode(d: Durations)
      modifies this
      requires Positive(d)
      ensures durations == d
      ensures Snapshot() == Timer.Reset(d, old(Snapshot()))
      ensures Valid()
      ensures notifyPopup == old(notifyPopup) && notifySound == old(notifySound) && alerts == old(alerts)
    {
      durations := d;
      Reset();
    }

    /**
     * `_show_custom_settings()`, with the dialog's outcome as parameters:
     * when accepted, the spin-box values become the durations and the timer
     * is reset; when cancelled, nothing changes.
     */
    method ShowCustomSettings(accepted: bool, d: Durations)
      modifies this
      requires InDialogRange(d)
      ensures accepted ==> durations == d && Snapshot() == Timer.Reset(d, old(Snapshot())) && Valid()
      ensures accepted ==> alerts == old(alerts) && notifyPopup == old(notifyPopup) && notifySound == old(notifySound)
      ensures !accepted ==> unchanged(this)
    {
      if accepted {
        durations := d;
        Reset();
      }
    }

    /**
     * `_tick()`: with time left, one second less and a refresh of the
     * display; with none, the phase change of `AdvancePhase`.
     */
    method Tick() returns (ghost added: seq<Alert>)
      modifies this`phase, this`secs, this`sessionCount, this`notified50, this`notified25, this`timerActive
      modifies this`ringColor, this`ring, this`phaseStart, this`timeText, this`sessionText, this`sessionShown, this`alerts
      requires Valid()
      ensures Valid()
      ensures Snapshot() == Timer.Tick(durations, old(Snapshot()))
      ensures alerts == old(alerts) + added
      ensures old(secs) <= 0 ==> added == [CompletionAlert(old(phase))] && phaseStart == |alerts|
      ensures old(secs) > 0 ==>
        ThresholdAlerts(added, Fires50(durations, old(Snapshot()).(secs := old(secs) - 1)),
                        Fires25(durations, old(Snapshot()).(secs := old(secs) - 1)),
                        LeftText(secs), notifyPopup, notifySound)
    {
      if secs <= 0 {
        AdvancePhase();
        added := [CompletionAlert(old(phase))];
      } else {
        secs := secs - 1;
        added := UpdateDisplay();
      }
    }

    /**
     * The phase change of `_tick()`, when no time is left: the timer
     * stopped, the completion alert of the phase that ended, one more session
     * after focus, the next phase entered, and the timer started again.
     */
    method AdvancePhase()
      modifies this`phase, this`secs, this`sessionCount, this`notified50, this`notified25, this`timerActive
      modifies this`ringColor, this`ring, this`phaseStart, this`timeText, this`sessionText, this`sessionShown, this`alerts
      requires Valid() && secs <= 0
      ensures Valid()
      ensures Snapshot() == Timer.Tick(durations, old(Snapshot()))
      ensures alerts == old(alerts) + [CompletionAlert(old(phase))] && phaseStart == |alerts|
    {
      Pause();
      var done := CompletionAlert(phase);
      alerts := alerts + [done];
      var (next, count) := NextPhase(phase, sessionCount, durations.sessions);
      sessionCount := count;
      SetPhase(next);
      Start();
    }
  }

  /** In every valid state no notification title occurs twice among the alerts of the current phase. */
  lemma PhaseAlertsOnce(w: ChibiTomo)
    requires w.Valid()
    ensures forall i, j :: w.phaseStart <= i < j < |w.alerts| ==> w.alerts[i].title != w.alerts[j].title
  {
    ThresholdTitlesDiffer();
  }
}
