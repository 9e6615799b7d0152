/**
 * Notifications of the widget: `_notify`, which picks a message pool from
 * the title and delivers to the bubble or the tray and optionally a beep,
 * and the phase-completion alert of `_tick`, which goes straight to the tray
 * with a beep whatever the preferences say.
 */
module Notify {
  import opened Text
  import opened Timer

  datatype Option<T> = None | Some(value: T)

  /** A system-tray balloon: title and message. */
  datatype TrayMessage = TrayMessage(title: string, message: string)

  /**
   * One delivered notification: the title it was raised with, the in-app
   * bubble text if a bubble was shown, the tray balloon if one was shown,
   * and whether the application beeped.
   */
  datatype Alert = Alert(title: string, bubble: Option<BubbleText>, tray: Option<TrayMessage>, beep: bool)

  /** Each message pool holds ten messages; `random.choice` picks an index below this. */
  const PoolSize := 10

  const Msgs50: seq<string> := [
    "Halfway there! Keep the momentum going — you’ve got this!",
    "50% done! Every step counts — finish strong.",
    "You’re crushing it! Stay focused, the finish line is in sight.",
    "Halfway is the new beginning — push forward with purpose.",
    "You’ve already proven you can start — now show you can finish.",
    "Half the time’s gone, but the best effort comes now!",
    "Momentum is your friend — don’t stop now!",
    "Midway check: your future self is proud of you already.",
    "Stay locked in. The goal is closer than it seems.",
    "You’re shining already — keep that energy alive!"
  ]

  const Msgs25: seq<string> := [
    "Only 25% left — now’s the time to give your best!",
    "You’ve come so far — don’t let up now!",
    "This is where champions are made — finish with power!",
    "One last push! You’re almost there!",
    "You started strong, now finish stronger.",
    "Final stretch — make it count!",
    "The top is near — keep climbing!",
    "Your focus now is your greatest strength.",
    "You’re 75% done — don’t stop until it’s 100%.",
    "Greatness lives in the final effort. Give it your all!"
  ]

  const MsgsDone: seq<string> := [
    "You made it! Every second counts — and you just proved it!",
    "Victory! Timer complete and you nailed it!",
    "Another win in the books — your consistency is gold!",
    "Boom! That’s how champions finish!",
    "Done and dusted — success unlocked!",
    "Timer’s done — and you shined all the way through!",
    "Bullseye! You stayed the course and hit your mark!",
    "Session complete — your focus paid off big time!",
    "Mission accomplished — onward to greatness!",
    "You gave your best — and it shows. Well done!"
  ]

  /** The titles the display raises its two threshold notifications with. */
  const Title50 := "50% remaining"
  const Title25 := "25% remaining"

  lemma ThresholdTitlesDiffer()
    ensures Title50 != Title25
  {
    assert Title50[0] != Title25[0];
  }

  predicate IsHalfwayTitle(title: string)
  {
    var low := Lower(title);
    Contains(title, "50%") || Contains(low, "50%") || Contains(low, "halfway")
  }

  predicate IsFinalTitle(title: string)
  {
    var low := Lower(title);
    Contains(title, "25%") || Contains(low, "25%") || Contains(low, "final") || Contains(low, "final stretch")
  }

  predicate IsDoneTitle(title: string)
  {
    var low := Lower(title);
    Contains(low, "over") || Contains(low, "done") || Contains(low, "complete") || Contains(low, "time")
  }

  /** The three message pools. */
  datatype Pool = Halfway | FinalStretch | Done

  /** The messages of a pool. */
  function Messages(p: Pool): (m: seq<string>)
    ensures |m| == PoolSize
  {
    match p
    case Halfway => Msgs50
    case FinalStretch => Msgs25
    case Done => MsgsDone
  }

  /** A bubble text: the message at `index` of a pool, or a plain text. */
  datatype BubbleText = PoolText(pool: Pool, index: nat) | Plain(text: string)

  /** The characters a bubble text stands for. */
  function Render(t: BubbleText): string
    requires t.PoolText? ==> t.index < PoolSize
  {
    match t
    case PoolText(p, i) => Messages(p)[i]
    case Plain(s) => s
  }

  /**
   * The text `_notify` shows in the bubble, for the random pick `k`: message
   * `k` of the first pool whose keywords the title contains, else
   * "title: message".
   */
  function ChooseText(title: string, message: string, k: nat): (t: BubbleText)
    requires k < PoolSize
    ensures t.PoolText? ==> t.index == k
  {
    if IsHalfwayTitle(title) then PoolText(Halfway, k)
    else if IsFinalTitle(title) then PoolText(FinalStretch, k)
    else if IsDoneTitle(title) then PoolText(Done, k)
    else Plain(title + ": " + message)
  }

  /**
   * The pool a title draws from: a title containing "50%" always draws from
   * the halfway pool; one containing "25%" and neither "50%" nor "halfway" in
   * any case draws from the final-stretch pool; the text shown is always a
   * message of the three pools or "title: message".
   */
  lemma ChooseTextPools(title: string, message: string, k: nat)
    requires k < PoolSize
    ensures Contains(title, "50%") ==> ChooseText(title, message, k) == PoolText(Halfway, k)
    ensures (Contains(title, "25%") && !Contains(Lower(title), "50%") && !Contains(Lower(title), "halfway"))
              ==> ChooseText(title, message, k) == PoolText(FinalStretch, k)
    ensures Render(ChooseText(title, message, k)) in Msgs50 + Msgs25 + MsgsDone
            || Render(ChooseText(title, message, k)) == title + ": " + message
  {
    HalfwayTestOnLowerSuffices(title);
  }

  /**
   * The "50%" test on the title itself is subsumed by the one on its
   * lower-cased form: a title is a halfway title exactly when its
   * lower-cased form contains "50%" or "halfway".
   */
  lemma HalfwayTestOnLowerSuffices(title: string)
    ensures IsHalfwayTitle(title) <==> Contains(Lower(title), "50%") || Contains(Lower(title), "halfway")
  {
    if Contains(title, "50%") {
      ContainedInLower(title, "50%");
    }
  }

  /** The halfway notification draws its bubble text from the halfway pool. */
  lemma HalfwayTitleDrawsHalfway(message: string, k: nat)
    requires k < PoolSize
    ensures ChooseText(Title50, message, k) == PoolText(Halfway, k)
  {
    ChooseTextPools(Title50, message, k);
    assert Title50[..3] == "50%";
    assert MatchAt(Title50, "50%", 0);
  }

  /** Lower-casing leaves a string without upper-case letters unchanged. */
  lemma LowerOfLowercase(s: string)
    requires forall i :: 0 <= i < |s| ==> !IsUpper(s[i])
    ensures Lower(s) == s
  {
  }

  /**
   * A title with "25%", without upper-case letters, and lacking the
   * characters '0' and 'h' (so neither "50%" nor "halfway") draws from the
   * final-stretch pool.
   */
  lemma FinalStretchTitle(title: string, message: string, k: nat)
    requires k < PoolSize
    requires Contains(title, "25%")
    requires forall i :: 0 <= i < |title| ==> !IsUpper(title[i])
    requires '0' !in title && 'h' !in title
    ensures ChooseText(title, message, k) == PoolText(FinalStretch, k)
  {
    LowerOfLowercase(title);
    MissingCharNotContained(title, "50%", '0');
    MissingCharNotContained(title, "halfway", 'h');
    ChooseTextPools(title, message, k);
  }

  /** The quarter notification draws its bubble text from the final-stretch pool. */
  lemma QuarterTitleDrawsFinal(message: string, k: nat)
    requires k < PoolSize
    ensures ChooseText(Title25, message, k) == PoolText(FinalStretch, k)
  {
    var t := Title25;
    assert t[..3] == "25%";
    assert MatchAt(t, "25%", 0);
    assert forall i :: 0 <= i < |t| ==> !IsUpper(t[i]);
    assert '0' !in t && 'h' !in t;
    FinalStretchTitle(t, message, k);
  }

  /** Which outputs `_notify` uses. */
  datatype Sinks = Sinks(bubble: bool, tray: bool, beep: bool)

  /**
   * `_notify`'s dispatch: the bubble when popups are on, otherwise the tray
   * balloon; a beep whenever sound is on (the source tests sound with popup
   * and sound without popup separately).
   */
  function SelectSinks(popup: bool, sound: bool): (s: Sinks)
    ensures s.bubble <==> popup
    ensures s.tray <==> !popup
    ensures s.beep <==> sound
  {
    Sinks(popup, !popup, (sound && popup) || (sound && !popup))
  }

  /**
   * What one call `_notify(title, message)` delivers for the random pick `k`:
   * a bubble with the chosen text exactly when popups are on, otherwise the
   * plain title and message in the tray; a beep exactly when sound is on.
   */
  function NotifyAlert(title: string, message: string, popup: bool, sound: bool, k: nat): (a: Alert)
    requires k < PoolSize
    ensures a.title == title
    ensures a.bubble.Some? <==> popup
    ensures popup ==> a.bubble.value == ChooseText(title, message, k)
    ensures a.tray == if popup then None else Some(TrayMessage(title, message))
    ensures a.beep <==> sound
  {
    var s := SelectSinks(popup, sound);
    Alert(title,
          if s.bubble then Some(ChooseText(title, message, k)) else None,
          if s.tray then Some(TrayMessage(title, message)) else None,
          s.beep)
  }

  /** `a` is what `_notify(title, message)` delivers for some random pick. */
  ghost predicate Delivers(a: Alert, title: string, message: string, popup: bool, sound: bool)
  {
    exists k: nat :: k < PoolSize && a == NotifyAlert(title, message, popup, sound, k)
  }

  /** The phase names the source stores in `phase`. */
  function PhaseName(p: Phase): string
  {
    match p
    case Focus => "focus"
    case Break => "break"
    case LongBreak => "long_break"
  }

  /** The completion title of each phase, as the tray shows it. */
  function CompletionTitle(p: Phase): string
  {
    match p
    case Focus => "Focus Over!"
    case Break => "Break Over!"
    case LongBreak => "Long Break Over!"
  }

  /** The title `_tick` formats, `f"{phase.replace('_', ' ').title()} Over!"`. */
  function FormattedCompletionTitle(p: Phase): string
  {
    TitleCase(ReplaceChar(PhaseName(p), '_', ' ')) + " Over!"
  }

  lemma LongBreakName()
    ensures ReplaceChar("long_break", '_', ' ') == "long break"
  {
  }

  lemma LongBreakTitle()
    ensures TitleCase("long break") == "Long Break"
  {
  }

  lemma FocusTitle()
    ensures FormattedCompletionTitle(Focus) == "Focus Over!"
  {
  }

  lemma BreakTitle()
    ensures FormattedCompletionTitle(Break) == "Break Over!"
  {
  }

  /** The formatted title of a phase is the phase name with spaces and capitals, then " Over!". */
  lemma FormattedTitleOf(p: Phase, spaced: string, titled: string)
    requires ReplaceChar(PhaseName(p), '_', ' ') == spaced && TitleCase(spaced) == titled
    ensures FormattedCompletionTitle(p) == titled + " Over!"
  {
  }

  lemma LongBreakOver()
    ensures FormattedCompletionTitle(LongBreak) == "Long Break Over!"
  {
    LongBreakName();
    LongBreakTitle();
    FormattedTitleOf(LongBreak, "long break", "Long Break");
  }

  /** The title `_tick` formats from the phase name is the table's completion title, for every phase. */
  lemma CompletionTitles(p: Phase)
    ensures FormattedCompletionTitle(p) == CompletionTitle(p)
  {
    match p
    case Focus => FocusTitle();
    case Break => BreakTitle();
    case LongBreak => LongBreakOver();
  }

  const CompletionMessage := "Time to switch tasks."

  /** The alert `_tick` raises when phase `p` is over. */
  function CompletionAlert(p: Phase): Alert
  {
    Alert(CompletionTitle(p), None, Some(TrayMessage(CompletionTitle(p), CompletionMessage)), true)
  }

  /**
   * The completion alert goes to the tray with a beep and never to the
   * bubble, whatever the popup and sound preferences: unlike what `_notify`
   * delivers under the same title with popups on, it has no bubble, and
   * unlike what it delivers with sound off, it beeps. Its title is neither
   * threshold title.
   */
  lemma CompletionAlertBypassesPreferences(p: Phase, popup: bool, sound: bool, k: nat)
    requires k < PoolSize
    ensures var a := CompletionAlert(p);
      && a.bubble == None && a.tray == Some(TrayMessage(FormattedCompletionTitle(p), CompletionMessage)) && a.beep
      && (popup ==> a != NotifyAlert(a.title, CompletionMessage, popup, sound, k))
      && (!sound ==> a != NotifyAlert(a.title, CompletionMessage, popup, sound, k))
      && a.title != Title50 && a.title != Title25
  {
    CompletionTitles(p);
    assert Title50[0] == '5' && Title25[0] == '2';
    assert CompletionTitle(p)[0] in "FBL";
  }
}
