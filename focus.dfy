/**
 * The focus screen's timer controller (app/focus.tsx).  The six pieces of
 * React state become the fields of `Timer`; each handler is a method whose
 * new state is given by a transition function on `Session`, and the lemmas
 * below say what those transitions do.  One `Tick` is one firing of the
 * one-second interval, or the effect's immediate phase switch.
 */
module Focus {
  import opened Optional
  import opened JsText

  /** The timer screen's state: the two text fields, the countdown and three flags. */
  datatype Session = Session(focusMinutes: string, breakMinutes: string, timeLeft: int,
                             isActive: bool, isBreak: bool, showSettings: bool)

  /** `!isNaN(p) && p > 0 ? p : fallback` */
  function PositiveOr(p: IntOrNaN, fallback: int): int {
    if p.Num? && p.value > 0 then p.value else fallback
  }

  /** The minutes the settings and the phase switch use: the parsed text if positive, else the default. */
  function ValidFocus(s: Session): int { PositiveOr(ParseInt(s.focusMinutes), 60) }
  function ValidBreak(s: Session): int { PositiveOr(ParseInt(s.breakMinutes), 10) }

  /** The state on entering the screen: both fields hold "0". */
  function Initial(): Session {
    Session("0", "0", 0, false, false, false)
  }

  function AfterApply(s: Session): Session {
    var validFocus := ValidFocus(s);
    var validBreak := ValidBreak(s);
    s.(timeLeft := validFocus * 60, focusMinutes := IntToString(validFocus),
       breakMinutes := IntToString(validBreak), isBreak := false, isActive := false,
       showSettings := false)
  }

  function AfterClear(s: Session): Session {
    Session("60", "10", 0, false, false, false)
  }

  function AfterTick(s: Session): Session {
    if s.isActive && s.timeLeft > 0 then
      s.(timeLeft := s.timeLeft - 1)
    else if s.isActive && s.timeLeft == 0 then
      if !s.isBreak then s.(timeLeft := ValidBreak(s) * 60, isBreak := true, isActive := false)
      else s.(timeLeft := ValidFocus(s) * 60, isBreak := false, isActive := false)
    else
      s
  }

  function AfterToggle(s: Session): Session {
    s.(isActive := !s.isActive)
  }

  function AfterReset(s: Session): Session {
    var validFocus := PositiveOr(ParseInt(s.focusMinutes), 0);
    var validBreak := PositiveOr(ParseInt(s.breakMinutes), 0);
    s.(timeLeft := if s.isBreak then validBreak * 60 else validFocus * 60, isActive := false)
  }

  /** Everything the user (or the interval) can do on the focus screen. */
  datatype Event =
    | EditFocus(text: string) | EditBreak(text: string)
    | OpenSettings | CancelSettings | Apply | Clear
    | Toggle | Reset | Tick

  function Step(s: Session, e: Event): Session {
    match e
    case EditFocus(text) => s.(focusMinutes := text)
    case EditBreak(text) => s.(breakMinutes := text)
    case OpenSettings => s.(showSettings := true)
    case CancelSettings => s.(showSettings := false)
    case Apply => AfterApply(s)
    case Clear => AfterClear(s)
    case Toggle => AfterToggle(s)
    case Reset => AfterReset(s)
    case Tick => AfterTick(s)
  }

  function Run(s: Session, events: seq<Event>): Session
    decreases |events|
  {
    if events == [] then s else Run(Step(s, events[0]), events[1..])
  }

  function Ticks(n: nat): (r: seq<Event>)
    ensures |r| == n && forall i :: 0 <= i < n ==> r[i] == Tick
  {
    if n == 0 then [] else [Tick] + Ticks(n - 1)
  }

  /** `formatTime`: `Math.floor(seconds / 60)` and `seconds % 60`, each padded to two digits. */
  function FormatTime(seconds: int): string {
    var mins := seconds / 60;   // Dafny's division by a positive divisor rounds down, as Math.floor does
    var secs := Rem(seconds, 60);
    PadStart2(IntToString(mins)) + ":" + PadStart2(IntToString(secs))
  }

  /** The text on the clock face (app/focus.tsx line 146). */
  function TimerText(s: Session): string {
    if s.timeLeft > 0 then FormatTime(s.timeLeft) else "00:00"
  }

  /** Reads a `MM:SS` clock face back into its minutes and seconds fields. */
  function ClockFields(text: string): Option<(int, int)> {
    var n := |text|;
    if n >= 5 && text[n - 3] == ':' && AllDigits(text[..n - 3]) && AllDigits(text[n - 2..])
    then Some((DigitsValue(text[..n - 3]), DigitsValue(text[n - 2..])))
    else None
  }

  // ---------------------------------------------------------------- applySettings

  /** Apply uses each parsed value when it is a positive integer and the default 60 / 10 otherwise. */
  lemma ApplyUsesParsedOrDefault(s: Session)
    ensures var a := AfterApply(s);
      (ParseInt(s.focusMinutes).Num? && ParseInt(s.focusMinutes).value > 0 ==>
         a.timeLeft == ParseInt(s.focusMinutes).value * 60
         && a.focusMinutes == IntToString(ParseInt(s.focusMinutes).value))
      && (!(ParseInt(s.focusMinutes).Num? && ParseInt(s.focusMinutes).value > 0) ==>
         a.timeLeft == 3600 && a.focusMinutes == "60")
      && (ParseInt(s.breakMinutes).Num? && ParseInt(s.breakMinutes).value > 0 ==>
         a.breakMinutes == IntToString(ParseInt(s.breakMinutes).value))
      && (!(ParseInt(s.breakMinutes).Num? && ParseInt(s.breakMinutes).value > 0) ==>
         a.breakMinutes == "10")
  {
    assert NatToString(60) == "60" by { assert NatToString(6) == "6"; }
    assert NatToString(10) == "10" by { assert NatToString(1) == "1"; }
  }

  /**
   * After Apply the session is a primed, paused Focus countdown, settings
   * closed, and the two texts are canonical numerals of the durations in use.
   */
  lemma ApplyPrimesFocus(s: Session)
    ensures var a := AfterApply(s);
      !a.isActive && !a.isBreak && !a.showSettings
      && a.timeLeft == ValidFocus(s) * 60 && ValidFocus(s) > 0
      && a.focusMinutes == IntToString(ValidFocus(s)) && a.breakMinutes == IntToString(ValidBreak(s))
      && AllDigits(a.focusMinutes) && a.focusMinutes[0] != '0'
      && AllDigits(a.breakMinutes) && a.breakMinutes[0] != '0'
      && ParseInt(a.focusMinutes) == Num(ValidFocus(s))
      && ParseInt(a.breakMinutes) == Num(ValidBreak(s))
      && ValidFocus(a) == ValidFocus(s) && ValidBreak(a) == ValidBreak(s)
  {
    var v, w := ValidFocus(s), ValidBreak(s);
    var a := AfterApply(s);
    assert a.timeLeft == v * 60 && a.focusMinutes == IntToString(v) && a.breakMinutes == IntToString(w);
    IntToStringReadsBack(v);
    IntToStringReadsBack(w);
  }

  /** Applying the settings twice is the same as applying them once. */
  lemma ApplyIdempotent(s: Session)
    ensures AfterApply(AfterApply(s)) == AfterApply(s)
  {
    ApplyPrimesFocus(s);
  }

  /** Apply with "25" and "5" primes a 25-minute focus countdown. */
  lemma ApplyExample(s: Session)
    requires s.focusMinutes == "25" && s.breakMinutes == "5"
    ensures AfterApply(s) == s.(timeLeft := 1500, isActive := false, isBreak := false, showSettings := false)
  {
    assert IntToString(25) == "25" by { assert NatToString(2) == "2"; }
    IntToStringReadsBack(25);
    assert IntToString(5) == "5";
    IntToStringReadsBack(5);
  }

  // ---------------------------------------------------------------- clearSession

  /** Clear leaves "60" / "10", 00:00, paused, Focus, settings closed, whatever the state was. */
  lemma ClearFromAnyState(s: Session)
    ensures var c := AfterClear(s);
      c.focusMinutes == "60" && c.breakMinutes == "10" && c.timeLeft == 0
      && !c.isActive && !c.isBreak && !c.showSettings && TimerText(c) == "00:00"
  {
  }

  // ---------------------------------------------------------------- the tick

  /** A tick while counting down takes exactly one second off and changes nothing else. */
  lemma TickCountsDown(s: Session)
    requires s.isActive && s.timeLeft > 0
    ensures AfterTick(s) == s.(timeLeft := s.timeLeft - 1)
    ensures AfterTick(s).timeLeft >= 0
  {
  }

  /**
   * A tick while running at 0 switches phase, loads the new phase's minutes
   * (60 / 10 for text that is not a positive integer) and pauses.
   */
  lemma TickSwitchesPhase(s: Session)
    requires s.isActive && s.timeLeft == 0
    ensures var t := AfterTick(s);
      t.isBreak == !s.isBreak && !t.isActive
      && t.timeLeft == (if t.isBreak then ValidBreak(s) else ValidFocus(s)) * 60
      && t.timeLeft > 0
      && t.focusMinutes == s.focusMinutes && t.breakMinutes == s.breakMinutes
      && t.showSettings == s.showSettings
  {
  }

  /** While paused, ticks change nothing. */
  lemma TickWhilePaused(s: Session)
    requires !s.isActive
    ensures AfterTick(s) == s
  {
  }

  /** Ticks while paused, however many, change nothing. */
  lemma {:induction false} TicksWhilePaused(s: Session, n: nat)
    requires !s.isActive
    ensures Run(s, Ticks(n)) == s
  {
    if n > 0 {
      assert Ticks(n)[1..] == Ticks(n - 1);
      TicksWhilePaused(s, n - 1);
    }
  }

  /** `n` ticks of a running countdown with at least `n` seconds left take off exactly `n` seconds. */
  lemma {:induction false} TicksCountDown(s: Session, n: nat)
    requires s.isActive && n <= s.timeLeft
    ensures Run(s, Ticks(n)) == s.(timeLeft := s.timeLeft - n)
    decreases n
  {
    if n > 0 {
      assert Ticks(n)[1..] == Ticks(n - 1);
      TicksCountDown(AfterTick(s), n - 1);
    }
  }

  /**
   * A running countdown with `t` seconds left reaches the phase switch on
   * tick `t + 1`, and the switch leaves the timer paused in the other phase.
   */
  lemma FullCountdownSwitchesPhase(s: Session)
    requires s.isActive && s.timeLeft >= 0
    ensures var t := Run(s, Ticks(s.timeLeft + 1));
      t == AfterTick(s.(timeLeft := 0)) && t.isBreak == !s.isBreak && !t.isActive
  {
    var n := s.timeLeft;
    var ticks := Ticks(n + 1);
    assert ticks == Ticks(n) + [Tick];
    RunAppend(s, Ticks(n), [Tick]);
    TicksCountDown(s, n);
    assert [Tick][1..] == [];
  }

  lemma {:induction false} RunAppend(s: Session, a: seq<Event>, b: seq<Event>)
    ensures Run(s, a + b) == Run(Run(s, a), b)
    decreases |a|
  {
    if a != [] {
      assert (a + b)[1..] == a[1..] + b;
      RunAppend(Step(s, a[0]), a[1..], b);
    } else {
      assert a + b == b;
    }
  }

  /** A running Focus countdown at 1 s ticks to 0 s, still running, still Focus. */
  lemma TickFromOneSecond(s: Session)
    requires s.isActive && !s.isBreak && s.timeLeft == 1
    ensures var t := AfterTick(s); t.timeLeft == 0 && t.isActive && !t.isBreak
  {
  }

  /** A running Focus countdown at 0 s with "25" / "5" switches to a paused 5-minute Break. */
  lemma TickSwitchExample(s: Session)
    requires s.isActive && !s.isBreak && s.timeLeft == 0
    requires s.focusMinutes == "25" && s.breakMinutes == "5"
    ensures var t := AfterTick(s); t.isBreak && t.timeLeft == 300 && !t.isActive
  {
    assert IntToString(5) == "5";
    IntToStringReadsBack(5);
  }

  // ---------------------------------------------------------------- toggle / reset

  /** Toggle flips only `isActive`, so toggling twice restores the state. */
  lemma ToggleTwiceRestores(s: Session)
    ensures AfterToggle(s).isActive == !s.isActive
    ensures AfterToggle(s).(isActive := s.isActive) == s
    ensures AfterToggle(AfterToggle(s)) == s
  {
  }

  /** Start on a cleared session: the immediate switch gives a paused 10-minute Break. */
  lemma ClearToggleTick(s: Session)
    ensures var t := AfterTick(AfterToggle(AfterClear(s)));
      t.isBreak && t.timeLeft == 600 && !t.isActive
  {
    assert IntToString(10) == "10" by { assert NatToString(1) == "1"; }
    IntToStringReadsBack(10);
  }

  /**
   * Reset pauses, keeps the phase, and loads the current phase's parsed
   * minutes, or 0 when that text is not a positive integer.
   */
  lemma ResetLoadsCurrentPhase(s: Session)
    ensures var r := AfterReset(s);
      var p := ParseInt(if s.isBreak then s.breakMinutes else s.focusMinutes);
      !r.isActive && r.isBreak == s.isBreak
      && r.focusMinutes == s.focusMinutes && r.breakMinutes == s.breakMinutes
      && r.showSettings == s.showSettings
      && (p.Num? && p.value > 0 ==> r.timeLeft == p.value * 60)
      && (!(p.Num? && p.value > 0) ==> r.timeLeft == 0)
  {
  }

  /** Resetting twice is the same as resetting once. */
  lemma ResetIdempotent(s: Session)
    ensures AfterReset(AfterReset(s)) == AfterReset(s)
  {
  }

  /** Reset during a Break whose text is "10" loads 600 s. */
  lemma ResetBreakExample(s: Session)
    requires s.isBreak && s.breakMinutes == "10"
    ensures AfterReset(s).timeLeft == 600 && !AfterReset(s).isActive && AfterReset(s).isBreak
  {
    assert IntToString(10) == "10" by { assert NatToString(1) == "1"; }
    IntToStringReadsBack(10);
  }

  /**
   * Reset and the phase switch fall back differently: on entering the screen
   * (both texts "0") Reset loads 0 s, while Start and the phase switch load a paused 10-minute Break.
   */
  lemma ResetAndSwitchFallbacksDiffer()
    ensures AfterReset(Initial()).timeLeft == 0
    ensures AfterTick(AfterToggle(Initial())).timeLeft == 600
    ensures AfterTick(AfterToggle(Initial())).isBreak && !AfterTick(AfterToggle(Initial())).isActive
  {
    IntToStringReadsBack(0);
  }

  // ---------------------------------------------------------------- invariants

  /** Every step keeps the countdown non-negative. */
  lemma StepKeepsNonNegative(s: Session, e: Event)
    requires s.timeLeft >= 0
    ensures Step(s, e).timeLeft >= 0
  {
  }

  /** From any state with a non-negative countdown, no sequence of events makes it negative. */
  lemma {:induction false} RunKeepsNonNegative(s: Session, events: seq<Event>)
    requires s.timeLeft >= 0
    ensures Run(s, events).timeLeft >= 0
    decreases |events|
  {
    if events != [] {
      StepKeepsNonNegative(s, events[0]);
      RunKeepsNonNegative(Step(s, events[0]), events[1..]);
    }
  }

  /**
   * "timeLeft ≤ the current phase's duration" is not an invariant: the
   * focus text can be edited without pressing Apply.
   */
  lemma CountdownMayExceedPhaseDuration()
    ensures var s := Step(Step(Step(Initial(), EditFocus("25")), Apply), EditFocus("5"));
      s.timeLeft == 1500 && !s.isBreak && ValidFocus(s) * 60 == 300
  {
    assert IntToString(25) == "25" by { assert NatToString(2) == "2"; }
    IntToStringReadsBack(25);
    assert IntToString(5) == "5";
    IntToStringReadsBack(5);
  }

  // ---------------------------------------------------------------- the clock face

  /**
   * For a non-negative count the clock face reads back as `s / 60` minutes
   * and `s % 60` seconds, whose recombination is `s`; the seconds field is
   * exactly two digits and the minutes field at least two.
   */
  lemma FormatTimeReadsBack(s: int)
    requires s >= 0
    ensures ClockFields(FormatTime(s)) == Some((s / 60, s % 60))
    ensures (s / 60) * 60 + s % 60 == s && s % 60 < 60
  {
    var m, ss := s / 60, s % 60;
    assert Rem(s, 60) == ss;
    assert FormatTime(s) == PadStart2(NatToString(m)) + ":" + PadStart2(NatToString(ss));
    ClockFaceReadsBack(m, ss);
  }

  lemma ClockFaceReadsBack(m: nat, ss: nat)
    requires ss < 60
    ensures ClockFields(PadStart2(NatToString(m)) + ":" + PadStart2(NatToString(ss))) == Some((m, ss))
  {
    PaddedNumeral(m);
    PaddedNumeral(ss);
    ClockFieldsOfDigits(PadStart2(NatToString(m)), PadStart2(NatToString(ss)));
  }

  lemma ClockFieldsOfDigits(mm: string, sc: string)
    requires AllDigits(mm) && AllDigits(sc) && |mm| >= 2 && |sc| == 2
    ensures ClockFields(mm + ":" + sc) == Some((DigitsValue(mm), DigitsValue(sc)))
  {
    var r := mm + ":" + sc;
    assert r[..|r| - 3] == mm;
    assert r[|r| - 2..] == sc;
    assert r[|r| - 3] == ':';
  }

  /** The clock face shows `formatTime(timeLeft)` for every value the countdown can hold, and 00:00 when it is not positive. */
  lemma TimerTextShowsCountdown(s: Session)
    ensures s.timeLeft <= 0 ==> TimerText(s) == "00:00"
    ensures s.timeLeft >= 0 ==> TimerText(s) == FormatTime(s.timeLeft)
  {
    assert IntToString(0) == "0";
    assert PadStart2("0") == "00";
  }

  // ---------------------------------------------------------------- the screen's state

  /** The focus screen: its React state as fields, its handlers as methods. */
  class Timer {
    var focusMinutes: string
    var breakMinutes: string
    var timeLeft: int
    var isActive: bool
    var isBreak: bool
    var showSettings: bool

    function State(): Session
      reads this
    {
      Session(focusMinutes, breakMinutes, timeLeft, isActive, isBreak, showSettings)
    }

    ghost predicate Valid()
      reads this
    {
      timeLeft >= 0
    }

    constructor ()
      ensures Valid() && State() == Initial()
    {
      focusMinutes, breakMinutes := "0", "0";
      timeLeft := 0;
      isActive, isBreak, showSettings := false, false, false;
    }

    /** The focus field's `onChangeText`. */
    method SetFocusMinutes(text: string)
      requires Valid()
      modifies this
      ensures Valid() && State() == Step(old(State()), EditFocus(text))
    {
      focusMinutes := text;
    }

    /** The break field's `onChangeText`. */
    method SetBreakMinutes(text: string)
      requires Valid()
      modifies this
      ensures Valid() && State() == Step(old(State()), EditBreak(text))
    {
      breakMinutes := text;
    }

    /** The Customize button. */
    method OpenSettings()
      requires Valid()
      modifies this
      ensures Valid() && State() == Step(old(State()), Event.OpenSettings)
    {
      showSettings := true;
    }

    /** The settings view's Cancel button. */
    method CancelSettings()
      requires Valid()
      modifies this
      ensures Valid() && State() == Step(old(State()), Event.CancelSettings)
    {
      showSettings := false;
    }

    method ApplySettings()
      requires Valid()
      modifies this
      ensures Valid() && State() == AfterApply(old(State()))
    {
      var focus := ParseInt(focusMinutes);
      var brk := ParseInt(breakMinutes);
      var validFocus := PositiveOr(focus, 60);
      var validBreak := PositiveOr(brk, 10);
      timeLeft := validFocus * 60;
      focusMinutes := IntToString(validFocus);
      breakMinutes := IntToString(validBreak);
      isBreak := false;
      isActive := false;
      showSettings := false;
    }

    method ClearSession()
      requires Valid()
      modifies this
      ensures Valid() && State() == AfterClear(old(State()))
    {
      focusMinutes := "60";
      breakMinutes := "10";
      timeLeft := 0;
      isActive := false;
      isBreak := false;
      showSettings := false;
    }

    /** One evaluation of the timer effect: a countdown second, or the phase switch at 0. */
    method Tick()
      requires Valid()
      modifies this
      ensures Valid() && State() == AfterTick(old(State()))
    {
      var focusVal := ParseInt(focusMinutes);
      var breakVal := ParseInt(breakMinutes);
      var validFocus := PositiveOr(focusVal, 60);
      var validBreak := PositiveOr(breakVal, 10);
      if isActive && timeLeft > 0 {
        timeLeft := timeLeft - 1;
      } else if isActive && timeLeft == 0 {
        if !isBreak {
          timeLeft := validBreak * 60;
          isBreak := true;
        } else {
          timeLeft := validFocus * 60;
          isBreak := false;
        }
        isActive := false;
      }
    }

    method ToggleTimer()
      requires Valid()
      modifies this
      ensures Valid() && State() == AfterToggle(old(State()))
    {
      isActive := !isActive;
    }

    method ResetTimer()
      requires Valid()
      modifies this
      ensures Valid() && State() == AfterReset(old(State()))
    {
      var focusVal := ParseInt(focusMinutes);
      var breakVal := ParseInt(breakMinutes);
      var validFocus := PositiveOr(focusVal, 0);
      var validBreak := PositiveOr(breakVal, 0);
      timeLeft := if isBreak then validBreak * 60 else validFocus * 60;
      isActive := false;
    }
  }
}
