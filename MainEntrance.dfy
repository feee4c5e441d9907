/**
 * `useMainEntrance`: the entrance sequence of the main screen. Five timers
 * show the frame, start the title scramble, show the footer, show the burger
 * and open the welcome popup; the title "superself" is scrambled by an
 * interval in which every position locks onto its character at its own
 * (jittered) frame, and the interval stops once all nine are locked.
 *
 * Timers are pending entries that a `Fire...` call delivers; the random
 * jitters and glyphs are parameters.
 */
module MainEntrance {
  import opened AppTypes
  import opened Scramble

  const Title := "superself"
  const TitleLength := 9

  datatype Timings = Timings(frame: nat, title: nat, footer: nat, burger: nat, popup: nat)

  /**
   * The delays (ms) of the five steps; the normal-mode popup waits 18000 ms
   * plus a random share `popupJitter` of 4000 ms.
   */
  function TimingsFor(skipMode: bool, popupJitter: nat): (t: Timings)
    requires popupJitter < 4000
    ensures skipMode ==> t == Timings(300, 800, 1500, 2000, 12000)
    ensures !skipMode ==> t.frame == 800 && t.title == 1500 && t.footer == 3500 && t.burger == 5000
    ensures !skipMode ==> 18000 <= t.popup < 22000
  {
    if skipMode then Timings(300, 800, 1500, 2000, 12000)
    else Timings(800, 1500, 3500, 5000, 18000 + popupJitter)
  }

  /** In both modes the steps come strictly one after the other, and skip mode is faster at every step. */
  lemma TimingsOrdered(popupJitter: nat)
    requires popupJitter < 4000
    ensures forall skipMode: bool :: var t := TimingsFor(skipMode, popupJitter);
      t.frame < t.title < t.footer < t.burger < t.popup
    ensures var s, n := TimingsFor(true, popupJitter), TimingsFor(false, popupJitter);
      s.frame < n.frame && s.title < n.title && s.footer < n.footer && s.burger < n.burger && s.popup < n.popup
  {
  }

  function LockMultiplier(skipMode: bool): nat {
    if skipMode then 8 else 14
  }

  function ScrambleSpeed(skipMode: bool): nat {
    if skipMode then 30 else 55
  }

  /** `Math.floor(Math.random() * 8) - 4` lies in [-4, 3]. */
  predicate ValidJitter(jitter: seq<int>) {
    |jitter| == TitleLength && forall i :: 0 <= i < |jitter| ==> -4 <= jitter[i] <= 3
  }

  /** `lockTargets`: position `i` locks at frame `(i + 1) * multiplier + jitter[i]`. */
  function LockTargets(multiplier: nat, jitter: seq<int>): (targets: seq<int>)
    requires ValidJitter(jitter)
    ensures |targets| == TitleLength
    ensures forall i :: 0 <= i < TitleLength ==> targets[i] - (i + 1) * multiplier == jitter[i]
  {
    seq(TitleLength, i requires 0 <= i < TitleLength => (i + 1) * multiplier + jitter[i])
  }

  predicate AllLocked(frame: nat, targets: seq<int>) {
    forall i :: 0 <= i < |targets| ==> frame >= targets[i]
  }

  /**
   * Every target lies between frame 4 and frame `9 * multiplier + 3`: no
   * position is locked before the first tick, and all are locked by then.
   */
  lemma TargetsBounded(skipMode: bool, jitter: seq<int>, frame: nat)
    requires ValidJitter(jitter)
    ensures var m := LockMultiplier(skipMode);
      var targets := LockTargets(m, jitter);
      && (forall i :: 0 <= i < TitleLength ==> 4 <= targets[i] <= 9 * m + 3)
      && (frame >= 9 * m + 3 ==> AllLocked(frame, targets))
  {
    var m := LockMultiplier(skipMode);
    var targets := LockTargets(m, jitter);
    forall i | 0 <= i < TitleLength
      ensures 4 <= targets[i] <= 9 * m + 3
    {
      MulMonotone(m, 1, i + 1);
      MulMonotone(m, i + 1, 9);
    }
  }

  /** The title at one frame: locked positions show their character, the others a glyph. */
  function TitleFrame(frame: nat, targets: seq<int>, alphabet: string, draws: seq<nat>): (shown: string)
    requires |targets| == TitleLength && |draws| == TitleLength && |alphabet| > 0
    ensures |shown| == TitleLength
    ensures forall i :: 0 <= i < TitleLength && frame >= targets[i] ==> shown[i] == Title[i]
    ensures forall i :: 0 <= i < TitleLength && frame < targets[i] ==> shown[i] in alphabet
  {
    seq(TitleLength, i requires 0 <= i < TitleLength =>
      if frame >= targets[i] then Title[i] else Glyph(alphabet, draws[i]))
  }

  /** With every position locked the title frame is the title itself. */
  lemma TitleFrameAllLocked(frame: nat, targets: seq<int>, alphabet: string, draws: seq<nat>)
    requires |targets| == TitleLength && |draws| == TitleLength && |alphabet| > 0
    requires AllLocked(frame, targets)
    ensures TitleFrame(frame, targets, alphabet, draws) == Title
  {
  }

  /**
   * The loop of one scramble tick over the `isLocked` flags: a position
   * whose target frame is reached locks, locked positions show the title's
   * character, the others a glyph; `allLocked` says whether all nine are locked.
   */
  method LockAndRender(flags: array<bool>, frame: nat, targets: seq<int>, alphabet: string, draws: seq<nat>)
    returns (display: string, allLocked: bool)
    requires flags.Length == TitleLength && |targets| == TitleLength && |draws| == TitleLength && |alphabet| > 0
    requires forall j :: 0 <= j < TitleLength && flags[j] ==> frame >= targets[j]
    modifies flags
    ensures forall j :: 0 <= j < TitleLength ==> (flags[j] <==> frame >= targets[j])
    ensures display == TitleFrame(frame, targets, alphabet, draws)
    ensures allLocked <==> AllLocked(frame, targets)
  {
    display := "";
    allLocked := true;
    var i := 0;
    while i < TitleLength
      invariant 0 <= i <= TitleLength
      invariant forall j :: 0 <= j < i ==> (flags[j] <==> frame >= targets[j])
      invariant forall j :: i <= j < TitleLength ==> flags[j] == old(flags[j])
      invariant display == TitleFrame(frame, targets, alphabet, draws)[..i]
      invariant allLocked <==> forall j :: 0 <= j < i ==> frame >= targets[j]
    {
      if !flags[i] && frame >= targets[i] {
        flags[i] := true;
      }
      if flags[i] {
        display := display + [Title[i]];
      } else {
        display := display + [alphabet[draws[i] % |alphabet|]];
        allLocked := false;
      }
      i := i + 1;
    }
  }

  /**
   * The scramble's own state: once the title has started, every target is at
   * least 4 and a position is locked exactly when its target frame is reached;
   * the interval runs only while some position is unlocked, and before the
   * title starts the frame is 0.
   */
  ghost predicate ScrambleState(titleStarted: bool, scrambling: bool, frame: nat, targets: seq<int>, locked: seq<bool>) {
    && |targets| == TitleLength && |locked| == TitleLength
    && (titleStarted ==>
          && (forall i :: 0 <= i < TitleLength ==> targets[i] >= 4)
          && (forall i :: 0 <= i < TitleLength ==> (locked[i] <==> frame >= targets[i])))
    && (scrambling ==> titleStarted && !AllLocked(frame, targets))
    && (!titleStarted ==> frame == 0)
  }

  /** The nine `isLocked` flags of a scramble that has just started. */
  const Unlocked: seq<bool> := seq(TitleLength, _ => false)

  /** A freshly started scramble, at frame 0 with nothing locked, satisfies `ScrambleState` and runs. */
  lemma ScrambleStarts(skipMode: bool, jitter: seq<int>)
    requires ValidJitter(jitter)
    ensures ScrambleState(true, true, 0, LockTargets(LockMultiplier(skipMode), jitter), Unlocked)
  {
    var targets := LockTargets(LockMultiplier(skipMode), jitter);
    TargetsBounded(skipMode, jitter, 0);
    assert 0 < targets[0];
  }

  datatype Timer = FrameTimer | TitleTimer | FooterTimer | BurgerTimer | PopupTimer

  class Entrance {
    const baseGlyphs: string
    const japaneseGlyphs: string

    var showFrame: bool
    var showTitlePrompt: bool
    var typedTitle: string
    var showTitleCursor: bool
    var showFooter: bool
    var burgerVisible: bool
    var isReplaying: bool
    /** The 150 ms timer of a replay. */
    var replayPending: bool

    /** What the running effect captured: the mode, the alphabet and the delays. */
    var skipMode: bool
    var alphabet: string
    var timings: Timings
    /** The effect's timers that have not fired. */
    var pending: set<Timer>

    /** The scramble: its frame counter, targets, lock flags and whether its interval runs. */
    var titleStarted: bool
    var scrambleFrame: nat
    var lockTargets: seq<int>
    var isLocked: array<bool>
    var scrambling: bool

    /** How many times `onSkipModeComplete` and `onShowWelcomePopup` were called. */
    var skipCompletions: nat
    var popupsShown: nat

    ghost predicate Valid()
      reads this, isLocked
    {
      && |baseGlyphs| > 0 && |japaneseGlyphs| > 0 && |alphabet| > 0
      && isLocked.Length == TitleLength
      && ScrambleState(titleStarted, scrambling, scrambleFrame, lockTargets, isLocked[..])
      && (TitleTimer in pending ==> !titleStarted)
    }

    constructor(baseGlyphs: string, japaneseGlyphs: string)
      requires |baseGlyphs| > 0 && |japaneseGlyphs| > 0
      ensures Valid()
      ensures !showFrame && !showTitlePrompt && typedTitle == "" && !showTitleCursor && !showFooter && !burgerVisible
      ensures pending == {} && !scrambling && !isReplaying
      ensures skipCompletions == 0 && popupsShown == 0
    {
      this.baseGlyphs := baseGlyphs;
      this.japaneseGlyphs := japaneseGlyphs;
      showFrame, showTitlePrompt, typedTitle, showTitleCursor := false, false, "", false;
      showFooter, burgerVisible, isReplaying, replayPending := false, false, false, false;
      skipMode, alphabet, timings, pending := false, baseGlyphs, Timings(0, 0, 0, 0, 0), {};
      titleStarted, scrambleFrame, lockTargets, scrambling := false, 0, seq(TitleLength, _ => 0), false;
      isLocked := new bool[TitleLength](_ => false);
      skipCompletions, popupsShown := 0, 0;
    }

    /** `resetEntranceState`: hides everything the entrance showed; timers and the scramble go on. */
    method ResetEntranceState()
      requires Valid()
      modifies this
      ensures Valid()
      ensures !showFrame && !showTitlePrompt && typedTitle == "" && !showTitleCursor && !showFooter && !burgerVisible
      ensures pending == old(pending) && scrambling == old(scrambling) && scrambleFrame == old(scrambleFrame)
      ensures isReplaying == old(isReplaying) && replayPending == old(replayPending)
      ensures skipCompletions == old(skipCompletions) && popupsShown == old(popupsShown)
    {
      showFrame, showTitlePrompt, typedTitle := false, false, "";
      showTitleCursor, showFooter, burgerVisible := false, false, false;
    }

    /** `handleReplayEntrance`: marks a replay, resets the visible state and schedules the end of the replay. */
    method HandleReplayEntrance()
      requires Valid()
      modifies this
      ensures Valid()
      ensures isReplaying && replayPending
      ensures !showFrame && !showTitlePrompt && typedTitle == "" && !showTitleCursor && !showFooter && !burgerVisible
      ensures pending == old(pending) && scrambling == old(scrambling)
    {
      isReplaying := true;
      ResetEntranceState();
      replayPending := true;
    }

    /** The replay's 150 ms timer. */
    method FireReplay()
      requires Valid() && replayPending
      modifies this
      ensures Valid()
      ensures !isReplaying && !replayPending
      ensures pending == old(pending) && scrambling == old(scrambling)
    {
      isReplaying := false;
      replayPending := false;
    }

    /**
     * A run of the entrance effect after the phase or the replay trigger
     * changed: the previous run's timers and interval are cleared; in the
     * 'main' phase the five timers are scheduled with the delays of the mode.
     */
    method Effect(phase: Phase, language: Language, skip: bool, popupJitter: nat)
      requires Valid() && popupJitter < 4000
      modifies this
      ensures Valid()
      ensures !scrambling && !titleStarted && scrambleFrame == 0
      ensures phase == Main ==>
        && pending == {FrameTimer, TitleTimer, FooterTimer, BurgerTimer, PopupTimer}
        && timings == TimingsFor(skip, popupJitter) && skipMode == skip
        && alphabet == AlphabetFor(language, baseGlyphs, japaneseGlyphs)
      ensures phase != Main ==> pending == {}
      ensures showFrame == old(showFrame) && showTitlePrompt == old(showTitlePrompt) && typedTitle == old(typedTitle)
      ensures skipCompletions == old(skipCompletions) && popupsShown == old(popupsShown)
    {
      pending := {};
      scrambling := false;
      titleStarted := false;
      scrambleFrame := 0;
      if phase == Main {
        skipMode := skip;
        alphabet := AlphabetFor(language, baseGlyphs, japaneseGlyphs);
        timings := TimingsFor(skip, popupJitter);
        pending := {FrameTimer, TitleTimer, FooterTimer, BurgerTimer, PopupTimer};
      }
    }

    /** Step 1: the frame appears. */
    method FireFrame()
      requires Valid() && FrameTimer in pending
      modifies this
      ensures Valid()
      ensures showFrame && pending == old(pending) - {FrameTimer}
      ensures scrambling == old(scrambling) && typedTitle == old(typedTitle)
    {
      showFrame := true;
      pending := pending - {FrameTimer};
    }

    /** Step 2: the prompt and cursor appear, the lock targets are drawn and the scramble interval starts. */
    method FireTitle(jitter: seq<int>)
      requires Valid() && TitleTimer in pending && ValidJitter(jitter)
      modifies this
      ensures Valid()
      ensures showTitlePrompt && showTitleCursor && pending == old(pending) - {TitleTimer}
      ensures scrambling && lockTargets == LockTargets(LockMultiplier(skipMode), jitter)
      ensures fresh(isLocked) && forall i :: 0 <= i < TitleLength ==> !isLocked[i]
      ensures scrambleFrame == 0
    {
      showTitlePrompt := true;
      showTitleCursor := true;
      pending := pending - {TitleTimer};
      lockTargets := LockTargets(LockMultiplier(skipMode), jitter);
      isLocked := new bool[TitleLength](_ => false);
      assert isLocked[..] == Unlocked;
      ScrambleStarts(skipMode, jitter);
      titleStarted := true;
      scrambling := true;
    }

    /** Step 3: the footer appears. */
    method FireFooter()
      requires Valid() && FooterTimer in pending
      modifies this
      ensures Valid()
      ensures showFooter && pending == old(pending) - {FooterTimer}
      ensures scrambling == old(scrambling) && typedTitle == old(typedTitle)
    {
      showFooter := true;
      pending := pending - {FooterTimer};
    }

    /** Step 4: the burger appears. */
    method FireBurger()
      requires Valid() && BurgerTimer in pending
      modifies this
      ensures Valid()
      ensures burgerVisible && pending == old(pending) - {BurgerTimer}
      ensures scrambling == old(scrambling) && typedTitle == old(typedTitle)
    {
      burgerVisible := true;
      pending := pending - {BurgerTimer};
    }

    /** Step 5: the welcome popup opens. */
    method FirePopup()
      requires Valid() && PopupTimer in pending
      modifies this
      ensures Valid()
      ensures popupsShown == old(popupsShown) + 1 && pending == old(pending) - {PopupTimer}
      ensures scrambling == old(scrambling) && typedTitle == old(typedTitle)
    {
      popupsShown := popupsShown + 1;
      pending := pending - {PopupTimer};
    }

    /**
     * One tick of the scramble interval with the glyph draws of this frame:
     * the frame advances, every position whose target is reached locks (and
     * stays locked), the title frame is shown, and once all nine are locked
     * the title itself is shown, the interval stops and skip mode reports
     * completion.
     */
    method Tick(draws: seq<nat>)
      requires Valid() && scrambling && |draws| == TitleLength
      modifies this, isLocked
      ensures Valid()
      ensures scrambleFrame == old(scrambleFrame) + 1 && lockTargets == old(lockTargets) && isLocked == old(isLocked)
      ensures forall i :: 0 <= i < TitleLength ==> (isLocked[i] <==> scrambleFrame >= lockTargets[i])
      ensures forall i :: 0 <= i < TitleLength && old(isLocked[i]) ==> isLocked[i]
      ensures scrambling <==> !AllLocked(scrambleFrame, lockTargets)
      ensures scrambling ==>
        typedTitle == TitleFrame(scrambleFrame, lockTargets, alphabet, draws) && skipCompletions == old(skipCompletions)
      ensures !scrambling ==>
        typedTitle == Title && skipCompletions == old(skipCompletions) + (if skipMode then 1 else 0)
      ensures |typedTitle| == TitleLength
    {
      scrambleFrame := scrambleFrame + 1;
      var frame, targets, glyphs := scrambleFrame, lockTargets, alphabet;
      var display, allLocked := LockAndRender(isLocked, frame, targets, glyphs, draws);
      typedTitle := display;
      if allLocked {
        TitleFrameAllLocked(frame, targets, glyphs, draws);
        typedTitle := Title;
        scrambling := false;
        if skipMode {
          skipCompletions := skipCompletions + 1;
        }
      }
    }
  }

  /**
   * The scramble interval runs at most `9 * multiplier + 3` ticks: while it
   * runs its frame is below that bound.
   */
  lemma ScrambleEndsInTime(e: Entrance, jitter: seq<int>)
    requires e.Valid() && e.scrambling && ValidJitter(jitter)
    requires e.lockTargets == LockTargets(LockMultiplier(e.skipMode), jitter)
    ensures e.scrambleFrame < 9 * LockMultiplier(e.skipMode) + 3
  {
    if e.scrambleFrame >= 9 * LockMultiplier(e.skipMode) + 3 {
      TargetsBounded(e.skipMode, jitter, e.scrambleFrame);
    }
  }
}
