/**
 * `useConfirmScreen`: the confirm screen types "welcome", three dots, the
 * question and the YES and NO options one after the other, then shows the
 * option selector; the keyboard toggles and picks an option; choosing YES
 * plays a loading-dots animation before continuing; and a language change
 * while the selector is shown scrambles the question and options into the
 * new language over 15 frames.
 *
 * Every timeout and interval callback is a method the environment calls
 * once the callback is due (`StepChain`, `FireCursor`, `FireLoading`,
 * `FireFinish`, `ScrambleTick`); the timer handles the hook records are
 * named by the job they run. Translations, the dot character and the glyph
 * alphabets are parameters.
 */
module ConfirmScreen {
  import opened AppTypes
  import opened Scramble

  /** The texts of one language the typing chain and the scramble use. */
  datatype ConfirmTexts = ConfirmTexts(welcome: string, question: string, yes: string, no: string)

  /** The position of the typing chain: which callback runs next. */
  datatype Stage =
    | Idle
    | Starting
    | TypingWelcome
    | TypingDots
    | PausingBeforeQuestion
    | TypingQuestion
    | PausingBeforeYes
    | TypingYes
    | PausingBeforeNo
    | TypingNo
    | PausingBeforeSelector

  function Rank(s: Stage): nat {
    match s
    case Starting => 0
    case TypingWelcome => 1
    case TypingDots => 2
    case PausingBeforeQuestion => 3
    case TypingQuestion => 4
    case PausingBeforeYes => 5
    case TypingYes => 6
    case PausingBeforeNo => 7
    case TypingNo => 8
    case PausingBeforeSelector => 9
    case Idle => 10
  }

  /** The closure counters of the chain: `welcomeIndex`, `dotCount`, `confirmIndex`, `yesIndex`, `noIndex`. */
  datatype Chain = Chain(stage: Stage, welcomeIndex: nat, dotCount: nat, confirmIndex: nat, yesIndex: nat, noIndex: nat)

  const ChainStart := Chain(Starting, 0, 0, 0, 0, 0)

  /** The timer handles of the hook, named by what they run. */
  datatype Job =
    | CursorTimer | StartTimer | WelcomeInterval | DotsInterval | QuestionTimer | QuestionInterval
    | YesTimer | YesInterval | NoTimer | NoInterval | SelectorTimer | LoadingTimer(step: nat) | FinishTimer

  /** The callback that is scheduled while the chain is at a stage. */
  function JobOf(s: Stage): Job
    requires s != Idle
  {
    match s
    case Starting => StartTimer
    case TypingWelcome => WelcomeInterval
    case TypingDots => DotsInterval
    case PausingBeforeQuestion => QuestionTimer
    case TypingQuestion => QuestionInterval
    case PausingBeforeYes => YesTimer
    case TypingYes => YesInterval
    case PausingBeforeNo => NoTimer
    case TypingNo => NoInterval
    case PausingBeforeSelector => SelectorTimer
  }

  predicate IsInterval(j: Job) {
    j.WelcomeInterval? || j.DotsInterval? || j.QuestionInterval? || j.YesInterval? || j.NoInterval?
  }

  /** The delay (ms) or period of each chain callback. */
  function Delay(s: Stage): nat {
    match s
    case Starting => 1000
    case TypingWelcome => 70
    case TypingDots => 300
    case PausingBeforeQuestion => 600
    case TypingQuestion => 50
    case PausingBeforeYes => 400
    case TypingYes => 80
    case PausingBeforeNo => 200
    case TypingNo => 80
    case PausingBeforeSelector => 400
    case Idle => 0
  }

  /** `s.repeat(k)`. */
  function RepeatText(s: string, k: nat): (r: string)
    ensures |r| == k * |s|
  {
    if k == 0 then "" else RepeatText(s, k - 1) + s
  }

  /** One callback of the chain: a typing interval types one more character or, when done, hands over to the next stage. */
  function Advance(c: Chain, t: ConfirmTexts): (next: Chain)
    requires c.stage != Idle
  {
    match c.stage
    case Starting => c.(stage := TypingWelcome)
    case TypingWelcome =>
      if c.welcomeIndex < |t.welcome| then c.(welcomeIndex := c.welcomeIndex + 1)
      else c.(stage := TypingDots, dotCount := 0)
    case TypingDots =>
      if c.dotCount + 1 >= 3 then c.(dotCount := c.dotCount + 1, stage := PausingBeforeQuestion)
      else c.(dotCount := c.dotCount + 1)
    case PausingBeforeQuestion => c.(stage := TypingQuestion)
    case TypingQuestion =>
      if c.confirmIndex < |t.question| then c.(confirmIndex := c.confirmIndex + 1)
      else c.(stage := PausingBeforeYes)
    case PausingBeforeYes => c.(stage := TypingYes)
    case TypingYes =>
      if c.yesIndex < |t.yes| then c.(yesIndex := c.yesIndex + 1)
      else c.(stage := PausingBeforeNo)
    case PausingBeforeNo => c.(stage := TypingNo)
    case TypingNo =>
      if c.noIndex < |t.no| then c.(noIndex := c.noIndex + 1)
      else c.(stage := PausingBeforeSelector)
    case PausingBeforeSelector => c.(stage := Idle)
  }

  /**
   * The counters agree with the stage: every text before the current stage
   * is complete, every text after it is untouched, and the one being typed
   * is within its target. Idle is the completed chain.
   */
  predicate Consistent(c: Chain, t: ConfirmTexts) {
    var r := Rank(c.stage);
    && c.welcomeIndex <= |t.welcome| && c.dotCount <= 3
    && c.confirmIndex <= |t.question| && c.yesIndex <= |t.yes| && c.noIndex <= |t.no|
    && (r < 1 ==> c.welcomeIndex == 0) && (r > 1 ==> c.welcomeIndex == |t.welcome|)
    && (r < 2 ==> c.dotCount == 0) && (r > 2 ==> c.dotCount == 3) && (r == 2 ==> c.dotCount < 3)
    && (r < 4 ==> c.confirmIndex == 0) && (r > 4 ==> c.confirmIndex == |t.question|)
    && (r < 6 ==> c.yesIndex == 0) && (r > 6 ==> c.yesIndex == |t.yes|)
    && (r < 8 ==> c.noIndex == 0) && (r > 8 ==> c.noIndex == |t.no|)
  }

  /** The number of chain callbacks still to run before the selector shows. */
  function Remaining(c: Chain, t: ConfirmTexts): nat
    requires Consistent(c, t)
  {
    var r := Rank(c.stage);
    (if r <= 0 then 1 else 0)
    + (if r <= 1 then |t.welcome| - c.welcomeIndex + 1 else 0)
    + (if r <= 2 then 3 - c.dotCount else 0)
    + (if r <= 3 then 1 else 0)
    + (if r <= 4 then |t.question| - c.confirmIndex + 1 else 0)
    + (if r <= 5 then 1 else 0)
    + (if r <= 6 then |t.yes| - c.yesIndex + 1 else 0)
    + (if r <= 7 then 1 else 0)
    + (if r <= 8 then |t.no| - c.noIndex + 1 else 0)
    + (if r <= 9 then 1 else 0)
  }

  /**
   * Each callback keeps the counters consistent, never moves the chain back
   * and brings it exactly one callback closer to the selector.
   */
  lemma AdvanceProgress(c: Chain, t: ConfirmTexts)
    requires c.stage != Idle && Consistent(c, t)
    ensures Consistent(Advance(c, t), t)
    ensures Rank(Advance(c, t).stage) >= Rank(c.stage)
    ensures Remaining(Advance(c, t), t) + 1 == Remaining(c, t)
  {
  }

  /** The chain stays at a stage only while that stage's text still grows. */
  lemma AdvanceLeavesStage(c: Chain, t: ConfirmTexts)
    requires c.stage != Idle && Consistent(c, t)
    ensures Advance(c, t).stage == c.stage <==>
      || (c.stage == TypingWelcome && c.welcomeIndex < |t.welcome|)
      || (c.stage == TypingDots && c.dotCount < 2)
      || (c.stage == TypingQuestion && c.confirmIndex < |t.question|)
      || (c.stage == TypingYes && c.yesIndex < |t.yes|)
      || (c.stage == TypingNo && c.noIndex < |t.no|)
  {
  }

  /** `k` chain callbacks in a row. */
  function AdvanceN(c: Chain, t: ConfirmTexts, k: nat): Chain
    decreases k
  {
    if k == 0 || c.stage == Idle then c else AdvanceN(Advance(c, t), t, k - 1)
  }

  /**
   * From any consistent position, the remaining number of callbacks brings
   * the chain to its end with every text typed and the three dots shown.
   */
  lemma {:induction false} ChainCompletes(c: Chain, t: ConfirmTexts)
    requires Consistent(c, t)
    ensures var e := AdvanceN(c, t, Remaining(c, t));
      && e.stage == Idle
      && e.welcomeIndex == |t.welcome| && e.dotCount == 3 && e.confirmIndex == |t.question|
      && e.yesIndex == |t.yes| && e.noIndex == |t.no|
    decreases Remaining(c, t)
  {
    if c.stage == Idle {
      assert Remaining(c, t) == 0;
    } else {
      AdvanceProgress(c, t);
      ChainCompletes(Advance(c, t), t);
    }
  }

  /** A fresh chain runs `12 + |welcome| + |question| + |yes| + |no|` callbacks before the selector shows. */
  lemma ChainLength(t: ConfirmTexts)
    ensures Consistent(ChainStart, t)
    ensures Remaining(ChainStart, t) == 12 + |t.welcome| + |t.question| + |t.yes| + |t.no|
  {
  }

  /** The five typed strings. */
  datatype Typed = Typed(welcome: string, dots: string, question: string, yes: string, no: string)

  /** What the chain has typed so far: each text is the prefix its counter says. */
  function Shown(c: Chain, t: ConfirmTexts, dot: string): (typed: Typed)
    requires Consistent(c, t)
    ensures typed.welcome <= t.welcome && typed.question <= t.question && typed.yes <= t.yes && typed.no <= t.no
    ensures |typed.welcome| == c.welcomeIndex && |typed.question| == c.confirmIndex
    ensures |typed.yes| == c.yesIndex && |typed.no| == c.noIndex
  {
    Typed(t.welcome[..c.welcomeIndex], RepeatText(dot, c.dotCount), t.question[..c.confirmIndex],
          t.yes[..c.yesIndex], t.no[..c.noIndex])
  }

  /** `loadingTimings`: one, two and three dots, then nothing, at 300, 600, 900 and 1300 ms, all before the final 1600 ms timer. */
  function LoadingSchedule(dot: string): (schedule: seq<(string, nat)>)
    ensures |schedule| == 4
    ensures schedule[0].0 == RepeatText(dot, 1) && schedule[1].0 == RepeatText(dot, 2)
    ensures schedule[2].0 == RepeatText(dot, 3) && schedule[3].0 == ""
    ensures schedule[0].1 < schedule[1].1 < schedule[2].1 < schedule[3].1 < FinishDelay
  {
    assert RepeatText(dot, 1) == dot;
    assert RepeatText(dot, 2) == dot + dot;
    [(dot, 300), (dot + dot, 600), (dot + dot + dot, 900), ("", 1300)]
  }

  const FinishDelay: nat := 1600
  const ScrambleFrames: nat := 15

  datatype Key = ArrowUp | ArrowDown | Enter | OtherKey

  function Toggle(o: ConfirmOption): (p: ConfirmOption)
    ensures p != o
  {
    if o == Yes then No else Yes
  }

  /** `timersRef.current`: the registered timeout and interval handles. */
  datatype Registry = Registry(timers: seq<Job>, intervals: seq<Job>) {
    predicate Holds(j: Job) {
      j in timers || j in intervals
    }

    /** `addTimer`: records a timeout handle. */
    function AddTimer(j: Job): (r: Registry)
      ensures r.Holds(j) && r.intervals == intervals
      ensures forall k :: Holds(k) ==> r.Holds(k)
    {
      this.(timers := timers + [j])
    }

    /** `addInterval`: records an interval handle. */
    function AddInterval(j: Job): (r: Registry)
      ensures r.Holds(j) && r.timers == timers
      ensures forall k :: Holds(k) ==> r.Holds(k)
    {
      this.(intervals := intervals + [j])
    }
  }

  /** The typed texts after one chain callback: a typing callback shows one more character or dot. */
  function TypedAfter(c: Chain, t: ConfirmTexts, dot: string, typed: Typed): Typed
    requires Consistent(c, t)
  {
    match c.stage
    case TypingWelcome =>
      if c.welcomeIndex < |t.welcome| then typed.(welcome := t.welcome[..c.welcomeIndex + 1]) else typed
    case TypingDots => typed.(dots := RepeatText(dot, c.dotCount + 1))
    case TypingQuestion =>
      if c.confirmIndex < |t.question| then typed.(question := t.question[..c.confirmIndex + 1]) else typed
    case TypingYes =>
      if c.yesIndex < |t.yes| then typed.(yes := t.yes[..c.yesIndex + 1]) else typed
    case TypingNo =>
      if c.noIndex < |t.no| then typed.(no := t.no[..c.noIndex + 1]) else typed
    case _ => typed
  }

  /** The texts typed after a callback are the ones the advanced counters say. */
  lemma TypedAfterShown(c: Chain, t: ConfirmTexts, dot: string)
    requires c.stage != Idle && Consistent(c, t)
    ensures Consistent(Advance(c, t), t)
    ensures TypedAfter(c, t, dot, Shown(c, t, dot)) == Shown(Advance(c, t), t, dot)
  {
    AdvanceProgress(c, t);
  }

  /** The registry after one chain callback: a finished stage registers the next stage's timer or interval. */
  function RegistryAfter(c: Chain, t: ConfirmTexts, registry: Registry): Registry
  {
    match c.stage
    case Starting => registry.AddInterval(WelcomeInterval)
    case TypingWelcome =>
      if c.welcomeIndex < |t.welcome| then registry else registry.AddInterval(DotsInterval)
    case TypingDots =>
      if c.dotCount + 1 >= 3 then registry.AddTimer(QuestionTimer) else registry
    case PausingBeforeQuestion => registry.AddInterval(QuestionInterval)
    case TypingQuestion =>
      if c.confirmIndex < |t.question| then registry else registry.AddTimer(YesTimer)
    case PausingBeforeYes => registry.AddInterval(YesInterval)
    case TypingYes =>
      if c.yesIndex < |t.yes| then registry else registry.AddTimer(NoTimer)
    case PausingBeforeNo => registry.AddInterval(NoInterval)
    case TypingNo =>
      if c.noIndex < |t.no| then registry else registry.AddTimer(SelectorTimer)
    case _ => registry
  }

  /** A callback registers exactly the job of the stage it moves to, as a timer or an interval. */
  lemma RegistryAfterJob(c: Chain, t: ConfirmTexts, registry: Registry)
    requires c.stage != Idle
    ensures var next := Advance(c, t).stage;
      RegistryAfter(c, t, registry) ==
        if next == c.stage || next == Idle then registry
        else if IsInterval(JobOf(next)) then registry.(intervals := registry.intervals + [JobOf(next)])
        else registry.(timers := registry.timers + [JobOf(next)])
  {
  }

  /** The typing chain of the last effect run: the texts and dot it captured, and its counters. */
  datatype TypingRun = TypingRun(texts: ConfirmTexts, dot: string, chain: Chain)

  /** The YES animation: the texts of its steps, the steps still to show, and whether the final timer is pending. */
  datatype YesAnimation = YesAnimation(schedule: seq<(string, nat)>, pending: set<nat>, finishPending: bool)

  /** The language scramble: the new question and options, the alphabet, the frame and its interval. */
  datatype LangScramble = LangScramble(targets: ConfirmTexts, alphabet: string, frame: nat, ticking: bool, cleanupPending: bool)

  /** While the chain runs, the typed texts are what it has typed and its next callback is registered. */
  ghost predicate ChainHolds(run: TypingRun, typed: Typed, registry: Registry) {
    run.chain.stage != Idle ==>
      && Consistent(run.chain, run.texts)
      && typed == Shown(run.chain, run.texts, run.dot)
      && registry.Holds(JobOf(run.chain.stage))
  }

  /** A chain that starts with the texts empty and the start callback registered is consistent. */
  lemma ChainStartHolds(t: ConfirmTexts, dot: string)
    ensures Registry([], []).AddTimer(CursorTimer).AddTimer(StartTimer) == Registry([CursorTimer, StartTimer], [])
    ensures ChainHolds(TypingRun(t, dot, ChainStart), Typed("", "", "", "", ""), Registry([CursorTimer, StartTimer], []))
  {
    ChainLength(t);
    assert Registry([CursorTimer, StartTimer], []).Holds(StartTimer);
  }

  class Hook {
    const baseGlyphs: string
    const japaneseGlyphs: string

    /** `typedWelcome`, `welcomeDots`, `typedConfirm`, `typedYes`, `typedNo`. */
    var typed: Typed
    var showSelector: bool
    var showConfirmCursor: bool
    var selectedOption: ConfirmOption
    var confirmLangVisible: bool
    var isConfirmScrambling: bool
    var loadingDots: string
    var showLoadingDots: bool
    /** `prevLangRef`. */
    var prevLang: Language
    var registry: Registry

    var run: TypingRun
    var cursorPending: bool
    var typingCleanupPending: bool
    var loading: YesAnimation
    var scramble: LangScramble

    /** How many times `onSelectYes` and `onSelectNo` were called. */
    var yesCalls: nat
    var noCalls: nat

    ghost predicate Valid()
      reads this
    {
      && |baseGlyphs| > 0 && |japaneseGlyphs| > 0
      && ChainHolds(run, typed, registry)
      && (showSelector ==> run.chain.stage == Idle)
      && (cursorPending ==> CursorTimer in registry.timers)
      && |loading.schedule| == 4
      && (forall k :: k in loading.pending ==> k < 4 && LoadingTimer(k) in registry.timers)
      && (loading.finishPending ==> FinishTimer in registry.timers)
      && (scramble.ticking ==>
            isConfirmScrambling && scramble.frame < ScrambleFrames && |scramble.alphabet| > 0 && run.chain.stage == Idle)
    }

    constructor(language: Language, baseGlyphs: string, japaneseGlyphs: string)
      requires |baseGlyphs| > 0 && |japaneseGlyphs| > 0
      ensures Valid()
      ensures this.baseGlyphs == baseGlyphs && this.japaneseGlyphs == japaneseGlyphs
      ensures typed == Typed("", "", "", "", "") && loadingDots == ""
      ensures !showSelector && !showConfirmCursor && !confirmLangVisible && !isConfirmScrambling && !showLoadingDots
      ensures selectedOption == Yes && prevLang == language
      ensures registry == Registry([], []) && run.chain.stage == Idle
      ensures yesCalls == 0 && noCalls == 0
    {
      this.baseGlyphs := baseGlyphs;
      this.japaneseGlyphs := japaneseGlyphs;
      typed := Typed("", "", "", "", "");
      showSelector, showConfirmCursor, selectedOption := false, false, Yes;
      confirmLangVisible, isConfirmScrambling, loadingDots, showLoadingDots := false, false, "", false;
      prevLang := language;
      registry := Registry([], []);
      run := TypingRun(ConfirmTexts("", "", "", ""), "", Chain(Idle, 0, 0, 0, 0, 0));
      cursorPending, typingCleanupPending := false, false;
      loading := YesAnimation(LoadingSchedule(""), {}, false);
      scramble := LangScramble(ConfirmTexts("", "", "", ""), baseGlyphs, 0, false, false);
      yesCalls, noCalls := 0, 0;
    }

    /**
     * `clearAllTimers`: cancels every registered timeout and interval (the
     * chain, the cursor timer, the YES animation) and empties both lists.
     * The language scramble's interval is not registered and goes on.
     */
    method ClearAllTimers()
      requires Valid()
      modifies this
      ensures Valid()
      ensures registry == Registry([], [])
      ensures run == old(run).(chain := old(run.chain).(stage := Idle)) && !cursorPending
      ensures loading == old(loading).(pending := {}, finishPending := false)
      ensures typed == old(typed) && loadingDots == old(loadingDots) && scramble == old(scramble)
      ensures isConfirmScrambling == old(isConfirmScrambling) && showSelector == old(showSelector)
      ensures selectedOption == old(selectedOption) && typingCleanupPending == old(typingCleanupPending)
      ensures showConfirmCursor == old(showConfirmCursor) && confirmLangVisible == old(confirmLangVisible)
      ensures showLoadingDots == old(showLoadingDots) && prevLang == old(prevLang)
      ensures yesCalls == old(yesCalls) && noCalls == old(noCalls)
    {
      run := run.(chain := run.chain.(stage := Idle));
      cursorPending := false;
      loading := loading.(pending := {}, finishPending := false);
      registry := Registry([], []);
    }

    /**
     * `resetConfirmState`: cancels every registered timer and empties the
     * typed texts and dots, hiding the selector, cursor, language switch and
     * loading dots; the selected option and the scramble flag are kept.
     */
    method ResetConfirmState()
      requires Valid()
      modifies this
      ensures Valid()
      ensures registry == Registry([], []) && run.chain.stage == Idle && loading.pending == {} && !loading.finishPending
      ensures typed == Typed("", "", "", "", "") && loadingDots == ""
      ensures !showSelector && !showConfirmCursor && !confirmLangVisible && !showLoadingDots
      ensures selectedOption == old(selectedOption) && isConfirmScrambling == old(isConfirmScrambling)
      ensures scramble == old(scramble) && yesCalls == old(yesCalls) && noCalls == old(noCalls)
    {
      ClearAllTimers();
      typed := Typed("", "", "", "", "");
      showSelector, showConfirmCursor, confirmLangVisible := false, false, false;
      loadingDots, showLoadingDots := "", false;
    }

    /**
     * The body of the typing effect once its guard holds: cancels the
     * registered timers, empties the texts, hides the selector and cursor,
     * and registers the cursor timer and the start of the chain.
     */
    method StartTyping(t: ConfirmTexts, dotText: string)
      requires Valid() && !isConfirmScrambling
      modifies this
      ensures Valid()
      ensures run == TypingRun(t, dotText, ChainStart) && typed == Typed("", "", "", "", "")
      ensures !showSelector && !showConfirmCursor && cursorPending && typingCleanupPending
      ensures registry == Registry([CursorTimer, StartTimer], [])
      ensures loading.pending == {} && !loading.finishPending
      ensures selectedOption == old(selectedOption) && !isConfirmScrambling && scramble == old(scramble)
    {
      ClearAllTimers();
      ChainStartHolds(t, dotText);
      run := TypingRun(t, dotText, ChainStart);
      typed := Typed("", "", "", "", "");
      showSelector, showConfirmCursor := false, false;
      registry := registry.AddTimer(CursorTimer);
      cursorPending := true;
      registry := registry.AddTimer(StartTimer);
      typingCleanupPending := true;
    }

    /**
     * A run of the typing effect after its dependencies changed: the previous
     * run's cleanup (if any) cancels the registered timers; then the chain
     * starts over exactly on the confirm phase with the selector hidden and
     * no scramble running.
     */
    method TypingEffect(phase: Phase, t: ConfirmTexts, dotText: string)
      requires Valid()
      modifies this
      ensures Valid()
      ensures phase == Confirm && !old(showSelector) && !old(isConfirmScrambling) ==>
        && run == TypingRun(t, dotText, ChainStart) && typed == Typed("", "", "", "", "")
        && registry == Registry([CursorTimer, StartTimer], []) && cursorPending && typingCleanupPending
      ensures !(phase == Confirm && !old(showSelector) && !old(isConfirmScrambling)) ==>
        && typed == old(typed) && showSelector == old(showSelector) && !typingCleanupPending
        && (old(typingCleanupPending) ==> registry == Registry([], []) && run.chain.stage == Idle)
        && (!old(typingCleanupPending) ==> registry == old(registry) && run == old(run))
      ensures selectedOption == old(selectedOption) && isConfirmScrambling == old(isConfirmScrambling)
      ensures scramble == old(scramble)
    {
      if typingCleanupPending {
        ClearAllTimers();
        typingCleanupPending := false;
      }
      if phase == Confirm && !showSelector && !isConfirmScrambling {
        StartTyping(t, dotText);
      }
    }

    /** The 300 ms timer: the cursor appears. */
    method FireCursor()
      requires Valid() && cursorPending
      modifies this
      ensures Valid()
      ensures showConfirmCursor && !cursorPending
      ensures typed == old(typed) && run == old(run) && registry == old(registry)
    {
      showConfirmCursor := true;
      cursorPending := false;
    }

    /**
     * The due callback of the chain: a typing interval shows one more
     * character (or dot); a finished stage clears its interval and registers
     * the next stage's timer or interval; the last timer shows the selector
     * and the language switch.
     */
    method StepChain()
      requires Valid() && run.chain.stage != Idle
      modifies this
      ensures Valid()
      ensures run == old(run).(chain := Advance(old(run.chain), old(run.texts)))
      ensures Consistent(run.chain, run.texts) && typed == Shown(run.chain, run.texts, run.dot)
      ensures run.chain.stage == Idle ==> showSelector && confirmLangVisible
      ensures run.chain.stage != Idle ==> showSelector == old(showSelector) && confirmLangVisible == old(confirmLangVisible)
      ensures run.chain.stage != old(run.chain.stage) && run.chain.stage != Idle ==>
        registry == if IsInterval(JobOf(run.chain.stage))
          then old(registry).(intervals := old(registry.intervals) + [JobOf(run.chain.stage)])
          else old(registry).(timers := old(registry.timers) + [JobOf(run.chain.stage)])
      ensures run.chain.stage == old(run.chain.stage) || run.chain.stage == Idle ==> registry == old(registry)
      ensures selectedOption == old(selectedOption) && isConfirmScrambling == old(isConfirmScrambling)
      ensures loading == old(loading) && scramble == old(scramble)
    {
      var c, t := run.chain, run.texts;
      AdvanceProgress(c, t);
      TypedAfterShown(c, t, run.dot);
      RegistryAfterJob(c, t, registry);
      run := run.(chain := Advance(c, t));
      typed := TypedAfter(c, t, run.dot, typed);
      registry := RegistryAfter(c, t, registry);
      if c.stage == PausingBeforeSelector {
        showSelector := true;
        confirmLangVisible := true;
      }
    }

    /**
     * `handleConfirmSelect`: YES hides the texts and the language switch,
     * shows the loading dots and registers the four dot timers and the final
     * timer; NO calls `onSelectNo` at once. Both call sites (the option
     * click and the Enter key) act only while the selector is shown.
     * `dotText` is the dot of the current render's language, which may
     * differ from the one the typing chain captured.
     */
    method HandleConfirmSelect(option: ConfirmOption, dotText: string)
      requires Valid() && showSelector
      modifies this
      ensures Valid()
      ensures option == Yes ==>
        && !confirmLangVisible && typed == Typed("", old(typed.dots), "", "", "") && showLoadingDots
        && loading == YesAnimation(LoadingSchedule(dotText), old(loading.pending) + {0, 1, 2, 3}, true)
        && registry.timers == old(registry.timers) + [LoadingTimer(0), LoadingTimer(1), LoadingTimer(2), LoadingTimer(3), FinishTimer]
        && noCalls == old(noCalls)
      ensures option == No ==>
        && noCalls == old(noCalls) + 1 && typed == old(typed) && confirmLangVisible == old(confirmLangVisible)
        && registry == old(registry) && loading == old(loading) && showLoadingDots == old(showLoadingDots)
      ensures yesCalls == old(yesCalls) && selectedOption == old(selectedOption) && registry.intervals == old(registry.intervals)
      ensures run == old(run) && showSelector && scramble == old(scramble)
    {
      if option == Yes {
        confirmLangVisible := false;
        typed := typed.(welcome := "", question := "", yes := "", no := "");
        showLoadingDots := true;
        // One timer per entry of the schedule, then the final one.
        var schedule := LoadingSchedule(dotText);
        registry := registry.(timers := registry.timers + [LoadingTimer(0), LoadingTimer(1), LoadingTimer(2), LoadingTimer(3), FinishTimer]);
        var pending := loading.pending + {0, 1, 2, 3};
        loading := YesAnimation(schedule, pending, true);
      } else {
        noCalls := noCalls + 1;
      }
    }

    /** A loading-dots timer: shows its step of the schedule. */
    method FireLoading(k: nat)
      requires Valid() && k in loading.pending
      modifies this
      ensures Valid()
      ensures loadingDots == loading.schedule[k].0 && loading == old(loading).(pending := old(loading.pending) - {k})
      ensures showLoadingDots == old(showLoadingDots) && yesCalls == old(yesCalls) && typed == old(typed)
    {
      loadingDots := loading.schedule[k].0;
      loading := loading.(pending := loading.pending - {k});
    }

    /** The 1600 ms timer: the dots disappear and `onSelectYes` is called. */
    method FireFinish()
      requires Valid() && loading.finishPending
      modifies this
      ensures Valid()
      ensures !showLoadingDots && loading == old(loading).(finishPending := false) && yesCalls == old(yesCalls) + 1
      ensures loadingDots == old(loadingDots) && typed == old(typed) && noCalls == old(noCalls)
    {
      showLoadingDots := false;
      loading := loading.(finishPending := false);
      yesCalls := yesCalls + 1;
    }

    /**
     * The keydown listener, registered only on the confirm phase with the
     * selector shown: the arrows toggle the option, Enter selects it with
     * the current render's dot `dotText`.
     */
    method KeyDown(phase: Phase, key: Key, dotText: string)
      requires Valid()
      modifies this
      ensures Valid()
      ensures phase != Confirm || !old(showSelector) || key == OtherKey ==>
        && selectedOption == old(selectedOption) && yesCalls == old(yesCalls) && noCalls == old(noCalls)
        && typed == old(typed) && registry == old(registry) && loading == old(loading)
      ensures phase == Confirm && old(showSelector) && (key == ArrowUp || key == ArrowDown) ==>
        selectedOption == Toggle(old(selectedOption)) && noCalls == old(noCalls) && registry == old(registry)
      ensures phase == Confirm && old(showSelector) && key == Enter ==>
        && selectedOption == old(selectedOption)
        && (old(selectedOption) == No ==> noCalls == old(noCalls) + 1)
        && (old(selectedOption) == Yes ==>
              && showLoadingDots && noCalls == old(noCalls)
              && loading == YesAnimation(LoadingSchedule(dotText), old(loading.pending) + {0, 1, 2, 3}, true))
    {
      if phase != Confirm || !showSelector {
        return;
      }
      if key == ArrowUp || key == ArrowDown {
        selectedOption := Toggle(selectedOption);
      } else if key == Enter {
        HandleConfirmSelect(selectedOption, dotText);
      }
    }

    /**
     * A run of the language-scramble effect after its dependencies changed:
     * the previous run's interval (if any) is cleared; then on the confirm
     * phase, with the selector shown, no scramble running and a language
     * other than the remembered one, the scramble flag is raised and a
     * 15-frame scramble into the new question and options starts.
     */
    method LanguageEffect(phase: Phase, language: Language, t: ConfirmTexts)
      requires Valid()
      modifies this
      ensures Valid()
      ensures var starts := phase == Confirm && showSelector && !old(isConfirmScrambling) && old(prevLang) != language;
        && (starts ==>
              && isConfirmScrambling && prevLang == language
              && scramble == LangScramble(t, AlphabetFor(language, baseGlyphs, japaneseGlyphs), 0, true, true))
        && (!starts ==>
              && prevLang == old(prevLang) && isConfirmScrambling == old(isConfirmScrambling)
              && !scramble.ticking && !scramble.cleanupPending)
      ensures typed == old(typed) && showSelector == old(showSelector)
      ensures run == old(run) && registry == old(registry) && selectedOption == old(selectedOption)
    {
      scramble := scramble.(ticking := false, cleanupPending := false);
      if phase != Confirm || !showSelector || isConfirmScrambling {
        return;
      }
      if prevLang != language {
        prevLang := language;
        isConfirmScrambling := true;
        scramble := LangScramble(t, AlphabetFor(language, baseGlyphs, japaneseGlyphs), 0, true, true);
      }
    }

    /**
     * One tick of the 50 ms scramble interval with the glyph draws of the
     * three texts: each shows its locked prefix and glyphs elsewhere (no
     * character passes through); at frame 15 the new texts are shown, the
     * interval is cleared and the flag lowered.
     */
    method ScrambleTick(draws: seq<seq<nat>>)
      requires Valid() && scramble.ticking
      requires |draws| == 3 && |draws[0]| == |scramble.targets.question|
      requires |draws[1]| == |scramble.targets.yes| && |draws[2]| == |scramble.targets.no|
      modifies this
      ensures Valid()
      ensures scramble == old(scramble).(frame := old(scramble.frame) + 1, ticking := scramble.frame < ScrambleFrames)
      ensures var f, t, a := scramble.frame, scramble.targets, scramble.alphabet;
        f < ScrambleFrames ==>
          && isConfirmScrambling
          && typed.question == Frame(t.question, LockedCount(f, |t.question|, ScrambleFrames), {}, a, draws[0])
          && typed.yes == Frame(t.yes, LockedCount(f, |t.yes|, ScrambleFrames), {}, a, draws[1])
          && typed.no == Frame(t.no, LockedCount(f, |t.no|, ScrambleFrames), {}, a, draws[2])
      ensures var t := scramble.targets;
        scramble.frame == ScrambleFrames ==>
          !isConfirmScrambling && typed.question == t.question && typed.yes == t.yes && typed.no == t.no
      ensures typed.welcome == old(typed.welcome) && typed.dots == old(typed.dots)
      ensures run == old(run) && showSelector == old(showSelector) && registry == old(registry)
    {
      var f := scramble.frame + 1;
      var t, a := scramble.targets, scramble.alphabet;
      var question := Render(t.question, LockedCount(f, |t.question|, ScrambleFrames), {}, a, draws[0]);
      var yes := Render(t.yes, LockedCount(f, |t.yes|, ScrambleFrames), {}, a, draws[1]);
      var no := Render(t.no, LockedCount(f, |t.no|, ScrambleFrames), {}, a, draws[2]);
      scramble := scramble.(frame := f);
      typed := typed.(question := question, yes := yes, no := no);
      if f >= ScrambleFrames {
        typed := typed.(question := t.question, yes := t.yes, no := t.no);
        scramble := scramble.(ticking := false);
        isConfirmScrambling := false;
      }
    }

    /**
     * The language-scramble effect as the hook declares it. Its dependency
     * list includes `isConfirmScrambling`, so the run that raises the flag
     * is followed, at the next render, by a second run: that run's cleanup
     * clears the 50 ms interval before its first tick, and its guard then
     * returns because the flag is up. The question and options keep the old
     * language, no scramble tick can run, and the flag stays raised.
     */
    method LanguageEffectAsWritten(phase: Phase, language: Language, t: ConfirmTexts)
      requires Valid()
      modifies this
      ensures Valid()
      ensures phase == Confirm && old(showSelector) && !old(isConfirmScrambling) && old(prevLang) != language ==>
        && isConfirmScrambling && !scramble.ticking && prevLang == language && typed == old(typed)
      ensures run == old(run) && registry == old(registry) && selectedOption == old(selectedOption)
    {
      var before := isConfirmScrambling;
      LanguageEffect(phase, language, t);
      if isConfirmScrambling != before {
        LanguageEffect(phase, language, t);
      }
    }

    /**
     * With the flag held outside the dependency list, the scramble started by
     * `LanguageEffect` runs to its end: after the remaining ticks the new
     * question and options are shown and the flag is lowered.
     */
    method RunScramble(frames: seq<seq<seq<nat>>>)
      requires Valid() && scramble.ticking && |frames| == ScrambleFrames - scramble.frame
      requires forall i :: 0 <= i < |frames| ==>
        |frames[i]| == 3 && |frames[i][0]| == |scramble.targets.question|
        && |frames[i][1]| == |scramble.targets.yes| && |frames[i][2]| == |scramble.targets.no|
      modifies this
      ensures Valid()
      ensures !isConfirmScrambling && !scramble.ticking && scramble.frame == ScrambleFrames
      ensures scramble.targets == old(scramble.targets)
      ensures typed.question == scramble.targets.question && typed.yes == scramble.targets.yes && typed.no == scramble.targets.no
      ensures typed.welcome == old(typed.welcome) && typed.dots == old(typed.dots)
      ensures run == old(run) && registry == old(registry)
    {
      var i := 0;
      while scramble.ticking
        invariant Valid()
        invariant 0 <= i <= |frames|
        invariant scramble.frame == old(scramble.frame) + i && scramble.targets == old(scramble.targets)
        invariant !scramble.ticking ==> !isConfirmScrambling && scramble.frame == ScrambleFrames
        invariant !scramble.ticking ==>
          && typed.question == scramble.targets.question
          && typed.yes == scramble.targets.yes && typed.no == scramble.targets.no
        invariant typed.welcome == old(typed.welcome) && typed.dots == old(typed.dots)
        invariant run == old(run) && registry == old(registry)
        decreases ScrambleFrames - scramble.frame
      {
        ScrambleTick(frames[i]);
        i := i + 1;
      }
    }
  }
}
