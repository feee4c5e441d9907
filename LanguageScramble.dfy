/**
 * `useLanguageScramble`: when the language changes on the main screen, the
 * twelve interface texts of the new language are revealed over 18 frames
 * (spaces and line breaks kept), after which every scrambled field is
 * emptied so that the plain translations show again.
 *
 * The translations and the two glyph alphabets are not part of this model:
 * the texts arrive as a parameter and the alphabets as constants of the hook.
 */
module LanguageScramble {
  import opened AppTypes
  import opened Scramble

  /** about, shop, message, copyright, welcomeMsg, aboutText, shopMsg, close, cancel, ok, confirm, subscribePrompt. */
  const FieldCount := 12
  const MaxFrames := 18
  const Kept: set<char> := {' ', '\n'}

  /** `emptyScrambled`: every field is ''. */
  const Empty: seq<string> := seq(FieldCount, _ => "")

  /** All twelve fields of one tick, each scrambled with the same frame number. */
  function Fields(targets: seq<string>, frame: nat, alphabet: string, draws: seq<seq<nat>>): (fields: seq<string>)
    requires |alphabet| > 0 && |targets| == |draws|
    requires forall k :: 0 <= k < |targets| ==> |draws[k]| == |targets[k]|
    ensures |fields| == |targets|
    ensures forall k :: 0 <= k < |targets| ==> |fields[k]| == |targets[k]|
  {
    seq(|targets|, k requires 0 <= k < |targets| =>
      Frame(targets[k], LockedCount(frame, |targets[k]|, MaxFrames), Kept, alphabet, draws[k]))
  }

  /**
   * Each field of a tick keeps the target's length, shows the target on its
   * locked prefix and keeps every space and line break in place.
   */
  lemma FieldsShow(targets: seq<string>, frame: nat, alphabet: string, draws: seq<seq<nat>>, k: nat)
    requires |alphabet| > 0 && |targets| == |draws| && k < |targets|
    requires forall j :: 0 <= j < |targets| ==> |draws[j]| == |targets[j]|
    requires frame <= MaxFrames
    ensures var locked := LockedCount(frame, |targets[k]|, MaxFrames);
      var field := Fields(targets, frame, alphabet, draws)[k];
      && locked <= |targets[k]|
      && field[..locked] == targets[k][..locked]
      && (forall i :: 0 <= i < |field| && targets[k][i] in {' ', '\n'} ==> field[i] == targets[k][i])
  {
    LockedCountBounds(frame, |targets[k]|, MaxFrames);
  }

  /** The `setScrambled({...})` call of a tick: `scrambleText` on every field in turn. */
  method RenderFields(targets: seq<string>, frame: nat, alphabet: string, draws: seq<seq<nat>>) returns (fields: seq<string>)
    requires |alphabet| > 0 && |targets| == |draws|
    requires forall k :: 0 <= k < |targets| ==> |draws[k]| == |targets[k]|
    ensures fields == Fields(targets, frame, alphabet, draws)
  {
    fields := [];
    var k := 0;
    while k < |targets|
      invariant 0 <= k <= |targets|
      invariant fields == Fields(targets, frame, alphabet, draws)[..k]
    {
      var field := Render(targets[k], LockedCount(frame, |targets[k]|, MaxFrames), Kept, alphabet, draws[k]);
      fields := fields + [field];
      k := k + 1;
    }
  }

  class Hook {
    const baseGlyphs: string
    const japaneseGlyphs: string
    /** `prevLangRef`. */
    var prevLang: Language
    /** `isScrambling` ref. */
    var isScrambling: bool
    /** The `scrambled` state: one entry per field. */
    var scrambled: seq<string>
    /** The texts of the language being revealed, the alphabet chosen for it and the frame counter. */
    var targets: seq<string>
    var alphabet: string
    var frame: nat
    /** Whether the 40 ms interval is scheduled. */
    var ticking: bool
    /** Whether the last effect run returned a cleanup that has not run yet. */
    var cleanupPending: bool

    ghost predicate Valid()
      reads this
    {
      && |baseGlyphs| > 0 && |japaneseGlyphs| > 0
      && |scrambled| == FieldCount
      && (isScrambling ==> cleanupPending)
      && (ticking ==> isScrambling && frame < MaxFrames && |targets| == FieldCount && |alphabet| > 0)
    }

    constructor(language: Language, baseGlyphs: string, japaneseGlyphs: string)
      requires |baseGlyphs| > 0 && |japaneseGlyphs| > 0
      ensures Valid()
      ensures this.baseGlyphs == baseGlyphs && this.japaneseGlyphs == japaneseGlyphs
      ensures prevLang == language && scrambled == Empty
      ensures !isScrambling && !ticking && !cleanupPending
    {
      this.baseGlyphs := baseGlyphs;
      this.japaneseGlyphs := japaneseGlyphs;
      prevLang := language;
      isScrambling := false;
      scrambled := Empty;
      targets := [];
      alphabet := baseGlyphs;
      frame := 0;
      ticking := false;
      cleanupPending := false;
    }

    /** The cleanup: the interval is cleared, every field emptied and the flag reset. */
    method Cleanup()
      requires Valid()
      modifies this
      ensures Valid()
      ensures !ticking && !isScrambling && !cleanupPending && scrambled == Empty
      ensures prevLang == old(prevLang)
    {
      ticking := false;
      scrambled := Empty;
      isScrambling := false;
      cleanupPending := false;
    }

    /**
     * A run of the effect after its dependencies changed: the previous run's
     * cleanup (if any) goes first; then a scramble starts exactly when the
     * phase is 'main' and the language differs from the remembered one,
     * which is then updated.
     */
    method Effect(phase: Phase, language: Language, texts: seq<string>)
      requires Valid() && |texts| == FieldCount
      modifies this
      ensures Valid()
      ensures ticking <==> phase == Main && old(prevLang) != language
      ensures ticking ==>
        prevLang == language && isScrambling && frame == 0 && targets == texts && alphabet == AlphabetFor(language, baseGlyphs, japaneseGlyphs)
      ensures !ticking ==> prevLang == old(prevLang) && !isScrambling
      ensures old(cleanupPending) ==> scrambled == Empty
      ensures !old(cleanupPending) ==> scrambled == old(scrambled)
    {
      if cleanupPending {
        Cleanup();
      }
      if phase != Main || isScrambling {
        return;
      }
      if prevLang != language {
        prevLang := language;
        isScrambling := true;
        targets := texts;
        alphabet := AlphabetFor(language, baseGlyphs, japaneseGlyphs);
        frame := 0;
        ticking := true;
        cleanupPending := true;
      }
    }

    /**
     * One tick of the interval with the random draws of every field: the
     * frame advances and all twelve fields are scrambled with it; at frame 18
     * the fields are emptied, the interval cleared and the flag reset.
     */
    method Tick(draws: seq<seq<nat>>)
      requires Valid() && ticking && |draws| == FieldCount
      requires forall k :: 0 <= k < FieldCount ==> |draws[k]| == |targets[k]|
      modifies this
      ensures Valid()
      ensures prevLang == old(prevLang) && targets == old(targets) && alphabet == old(alphabet)
      ensures frame == old(frame) + 1
      ensures frame < MaxFrames ==> ticking && scrambled == Fields(targets, frame, alphabet, draws)
      ensures frame == MaxFrames ==> !ticking && !isScrambling && scrambled == Empty
    {
      frame := frame + 1;
      scrambled := RenderFields(targets, frame, alphabet, draws);
      if frame >= MaxFrames {
        scrambled := Empty;
        ticking := false;
        isScrambling := false;
      }
    }
  }
}
