/**
 * `useScrambleReveal` of the portfolio page: once its trigger is on, an
 * interval advances a frame counter and shows the target text with a
 * growing locked prefix, spaces kept and random glyphs elsewhere, until the
 * last frame shows the target and the interval stops.
 */
module ScrambleReveal {
  import opened Scramble

  /** `Math.max(text.length * 2, 20)`. */
  function MaxFrames(len: nat): (m: nat)
    ensures m >= 20 && m >= 2 * len
    ensures m == 20 || m == 2 * len
  {
    if 2 * len > 20 then 2 * len else 20
  }

  /** The page reveal keeps only spaces. */
  const Kept: set<char> := {' '}

  class Reveal {
    const text: string
    const alphabet: string
    /** The string the hook returns. */
    var displayed: string
    /** The interval's frame counter. */
    var frame: nat
    /** Whether an interval is currently scheduled. */
    var running: bool

    ghost predicate Valid()
      reads this
    {
      && |alphabet| > 0
      && frame <= MaxFrames(|text|)
      && (running ==> frame < MaxFrames(|text|))
      && (frame == MaxFrames(|text|) ==> displayed == text)
    }

    /** Mounting: nothing is shown and no interval runs. */
    constructor(text: string, alphabet: string)
      requires |alphabet| > 0
      ensures Valid()
      ensures this.text == text && this.alphabet == alphabet
      ensures displayed == "" && frame == 0 && !running
    {
      this.text := text;
      this.alphabet := alphabet;
      displayed := "";
      frame := 0;
      running := false;
    }

    /**
     * The effect, run when the trigger (or the text) changes: the previous
     * interval is cleared; with the trigger on a fresh one starts at frame
     * 0, with it off nothing else happens. The displayed text is not touched.
     */
    method Effect(trigger: bool)
      requires Valid()
      modifies this
      ensures Valid()
      ensures running == trigger
      ensures frame == if trigger then 0 else old(frame)
      ensures displayed == old(displayed)
    {
      running := false;
      if !trigger {
        return;
      }
      frame := 0;
      running := true;
    }

    /**
     * One interval tick with the random draws of this frame: the frame
     * counter advances, the frame is rendered, and at the last frame the
     * target is shown and the interval is cleared.
     */
    method Tick(draws: seq<nat>)
      requires Valid() && running && |draws| == |text|
      modifies this
      ensures Valid()
      ensures frame == old(frame) + 1
      ensures running <==> frame < MaxFrames(|text|)
      ensures frame < MaxFrames(|text|) ==>
        displayed == Frame(text, LockedCount(frame, |text|, MaxFrames(|text|)), Kept, alphabet, draws)
      ensures frame == MaxFrames(|text|) ==> displayed == text
      ensures |displayed| == |text|
    {
      frame := frame + 1;
      var maxFrames := MaxFrames(|text|);
      var locked := LockedCount(frame, |text|, maxFrames);
      displayed := Render(text, locked, Kept, alphabet, draws);
      if frame >= maxFrames {
        displayed := text;
        running := false;
      }
    }
  }

  /**
   * What a tick shows: the target's length, the target on the locked prefix,
   * spaces kept, glyphs of the alphabet elsewhere; the locked prefix of a
   * later frame is at least as long.
   */
  lemma TickShows(text: string, alphabet: string, frame: nat, draws: seq<nat>)
    requires |alphabet| > 0 && |draws| == |text| && 1 <= frame < MaxFrames(|text|)
    ensures var locked := LockedCount(frame, |text|, MaxFrames(|text|));
      var shown := Frame(text, locked, Kept, alphabet, draws);
      && locked <= |text|
      && LockedCount(frame - 1, |text|, MaxFrames(|text|)) <= locked
      && shown[..locked] == text[..locked]
      && (forall i :: 0 <= i < |text| && text[i] == ' ' ==> shown[i] == ' ')
      && (forall i :: locked <= i < |text| && text[i] != ' ' ==> shown[i] in alphabet)
  {
    LockedCountBounds(frame, |text|, MaxFrames(|text|));
    LockedCountMonotone(frame - 1, frame, |text|, MaxFrames(|text|));
  }
}
