/**
 * The text-scramble frame shared by the portfolio page's reveal, the
 * language-change scramble and the confirm screen: a target text in which
 * the first `locked` positions already show the target, a chosen set of
 * characters (spaces, line breaks) passes through, and every other position
 * shows a random glyph of the alphabet.
 *
 * Randomness is an oracle: `draws[i]` stands for the random number picked
 * for position `i`, and the glyph is `alphabet[draws[i] % |alphabet|]`,
 * the index `Math.floor(Math.random() * alphabet.length)` yields.
 */
module Scramble {
  import opened AppTypes

  /** `scrambleChars`: the Japanese glyphs for the Japanese interface, the base glyphs for every other language. */
  function AlphabetFor(language: Language, base: string, japanese: string): (a: string)
    ensures a == base || a == japanese
    ensures |base| > 0 && |japanese| > 0 ==> |a| > 0
    ensures base != japanese ==> (a == japanese <==> language == JP)
  {
    if language == JP then japanese else base
  }

  /** The glyph one random draw selects. */
  function Glyph(alphabet: string, draw: nat): (c: char)
    requires |alphabet| > 0
    ensures c in alphabet
  {
    alphabet[draw % |alphabet|]
  }

  lemma MulMonotone(m: nat, x: nat, y: nat)
    requires x <= y
    ensures m * x <= m * y
  {
  }

  lemma DivMonotone(a: nat, b: nat, m: nat)
    requires m > 0 && a <= b
    ensures a / m <= b / m
  {
    if a / m > b / m {
      MulMonotone(m, b / m + 1, a / m);
    }
  }

  lemma DivCancel(m: nat, k: nat)
    requires m > 0
    ensures (m * k) / m == k
  {
    var q := (m * k) / m;
    assert m * k == m * q + (m * k) % m;
    if q < k {
      MulMonotone(m, q + 1, k);
    } else if q > k {
      MulMonotone(m, k + 1, q);
    }
  }

  /**
   * `Math.floor((frame / maxFrames) * len)`, taken as the exact rational
   * floor `frame * len / maxFrames`.
   */
  function LockedCount(frame: nat, len: nat, maxFrames: nat): nat
    requires maxFrames > 0
  {
    frame * len / maxFrames
  }

  /** No position is locked before the first frame; every position is locked from the last frame on, and never more than the text holds before it. */
  lemma LockedCountBounds(frame: nat, len: nat, maxFrames: nat)
    requires maxFrames > 0
    ensures LockedCount(0, len, maxFrames) == 0
    ensures frame <= maxFrames ==> LockedCount(frame, len, maxFrames) <= len
    ensures frame >= maxFrames ==> LockedCount(frame, len, maxFrames) >= len
  {
    DivCancel(maxFrames, len);
    assert maxFrames * len == len * maxFrames;
    if frame <= maxFrames {
      MulMonotone(len, frame, maxFrames);
      DivMonotone(frame * len, maxFrames * len, maxFrames);
    } else {
      MulMonotone(len, maxFrames, frame);
      DivMonotone(maxFrames * len, frame * len, maxFrames);
    }
  }

  /** The locked prefix never shrinks from one frame to a later one. */
  lemma LockedCountMonotone(f: nat, g: nat, len: nat, maxFrames: nat)
    requires maxFrames > 0 && f <= g
    ensures LockedCount(f, len, maxFrames) <= LockedCount(g, len, maxFrames)
  {
    MulMonotone(len, f, g);
    assert f * len == len * f && g * len == len * g;
    DivMonotone(f * len, g * len, maxFrames);
  }

  /** What position `i` of a frame shows. */
  function FrameChar(text: string, i: nat, locked: nat, keep: set<char>, alphabet: string, draw: nat): char
    requires i < |text| && |alphabet| > 0
  {
    if i < locked || text[i] in keep then text[i] else Glyph(alphabet, draw)
  }

  /**
   * One scramble frame: it has the target's length, its locked prefix is
   * the target's prefix, pass-through characters stay where they are, and
   * every other position is a glyph of the alphabet.
   */
  function Frame(text: string, locked: nat, keep: set<char>, alphabet: string, draws: seq<nat>): (r: string)
    requires |alphabet| > 0 && |draws| == |text|
    ensures |r| == |text|
    ensures locked <= |text| ==> r[..locked] == text[..locked]
    ensures forall i :: 0 <= i < |text| && text[i] in keep ==> r[i] == text[i]
    ensures forall i :: locked <= i < |text| && text[i] !in keep ==> r[i] in alphabet
  {
    seq(|text|, i requires 0 <= i < |text| => FrameChar(text, i, locked, keep, alphabet, draws[i]))
  }

  /** Once every position is locked the frame is the target itself, whatever the draws. */
  lemma FrameFullyLocked(text: string, locked: nat, keep: set<char>, alphabet: string, draws: seq<nat>)
    requires |alphabet| > 0 && |draws| == |text| && locked >= |text|
    ensures Frame(text, locked, keep, alphabet, draws) == text
  {
  }

  /** The per-tick loop: appends one character per target position. */
  method Render(text: string, locked: nat, keep: set<char>, alphabet: string, draws: seq<nat>) returns (result: string)
    requires |alphabet| > 0 && |draws| == |text|
    ensures result == Frame(text, locked, keep, alphabet, draws)
  {
    result := "";
    var i := 0;
    while i < |text|
      invariant 0 <= i <= |text|
      invariant result == Frame(text, locked, keep, alphabet, draws)[..i]
    {
      if i < locked {
        result := result + [text[i]];
      } else if text[i] in keep {
        result := result + [text[i]];
      } else {
        result := result + [alphabet[draws[i] % |alphabet|]];
      }
      i := i + 1;
    }
  }
}
