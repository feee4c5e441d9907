/**
 * The Klondike rules of the Solitaire app: the deck, the deal, drawing three
 * from the stock and recycling the waste, the tableau and foundation stacking
 * rules, the click-driven moves and the win check.
 *
 * The shuffle is an oracle: the deal takes any deck that holds the same
 * cards as the ordered one. Each state updater handed to `setGameState` is a
 * function from the previous state to the next; the component holding the
 * state and the win flag is the class `App`.
 */
module Solitaire {
  import opened Wrappers
  import opened Decimal

  datatype Suit = Hearts | Diamonds | Clubs | Spades

  /** `SUITS`: the order of the four foundations. */
  const Suits: seq<Suit> := [Hearts, Diamonds, Clubs, Spades]

  /** `SUITS.indexOf(suit)`. */
  function SuitIndex(s: Suit): (i: nat)
    ensures i < 4 && Suits[i] == s
  {
    match s
    case Hearts => 0
    case Diamonds => 1
    case Clubs => 2
    case Spades => 3
  }

  function SuitName(s: Suit): (name: string)
    ensures |name| >= 5 && forall i :: 0 <= i < |name| ==> 'a' <= name[i] <= 'z'
  {
    match s
    case Hearts => "hearts"
    case Diamonds => "diamonds"
    case Clubs => "clubs"
    case Spades => "spades"
  }

  datatype Card = Card(suit: Suit, value: nat, faceUp: bool)

  /** What identifies a card regardless of which way up it lies. */
  datatype Face = Face(suit: Suit, value: nat)

  function FaceOf(c: Card): Face {
    Face(c.suit, c.value)
  }

  /** The card's id, `${suit}-${value}`. */
  function CardId(c: Card): string {
    SuitName(c.suit) + "-" + ToDecimal(c.value)
  }

  /** Two cards with the same id have the same suit and value. */
  lemma CardIdInjective(a: Card, b: Card)
    requires CardId(a) == CardId(b)
    ensures FaceOf(a) == FaceOf(b)
  {
    var na, nb := SuitName(a.suit), SuitName(b.suit);
    var id := CardId(a);
    assert id[0] == na[0] && CardId(b)[0] == nb[0];
    assert a.suit == b.suit;
    assert na == nb;
    assert ToDecimal(a.value) == id[|na| + 1..] == ToDecimal(b.value);
    DecimalInjective(a.value, b.value);
  }

  // ---------------------------------------------------------------- deck

  /** Position `i` of the ordered deck: thirteen values per suit, in suit order. */
  function DeckCard(i: nat): Card
    requires i < 52
  {
    Card(Suits[i / 13], i % 13 + 1, false)
  }

  /** The deck `createDeck` builds. */
  function Deck(): (d: seq<Card>)
    ensures |d| == 52
    ensures forall i :: 0 <= i < 52 ==> !d[i].faceUp && 1 <= d[i].value <= 13
  {
    seq(52, i requires 0 <= i < 52 => DeckCard(i))
  }

  /** The nested loops over the suits and the values 1 to 13. */
  method CreateDeck() returns (deck: seq<Card>)
    ensures deck == Deck()
  {
    deck := [];
    var s := 0;
    while s < 4
      invariant 0 <= s <= 4
      invariant deck == Deck()[..13 * s]
    {
      var value := 1;
      while value <= 13
        invariant 1 <= value <= 14
        invariant deck == Deck()[..13 * s + value - 1]
      {
        assert (13 * s + value - 1) / 13 == s && (13 * s + value - 1) % 13 == value - 1;
        deck := deck + [Card(Suits[s], value, false)];
        value := value + 1;
      }
      s := s + 1;
    }
  }

  /** Every suit and value from 1 to 13 is in the deck. */
  lemma DeckComplete(s: Suit, v: nat)
    requires 1 <= v <= 13
    ensures Card(s, v, false) in Deck()
  {
    var i := 13 * SuitIndex(s) + v - 1;
    assert i / 13 == SuitIndex(s) && i % 13 == v - 1;
    assert Deck()[i] == Card(s, v, false);
  }

  /** The 52 ids are distinct. */
  lemma DeckIdsDistinct(i: nat, j: nat)
    requires i < 52 && j < 52 && i != j
    ensures CardId(Deck()[i]) != CardId(Deck()[j])
  {
    if CardId(Deck()[i]) == CardId(Deck()[j]) {
      CardIdInjective(Deck()[i], Deck()[j]);
    }
  }

  /** Replacing one card trades its count for the new card's. */
  lemma {:induction false} CountUpdate(s: seq<Card>, i: nat, c: Card, f: Face)
    requires i < |s|
    ensures Count(s[i := c], f) + (if FaceOf(s[i]) == f then 1 else 0) == Count(s, f) + (if FaceOf(c) == f then 1 else 0)
    decreases |s|
  {
    var n := |s| - 1;
    if i < n {
      assert s[i := c][..n] == s[..n][i := c];
      CountUpdate(s[..n], i, c, f);
    } else {
      assert s[i := c][..n] == s[..n];
    }
  }

  /**
   * `shuffleDeck`: from the last position down to the second, the card at
   * `i` swaps with the one at `draws[i]`, the index `Math.random` picks in
   * `0..i`. Whatever the draws, the deck keeps its cards.
   */
  method Shuffle(deck: seq<Card>, draws: seq<nat>) returns (shuffled: seq<Card>)
    requires |draws| == |deck| && forall i :: 0 < i < |deck| ==> draws[i] <= i
    ensures |shuffled| == |deck|
    ensures forall f :: Count(shuffled, f) == Count(deck, f)
  {
    var a := new Card[|deck|](k requires 0 <= k < |deck| => deck[k]);
    assert a[..] == deck;
    var i := a.Length - 1;
    while i > 0
      invariant -1 <= i < a.Length
      invariant forall f :: Count(a[..], f) == Count(deck, f)
    {
      var j := draws[i];
      ghost var before := a[..];
      a[i], a[j] := a[j], a[i];
      forall f
        ensures Count(a[..], f) == Count(deck, f)
      {
        CountUpdate(before, i, before[j], f);
        CountUpdate(before[i := before[j]], j, before[i], f);
        assert a[..] == before[i := before[j]][j := before[i]];
      }
      i := i - 1;
    }
    shuffled := a[..];
  }

  // ---------------------------------------------------------------- stacking

  predicate IsRed(s: Suit) {
    s == Hearts || s == Diamonds
  }

  /** `canStackOnTableau`: a King on an empty pile, else one lower in the other colour. */
  predicate CanStackOnTableau(bottom: Option<Card>, top: Card) {
    match bottom
    case None => top.value == 13
    case Some(b) => IsRed(b.suit) != IsRed(top.suit) && b.value == top.value + 1
  }

  /** `canStackOnFoundation`: an Ace on an empty pile, else one higher in the same suit. */
  predicate CanStackOnFoundation(pile: seq<Card>, card: Card) {
    if |pile| == 0 then card.value == 1
    else pile[|pile| - 1].suit == card.suit && pile[|pile| - 1].value == card.value - 1
  }

  /** The top card of a pile, `pile[pile.length - 1]`, or nothing. */
  function Top(pile: seq<Card>): (top: Option<Card>)
    ensures top.None? <==> |pile| == 0
    ensures top.Some? ==> top.value == pile[|pile| - 1]
  {
    if |pile| == 0 then None else Some(pile[|pile| - 1])
  }

  /** A foundation built for suit `s`: the Ace, the two, and so on, all of suit `s`. */
  predicate FoundationRun(pile: seq<Card>, s: Suit) {
    forall i :: 0 <= i < |pile| ==> pile[i].suit == s && pile[i].value == i + 1
  }

  /**
   * On a foundation built for `s`, a card of suit `s` may be stacked exactly
   * when the pile with it on top is still built for `s`.
   */
  lemma FoundationGrows(pile: seq<Card>, s: Suit, card: Card)
    requires FoundationRun(pile, s) && card.suit == s
    ensures CanStackOnFoundation(pile, card) <==> FoundationRun(pile + [card], s)
  {
    if FoundationRun(pile + [card], s) {
      assert (pile + [card])[|pile|] == card;
    }
  }

  /** Consecutive cards stack on each other by the tableau rule. */
  predicate Run(cards: seq<Card>) {
    forall i :: 0 <= i && i + 1 < |cards| ==> CanStackOnTableau(Some(cards[i]), cards[i + 1])
  }

  /**
   * A tableau pile: its face-up cards come after its face-down ones and form
   * a run, and its top card is face up.
   */
  predicate PileValid(p: seq<Card>) {
    && (|p| > 0 ==> p[|p| - 1].faceUp)
    && forall i :: 0 <= i && i + 1 < |p| && p[i].faceUp ==>
      p[i + 1].faceUp && CanStackOnTableau(Some(p[i]), p[i + 1])
  }

  /** In a run each card is one lower than the one it lies on. */
  lemma {:induction false} RunDescends(p: seq<Card>, k: nat, j: nat)
    requires PileValid(p) && k <= j < |p| && p[k].faceUp
    ensures p[j].faceUp && p[j].value + (j - k) == p[k].value
    decreases j - k
  {
    if j > k {
      RunDescends(p, k, j - 1);
    }
  }

  /** No card of a pile's face-up run may be stacked on the same pile's top. */
  lemma NoStackOnOwnRun(p: seq<Card>, k: nat)
    requires PileValid(p) && k < |p| && p[k].faceUp
    ensures !CanStackOnTableau(Top(p), p[k])
  {
    RunDescends(p, k, |p| - 1);
  }

  // ---------------------------------------------------------------- card content

  /** How many cards of a sequence show face `f`, whichever way up. */
  function Count(s: seq<Card>, f: Face): nat
  {
    if |s| == 0 then 0 else Count(s[..|s| - 1], f) + (if FaceOf(s[|s| - 1]) == f then 1 else 0)
  }

  lemma {:induction false} CountAppend(a: seq<Card>, b: seq<Card>, f: Face)
    ensures Count(a + b, f) == Count(a, f) + Count(b, f)
    decreases |b|
  {
    if |b| == 0 {
      assert a + b == a;
    } else {
      assert (a + b)[..|a + b| - 1] == a + b[..|b| - 1];
      CountAppend(a, b[..|b| - 1], f);
    }
  }

  /** Turning cards over changes no count. */
  lemma {:induction false} CountSameFaces(a: seq<Card>, b: seq<Card>, f: Face)
    requires |a| == |b| && forall i :: 0 <= i < |a| ==> FaceOf(a[i]) == FaceOf(b[i])
    ensures Count(a, f) == Count(b, f)
    decreases |a|
  {
    if |a| > 0 {
      CountSameFaces(a[..|a| - 1], b[..|b| - 1], f);
    }
  }

  /** Each card of a sequence is counted. */
  lemma {:induction false} CountMember(s: seq<Card>, i: nat)
    requires i < |s|
    ensures Count(s, FaceOf(s[i])) > 0
    decreases |s|
  {
    if i < |s| - 1 {
      CountMember(s[..|s| - 1], i);
    }
  }

  /** A face that is counted is the face of one of the cards. */
  lemma {:induction false} CountWitness(s: seq<Card>, f: Face) returns (i: nat)
    requires Count(s, f) > 0
    ensures i < |s| && FaceOf(s[i]) == f
    decreases |s|
  {
    if FaceOf(s[|s| - 1]) == f {
      i := |s| - 1;
    } else {
      i := CountWitness(s[..|s| - 1], f);
    }
  }

  /** How many cards of a list of piles show face `f`. */
  function PileCount(ps: seq<seq<Card>>, f: Face): nat
  {
    if |ps| == 0 then 0 else PileCount(ps[..|ps| - 1], f) + Count(ps[|ps| - 1], f)
  }

  /** Replacing one pile trades its count for the new pile's. */
  lemma {:induction false} PileCountUpdate(ps: seq<seq<Card>>, i: nat, p: seq<Card>, f: Face)
    requires i < |ps|
    ensures PileCount(ps[i := p], f) + Count(ps[i], f) == PileCount(ps, f) + Count(p, f)
    decreases |ps|
  {
    var n := |ps| - 1;
    var qs := ps[i := p];
    if i < n {
      assert qs[..n] == ps[..n][i := p];
      PileCountUpdate(ps[..n], i, p, f);
    } else {
      assert qs[..n] == ps[..n];
    }
  }

  /** The count of one pile is part of the count of all of them. */
  lemma {:induction false} PileCountHolds(ps: seq<seq<Card>>, i: nat, f: Face)
    requires i < |ps|
    ensures Count(ps[i], f) <= PileCount(ps, f)
    decreases |ps|
  {
    if i < |ps| - 1 {
      PileCountHolds(ps[..|ps| - 1], i, f);
    }
  }

  lemma {:induction false} EmptyPilesCount(ps: seq<seq<Card>>, f: Face)
    requires forall i :: 0 <= i < |ps| ==> ps[i] == []
    ensures PileCount(ps, f) == 0
    decreases |ps|
  {
    if |ps| > 0 {
      EmptyPilesCount(ps[..|ps| - 1], f);
    }
  }

  /** `reduce((sum, pile) => sum + pile.length, 0)`. */
  function TotalLength(ps: seq<seq<Card>>): nat
  {
    if |ps| == 0 then 0 else TotalLength(ps[..|ps| - 1]) + |ps[|ps| - 1]|
  }

  /** Adding a card to one pile adds one to the total. */
  lemma {:induction false} TotalLengthGrows(ps: seq<seq<Card>>, i: nat, c: Card)
    requires i < |ps|
    ensures TotalLength(ps[i := ps[i] + [c]]) == TotalLength(ps) + 1
    decreases |ps|
  {
    var n := |ps| - 1;
    var qs := ps[i := ps[i] + [c]];
    if i < n {
      assert qs[..n] == ps[..n][i := ps[..n][i] + [c]];
      TotalLengthGrows(ps[..n], i, c);
    } else {
      assert qs[..n] == ps[..n];
    }
  }

  // ---------------------------------------------------------------- game state

  /** Where a selection was taken from: the waste, or `tableau${pile}`. */
  datatype Source = FromWaste | FromTableau(pile: nat)

  /** `selectedCards`: the pile, the index of the first selected card and the cards. */
  datatype Selection = Selection(pile: Source, index: nat, cards: seq<Card>)

  datatype GameState = GameState(
    stock: seq<Card>,
    waste: seq<Card>,
    foundations: seq<seq<Card>>,
    tableau: seq<seq<Card>>,
    selected: Option<Selection>)

  /** Four foundations, seven tableau piles, and a selection that holds at least one card. */
  predicate Shaped(g: GameState) {
    && |g.foundations| == 4 && |g.tableau| == 7
    && (g.selected.Some? ==> |g.selected.value.cards| > 0)
  }

  /** How many cards of the game, face up or down, show face `f`. */
  function AllCount(g: GameState, f: Face): nat {
    Count(g.stock, f) + Count(g.waste, f) + PileCount(g.foundations, f) + PileCount(g.tableau, f)
  }

  /** The selection describes cards that lie where it says they do. */
  predicate Fresh(g: GameState)
    requires Shaped(g)
  {
    match g.selected
    case None => true
    case Some(sel) =>
      match sel.pile
      case FromWaste =>
        |g.waste| > 0 && sel.index == |g.waste| - 1 && sel.cards == [g.waste[|g.waste| - 1]]
      case FromTableau(s) =>
        && s < 7 && sel.index < |g.tableau[s]|
        && sel.cards == g.tableau[s][sel.index..] && g.tableau[s][sel.index].faceUp
  }

  /** Stock face down, waste face up, each foundation built for its suit, every tableau pile valid. */
  predicate Layout(g: GameState)
    requires Shaped(g)
  {
    && (forall k :: 0 <= k < |g.stock| ==> !g.stock[k].faceUp)
    && (forall k :: 0 <= k < |g.waste| ==> g.waste[k].faceUp)
    && (forall i :: 0 <= i < 4 ==> FoundationRun(g.foundations[i], Suits[i]))
    && (forall i :: 0 <= i < 7 ==> PileValid(g.tableau[i]))
  }

  /** Every face occurs in the game as often as in the deck. */
  ghost predicate Conserved(g: GameState) {
    forall f :: AllCount(g, f) == Count(Deck(), f)
  }

  /** A game as play can reach it: the cards lie right and they are the deck's 52. */
  ghost predicate Valid(g: GameState) {
    Shaped(g) && Fresh(g) && Layout(g) && Conserved(g)
  }

  // ---------------------------------------------------------------- the deal

  /** Where each tableau pile's cards start in the shuffled deck; the stock starts at 28. */
  const DealStarts: seq<nat> := [0, 1, 3, 6, 10, 15, 21, 28]

  /** Tableau pile `p` of the deal: the next `p + 1` cards, only the last face up. */
  function DealtPile(deck: seq<Card>, p: nat): seq<Card>
    requires |deck| == 52 && p < 7
  {
    seq(p + 1, c requires 0 <= c <= p => deck[DealStarts[p] + c].(faceUp := c == p))
  }

  /** The state `initGame` returns for a shuffled deck. */
  function Dealt(deck: seq<Card>): GameState
    requires |deck| == 52
  {
    GameState(
      seq(24, k requires 0 <= k < 24 => deck[28 + k].(faceUp := false)),
      [],
      [[], [], [], []],
      DealtTableau(deck),
      None)
  }

  function DealtTableau(deck: seq<Card>): (tab: seq<seq<Card>>)
    requires |deck| == 52
    ensures |tab| == 7 && forall p :: 0 <= p < 7 ==> tab[p] == DealtPile(deck, p)
  {
    seq(7, p requires 0 <= p < 7 => DealtPile(deck, p))
  }

  /** `initGame` after the shuffle: the nested dealing loops, then the rest of the deck to the stock. */
  method InitGame(deck: seq<Card>) returns (g: GameState)
    requires |deck| == 52
    ensures g == Dealt(deck)
  {
    var tableau: seq<seq<Card>> := [];
    var cardIndex := 0;
    var pile := 0;
    while pile < 7
      invariant 0 <= pile <= 7 && cardIndex == DealStarts[pile]
      invariant |tableau| == pile
      invariant forall q :: 0 <= q < pile ==> tableau[q] == DealtPile(deck, q)
    {
      var row: seq<Card> := [];
      var card := 0;
      while card <= pile
        invariant 0 <= card <= pile + 1 && cardIndex == DealStarts[pile] + card
        invariant row == DealtPile(deck, pile)[..card]
      {
        row := row + [deck[cardIndex].(faceUp := card == pile)];
        cardIndex := cardIndex + 1;
        card := card + 1;
      }
      tableau := tableau + [row];
      pile := pile + 1;
    }
    var stock := seq(|deck| - cardIndex, k requires 0 <= k < |deck| - cardIndex => deck[cardIndex + k].(faceUp := false));
    g := GameState(stock, [], [[], [], [], []], tableau, None);
  }

  /** Pile `p` takes the `p + 1` cards after the ones dealt before it, all from the first 28. */
  lemma DealStartsStep(p: nat)
    requires p < 7
    ensures DealStarts[p + 1] == DealStarts[p] + p + 1 <= 28
  {
  }

  /** A dealt pile counts like its stretch of the deck. */
  lemma DealtPileCount(deck: seq<Card>, p: nat, f: Face)
    requires |deck| == 52 && p < 7
    ensures Count(DealtPile(deck, p), f) == Count(deck[DealStarts[p]..DealStarts[p + 1]], f)
  {
    var lo, hi := DealStarts[p], DealStarts[p + 1];
    DealStartsStep(p);
    CountSameFaces(DealtPile(deck, p), deck[lo..hi], f);
  }

  lemma {:induction false} DealtTableauCount(deck: seq<Card>, p: nat, f: Face)
    requires |deck| == 52 && p <= 7
    ensures PileCount(DealtTableau(deck)[..p], f) == Count(deck[..DealStarts[p]], f)
    decreases p
  {
    var tab := DealtTableau(deck);
    if p == 0 {
      assert deck[..0] == [];
    } else {
      DealtTableauCount(deck, p - 1, f);
      assert tab[..p][..p - 1] == tab[..p - 1];
      assert PileCount(tab[..p], f) == PileCount(tab[..p - 1], f) + Count(tab[p - 1], f);
      var lo, hi := DealStarts[p - 1], DealStarts[p];
      DealStartsStep(p - 1);
      DealtPileCount(deck, p - 1, f);
      assert deck[..hi] == deck[..lo] + deck[lo..hi];
      CountAppend(deck[..lo], deck[lo..hi], f);
    }
  }

  /**
   * The deal: pile `p` holds `p + 1` cards with only its last face up, the
   * stock holds the other 24 face down, the waste and the foundations are
   * empty, and the game holds exactly the cards of the shuffled deck.
   */
  lemma DealtValid(deck: seq<Card>)
    requires |deck| == 52 && forall f :: Count(deck, f) == Count(Deck(), f)
    ensures var g := Dealt(deck);
      && Valid(g)
      && (forall p :: 0 <= p < 7 ==> |g.tableau[p]| == p + 1)
      && (forall p, c :: 0 <= p < 7 && 0 <= c <= p ==> (g.tableau[p][c].faceUp <==> c == p))
      && |g.stock| == 24 && g.waste == []
      && (forall i :: 0 <= i < 4 ==> g.foundations[i] == [])
  {
    var g := Dealt(deck);
    forall f
      ensures AllCount(g, f) == Count(Deck(), f)
    {
      DealtTableauCount(deck, 7, f);
      assert DealtTableau(deck)[..7] == g.tableau;
      CountSameFaces(g.stock, deck[28..], f);
      assert deck == deck[..28] + deck[28..];
      CountAppend(deck[..28], deck[28..], f);
      EmptyPilesCount(g.foundations, f);
    }
  }

  // ---------------------------------------------------------------- moves

  /** `slice(0, -1)`: all but the last card, and nothing from nothing. */
  function DropLast(s: seq<Card>): seq<Card> {
    if |s| == 0 then [] else s[..|s| - 1]
  }

  /** `slice(0, k)`. */
  function Prefix(s: seq<Card>, k: nat): seq<Card> {
    if k <= |s| then s[..k] else s
  }

  /** Turns the new top card of a pile face up when it lies face down. */
  function Exposed(p: seq<Card>): (e: seq<Card>)
    ensures |e| == |p| && forall i :: 0 <= i < |p| ==> FaceOf(e[i]) == FaceOf(p[i])
    ensures |p| > 0 ==> e[|p| - 1].faceUp
    ensures forall i :: 0 <= i < |p| - 1 ==> e[i] == p[i]
  {
    if |p| > 0 && !p[|p| - 1].faceUp then p[..|p| - 1] + [p[|p| - 1].(faceUp := true)] else p
  }

  /** `map((c) => ({ ...c, faceUp: true }))`. */
  function TurnedUp(cards: seq<Card>): (up: seq<Card>)
    ensures |up| == |cards|
    ensures forall i :: 0 <= i < |cards| ==> up[i].faceUp && FaceOf(up[i]) == FaceOf(cards[i])
  {
    seq(|cards|, i requires 0 <= i < |cards| => cards[i].(faceUp := true))
  }

  /** `reverse().map((c) => ({ ...c, faceUp: false }))`. */
  function Recycled(waste: seq<Card>): (stock: seq<Card>)
    ensures |stock| == |waste|
    ensures forall i :: 0 <= i < |waste| ==> !stock[i].faceUp && FaceOf(stock[i]) == FaceOf(waste[|waste| - 1 - i])
  {
    seq(|waste|, i requires 0 <= i < |waste| => waste[|waste| - 1 - i].(faceUp := false))
  }

  /**
   * `drawFromStock` as written: with an empty stock the reversed waste
   * becomes the stock face down; otherwise the last (up to) three stock
   * cards go face up, in order, onto the end of the waste. The selection is
   * kept either way.
   */
  function DrawFromStockAsWritten(g: GameState): (r: GameState)
    ensures r.tableau == g.tableau && r.foundations == g.foundations && r.selected == g.selected
    ensures |g.stock| == 0 ==>
      && r.waste == [] && |r.stock| == |g.waste|
      && forall k :: 0 <= k < |g.waste| ==> r.stock[k] == g.waste[|g.waste| - 1 - k].(faceUp := false)
    ensures |g.stock| > 0 ==>
      var n := if |g.stock| < 3 then |g.stock| else 3;
      && r.stock == g.stock[..|g.stock| - n]
      && |r.waste| == |g.waste| + n && r.waste[..|g.waste|] == g.waste
      && forall k :: |g.waste| <= k < |r.waste| ==> r.waste[k] == g.stock[|g.stock| - n + k - |g.waste|].(faceUp := true)
  {
    if |g.stock| == 0 then
      g.(stock := Recycled(g.waste), waste := [])
    else
      var n := if |g.stock| < 3 then |g.stock| else 3;
      g.(stock := g.stock[..|g.stock| - n], waste := g.waste + TurnedUp(g.stock[|g.stock| - n..]))
  }

  /** `drawFromStock` with a waste selection dropped, since the waste top it names is covered or gone. */
  function DrawFromStock(g: GameState): GameState {
    var r := DrawFromStockAsWritten(g);
    if g.selected.Some? && g.selected.value.pile == FromWaste then r.(selected := None) else r
  }

  /**
   * `handleTableauClick`: without a selection nothing happens; a selection
   * whose first card may not go onto the pile's top is dropped; otherwise
   * the selected cards go face up onto the pile and leave their source (the
   * waste loses its top; a tableau source is cut at the selected index and
   * its new top turned up) and the selection is dropped.
   */
  function TableauClick(g: GameState, t: nat): (r: GameState)
    requires Shaped(g) && t < 7
    ensures g.selected.None? ==> r == g
    ensures g.selected.Some? ==> r.selected.None? && r.foundations == g.foundations && r.stock == g.stock
    ensures g.selected.Some? && !CanStackOnTableau(Top(g.tableau[t]), g.selected.value.cards[0]) ==>
      r == g.(selected := None)
  {
    match g.selected
    case None => g
    case Some(sel) =>
      var target := g.tableau[t];
      if !CanStackOnTableau(Top(target), sel.cards[0]) then g.(selected := None)
      else
        var added := g.tableau[t := target + TurnedUp(sel.cards)];
        match sel.pile
        case FromWaste => g.(tableau := added, waste := DropLast(g.waste), selected := None)
        case FromTableau(s) =>
          var moved := if s < 7 then added[s := Exposed(Prefix(added[s], sel.index))] else added;
          g.(tableau := moved, selected := None)
  }

  /** What foundation moves share: `card` goes face up onto foundation `fi` and leaves the top of its source. */
  function PlaceOnFoundation(g: GameState, fi: nat, card: Card, source: Source): (r: GameState)
    requires Shaped(g) && fi < 4
    ensures r.stock == g.stock && r.selected.None?
  {
    var placed := g.(foundations := g.foundations[fi := g.foundations[fi] + [card.(faceUp := true)]], selected := None);
    match source
    case FromWaste => placed.(waste := DropLast(g.waste))
    case FromTableau(s) =>
      if s < 7 then placed.(tableau := g.tableau[s := Exposed(DropLast(g.tableau[s]))]) else placed
  }

  /**
   * `handleFoundationClick`: a single selected card of the foundation's suit
   * that may go on it is placed there; anything else only drops the selection.
   */
  function FoundationClick(g: GameState, fi: nat): (r: GameState)
    requires Shaped(g) && fi < 4
    ensures r.selected.None? && r.stock == g.stock
    ensures g.selected.None? || |g.selected.value.cards| != 1 ==> r == g.(selected := None)
    ensures g.selected.Some? && |g.selected.value.cards| == 1 ==>
      var card := g.selected.value.cards[0];
      !(card.suit == Suits[fi] && CanStackOnFoundation(g.foundations[fi], card)) ==> r == g.(selected := None)
  {
    if g.selected.None? || |g.selected.value.cards| != 1 then g.(selected := None)
    else
      var card := g.selected.value.cards[0];
      if card.suit != Suits[fi] || !CanStackOnFoundation(g.foundations[fi], card) then g.(selected := None)
      else PlaceOnFoundation(g, fi, card, g.selected.value.pile)
  }

  /** `tryMoveToFoundation`: the card goes to the foundation of its suit if it may. */
  function TryMoveToFoundation(g: GameState, card: Card, source: Source): (r: GameState)
    requires Shaped(g)
    ensures r.selected.None? && r.stock == g.stock
    ensures !CanStackOnFoundation(g.foundations[SuitIndex(card.suit)], card) ==> r == g.(selected := None)
  {
    var fi := SuitIndex(card.suit);
    if !CanStackOnFoundation(g.foundations[fi], card) then g.(selected := None)
    else PlaceOnFoundation(g, fi, card, source)
  }

  /** A click on the waste's top card, which is shown only when the waste is not empty. */
  function ClickWaste(g: GameState): (r: GameState)
    ensures |g.waste| == 0 ==> r == g
    ensures |g.waste| > 0 ==> r.selected == Some(Selection(FromWaste, |g.waste| - 1, [g.waste[|g.waste| - 1]]))
  {
    if |g.waste| == 0 then g
    else g.(selected := Some(Selection(FromWaste, |g.waste| - 1, [g.waste[|g.waste| - 1]])))
  }

  /**
   * A click on card `k` of tableau pile `p`: a face-down card ignores it;
   * with a selection only the pile's top card passes it on to
   * `handleTableauClick`; without one the card and all above it are selected.
   */
  function ClickTableauCard(g: GameState, p: nat, k: nat): (r: GameState)
    requires Shaped(g) && p < 7 && k < |g.tableau[p]|
    ensures !g.tableau[p][k].faceUp ==> r == g
    ensures g.tableau[p][k].faceUp && g.selected.None? ==>
      r == g.(selected := Some(Selection(FromTableau(p), k, g.tableau[p][k..])))
  {
    var pile := g.tableau[p];
    if !pile[k].faceUp then g
    else if g.selected.Some? then (if k == |pile| - 1 then TableauClick(g, p) else g)
    else g.(selected := Some(Selection(FromTableau(p), k, pile[k..])))
  }

  /**
   * A click on an empty pile's placeholder: its own handler runs and then, as
   * the click bubbles, the pile's handler, both with the rendered selection.
   * The second finds the selection already dropped, so the click is one move.
   */
  function ClickEmptyPile(g: GameState, p: nat): (r: GameState)
    requires Shaped(g) && p < 7 && |g.tableau[p]| == 0
    ensures r == TableauClick(g, p)
  {
    var once := TableauClick(g, p);
    if g.selected.Some? then TableauClick(once, p) else once
  }

  /** The win check: the foundation piles hold 52 cards between them. */
  predicate Won(g: GameState) {
    TotalLength(g.foundations) == 52
  }

  // ---------------------------------------------------------------- what the moves keep

  /** The cards from a face-up card of a valid pile to its top form a run. */
  lemma SelectedRun(p: seq<Card>, k: nat)
    requires PileValid(p) && k < |p| && p[k].faceUp
    ensures Run(p[k..])
  {
    forall i | 0 <= i && i + 1 < |p[k..]|
      ensures CanStackOnTableau(Some(p[k..][i]), p[k..][i + 1])
    {
      RunDescends(p, k, k + i);
    }
  }

  /** A run whose first card may cover the pile's top, turned face up on it, leaves the pile valid. */
  lemma AppendRun(p: seq<Card>, run: seq<Card>)
    requires PileValid(p) && Run(run) && |run| > 0 && CanStackOnTableau(Top(p), run[0])
    ensures PileValid(p + TurnedUp(run))
  {
    var q := p + TurnedUp(run);
    forall i | 0 <= i && i + 1 < |q| && q[i].faceUp
      ensures q[i + 1].faceUp && CanStackOnTableau(Some(q[i]), q[i + 1])
    {
      if i + 1 >= |p| {
        if i + 1 > |p| {
          assert q[i] == TurnedUp(run)[i - |p|] && q[i + 1] == TurnedUp(run)[i + 1 - |p|];
        }
      }
    }
  }

  /** Cutting a valid pile and turning up its new top leaves it valid. */
  lemma CutPile(p: seq<Card>, k: nat)
    requires PileValid(p) && k <= |p|
    ensures PileValid(Exposed(p[..k]))
  {
  }

  /** How many cards show face `f` is unchanged by turning over the waste into the stock. */
  lemma {:induction false} CountRecycled(w: seq<Card>, f: Face)
    ensures Count(Recycled(w), f) == Count(w, f)
    decreases |w|
  {
    if |w| > 0 {
      var n := |w| - 1;
      assert Recycled(w) == [w[n].(faceUp := false)] + Recycled(w[..n]);
      CountAppend([w[n].(faceUp := false)], Recycled(w[..n]), f);
      assert [w[n].(faceUp := false)][..0] == [];
      CountRecycled(w[..n], f);
    }
  }

  /** Recycling the waste into the stock keeps every count. */
  lemma RecycleCounts(stock: seq<Card>, waste: seq<Card>, f: Face)
    requires stock == []
    ensures Count(Recycled(waste), f) + Count([], f) == Count(stock, f) + Count(waste, f)
  {
    CountRecycled(waste, f);
    CountSameFaces(Recycled(waste), Recycled(waste), f);
  }

  /** Turning the last `|stock| - m` cards of the stock onto the waste keeps every count. */
  lemma DealCounts(stock: seq<Card>, waste: seq<Card>, m: nat, f: Face)
    requires m <= |stock|
    ensures Count(stock[..m], f) + Count(waste + TurnedUp(stock[m..]), f) == Count(stock, f) + Count(waste, f)
  {
    assert stock == stock[..m] + stock[m..];
    CountAppend(stock[..m], stock[m..], f);
    CountAppend(waste, TurnedUp(stock[m..]), f);
    CountSameFaces(TurnedUp(stock[m..]), stock[m..], f);
  }

  /** Drawing (and recycling) moves cards between stock and waste and keeps every count. */
  lemma DrawCounts(g: GameState, f: Face)
    ensures AllCount(DrawFromStock(g), f) == AllCount(g, f)
  {
    if |g.stock| == 0 {
      RecycleCounts(g.stock, g.waste, f);
    } else {
      DealCounts(g.stock, g.waste, |g.stock| - (if |g.stock| < 3 then |g.stock| else 3), f);
    }
  }

  /** Drawing keeps the stock face down, the waste face up and the selection fresh. */
  lemma DrawLayout(g: GameState)
    requires Shaped(g) && Fresh(g) && Layout(g)
    ensures var r := DrawFromStock(g); Shaped(r) && Fresh(r) && Layout(r)
  {
  }

  /** Drawing (and recycling) keeps a valid game valid and the foundations as they are. */
  lemma DrawKeepsValid(g: GameState)
    requires Valid(g)
    ensures Valid(DrawFromStock(g)) && DrawFromStock(g).foundations == g.foundations
  {
    forall f
      ensures AllCount(DrawFromStock(g), f) == AllCount(g, f)
    {
      DrawCounts(g, f);
    }
    DrawLayout(g);
  }

  /** Moving a run from the end of pile `s` onto pile `t` (turning things over on the way) keeps every count. */
  lemma MoveRunCount(ps: seq<seq<Card>>, s: nat, t: nat, keep: seq<Card>, run: seq<Card>, f: Face)
    requires s < |ps| && t < |ps| && s != t && ps[s] == keep + run
    ensures PileCount(ps[t := ps[t] + TurnedUp(run)][s := Exposed(keep)], f) == PileCount(ps, f)
  {
    var qs := ps[t := ps[t] + TurnedUp(run)];
    PileCountUpdate(ps, t, ps[t] + TurnedUp(run), f);
    CountAppend(ps[t], TurnedUp(run), f);
    CountSameFaces(TurnedUp(run), run, f);
    PileCountUpdate(qs, s, Exposed(keep), f);
    CountAppend(keep, run, f);
    CountSameFaces(Exposed(keep), keep, f);
  }

  /** Moving the waste's top onto pile `t` keeps every count. */
  lemma MoveWasteCount(g: GameState, t: nat, f: Face)
    requires |g.waste| > 0 && t < |g.tableau|
    ensures var c := g.waste[|g.waste| - 1];
      Count(DropLast(g.waste), f) + PileCount(g.tableau[t := g.tableau[t] + TurnedUp([c])], f)
      == Count(g.waste, f) + PileCount(g.tableau, f)
  {
    var c := g.waste[|g.waste| - 1];
    PileCountUpdate(g.tableau, t, g.tableau[t] + TurnedUp([c]), f);
    CountAppend(g.tableau[t], TurnedUp([c]), f);
    CountSameFaces(TurnedUp([c]), [c], f);
    assert [c][..0] == [];
  }

  /** A move from the waste onto a pile whose top the card may cover keeps the game valid. */
  lemma WasteToTableauKeepsValid(g: GameState, t: nat)
    requires Valid(g) && t < 7 && g.selected.Some? && g.selected.value.pile == FromWaste
    requires CanStackOnTableau(Top(g.tableau[t]), g.selected.value.cards[0])
    ensures var r := TableauClick(g, t);
      && Valid(r)
      && r.waste == g.waste[..|g.waste| - 1]
      && r.tableau == g.tableau[t := g.tableau[t] + TurnedUp(g.selected.value.cards)]
  {
    var r := TableauClick(g, t);
    var cards := g.selected.value.cards;
    AppendRun(g.tableau[t], cards);
    forall f
      ensures AllCount(r, f) == AllCount(g, f)
    {
      MoveWasteCount(g, t, f);
    }
  }

  /** After a run moves from pile `s` onto pile `t`, every pile is still valid. */
  lemma MoveRunPilesValid(ps: seq<seq<Card>>, s: nat, t: nat, k: nat)
    requires s < |ps| && t < |ps| && s != t && k < |ps[s]| && ps[s][k].faceUp
    requires forall i :: 0 <= i < |ps| ==> PileValid(ps[i])
    requires CanStackOnTableau(Top(ps[t]), ps[s][k])
    ensures var qs := ps[t := ps[t] + TurnedUp(ps[s][k..])][s := Exposed(ps[s][..k])];
      forall i :: 0 <= i < |qs| ==> PileValid(qs[i])
  {
    SelectedRun(ps[s], k);
    AppendRun(ps[t], ps[s][k..]);
    CutPile(ps[s], k);
  }

  /** A move of a tableau run onto a pile whose top its first card may cover keeps the game valid. */
  lemma TableauToTableauKeepsValid(g: GameState, t: nat)
    requires Valid(g) && t < 7 && g.selected.Some? && g.selected.value.pile.FromTableau?
    requires CanStackOnTableau(Top(g.tableau[t]), g.selected.value.cards[0])
    ensures var sel := g.selected.value;
      var s := sel.pile.pile;
      var r := TableauClick(g, t);
      && s != t
      && Valid(r)
      && r.waste == g.waste
      && r.tableau == g.tableau[t := g.tableau[t] + TurnedUp(sel.cards)][s := Exposed(g.tableau[s][..sel.index])]
  {
    var sel := g.selected.value;
    var s := sel.pile.pile;
    var p := g.tableau[s];
    if s == t {
      NoStackOnOwnRun(p, sel.index);
      assert false;
    }
    var added := g.tableau[t := g.tableau[t] + TurnedUp(sel.cards)];
    var moved := added[s := Exposed(p[..sel.index])];
    assert Prefix(added[s], sel.index) == p[..sel.index];
    var r := TableauClick(g, t);
    assert r == g.(tableau := moved, selected := None);
    MoveRunPilesValid(g.tableau, s, t, sel.index);
    assert p == p[..sel.index] + sel.cards;
    forall f
      ensures AllCount(r, f) == AllCount(g, f)
    {
      MoveRunCount(g.tableau, s, t, p[..sel.index], sel.cards, f);
    }
  }

  /**
   * `handleTableauClick` keeps a valid game valid and its foundations as they
   * are; a legal move never has the target as its source.
   */
  lemma TableauClickKeepsValid(g: GameState, t: nat)
    requires Valid(g) && t < 7
    ensures Valid(TableauClick(g, t)) && TableauClick(g, t).foundations == g.foundations
  {
    if g.selected.Some? && CanStackOnTableau(Top(g.tableau[t]), g.selected.value.cards[0]) {
      if g.selected.value.pile == FromWaste {
        WasteToTableauKeepsValid(g, t);
      } else {
        TableauToTableauKeepsValid(g, t);
      }
    }
  }

  /** `card` is the top card of the pile `source` names. */
  predicate SourceTop(g: GameState, card: Card, source: Source)
    requires Shaped(g)
  {
    match source
    case FromWaste => |g.waste| > 0 && g.waste[|g.waste| - 1] == card
    case FromTableau(s) => s < 7 && |g.tableau[s]| > 0 && g.tableau[s][|g.tableau[s]| - 1] == card
  }

  /**
   * Placing the top card of a pile on the foundation of its suit, when the
   * foundation rule allows it, keeps the game valid and puts one more card
   * on the foundations.
   */
  lemma PlaceKeepsValid(g: GameState, fi: nat, card: Card, source: Source)
    requires Shaped(g) && Layout(g) && Conserved(g) && fi < 4
    requires SourceTop(g, card, source) && card.suit == Suits[fi] && CanStackOnFoundation(g.foundations[fi], card)
    ensures var r := PlaceOnFoundation(g, fi, card, source);
      && Valid(r)
      && r.foundations == g.foundations[fi := g.foundations[fi] + [card.(faceUp := true)]]
      && TotalLength(r.foundations) == TotalLength(g.foundations) + 1
  {
    var up := card.(faceUp := true);
    TotalLengthGrows(g.foundations, fi, up);
    PlaceLayout(g, fi, card, source);
    forall f
      ensures AllCount(PlaceOnFoundation(g, fi, card, source), f) == AllCount(g, f)
    {
      PlaceCounts(g, fi, card, source, f);
    }
  }

  /** The placed card leaves the top of its pile and joins the foundation of its suit, still a run. */
  lemma PlaceLayout(g: GameState, fi: nat, card: Card, source: Source)
    requires Shaped(g) && Layout(g) && fi < 4
    requires SourceTop(g, card, source) && card.suit == Suits[fi] && CanStackOnFoundation(g.foundations[fi], card)
    ensures var r := PlaceOnFoundation(g, fi, card, source); Shaped(r) && Fresh(r) && Layout(r)
  {
    FoundationGrows(g.foundations[fi], Suits[fi], card.(faceUp := true));
    if source.FromTableau? {
      var p := g.tableau[source.pile];
      CutPile(p, |p| - 1);
    }
  }

  /** Placing on a foundation moves one card and keeps how often each face occurs. */
  lemma PlaceCounts(g: GameState, fi: nat, card: Card, source: Source, f: Face)
    requires Shaped(g) && fi < 4 && SourceTop(g, card, source)
    ensures AllCount(PlaceOnFoundation(g, fi, card, source), f) == AllCount(g, f)
  {
    var up := card.(faceUp := true);
    PileCountUpdate(g.foundations, fi, g.foundations[fi] + [up], f);
    CountAppend(g.foundations[fi], [up], f);
    assert [up][..0] == [];
    match source
    case FromWaste =>
    case FromTableau(s) =>
      var p := g.tableau[s];
      PileCountUpdate(g.tableau, s, Exposed(DropLast(p)), f);
      CountSameFaces(Exposed(DropLast(p)), DropLast(p), f);
  }

  /**
   * `handleFoundationClick` keeps a valid game valid; it either leaves the
   * foundations as they are or puts the one selected card on foundation `fi`.
   */
  lemma FoundationClickKeepsValid(g: GameState, fi: nat)
    requires Valid(g) && fi < 4
    ensures var r := FoundationClick(g, fi);
      && Valid(r)
      && (r.foundations == g.foundations
          || (&& g.selected.Some? && g.selected.value.cards == [g.selected.value.cards[0]]
              && r.foundations == g.foundations[fi := g.foundations[fi] + [g.selected.value.cards[0].(faceUp := true)]]))
      && TotalLength(r.foundations) >= TotalLength(g.foundations)
  {
    if g.selected.Some? && |g.selected.value.cards| == 1 {
      var sel := g.selected.value;
      var card := sel.cards[0];
      assert sel.cards == [card];
      if card.suit == Suits[fi] && CanStackOnFoundation(g.foundations[fi], card) {
        if sel.pile.FromTableau? {
          assert sel.index == |g.tableau[sel.pile.pile]| - 1;
        }
        PlaceKeepsValid(g, fi, card, sel.pile);
      }
    }
  }

  /** `tryMoveToFoundation` on the top card of a pile keeps a valid game valid. */
  lemma TryMoveKeepsValid(g: GameState, card: Card, source: Source)
    requires Valid(g) && SourceTop(g, card, source)
    ensures var r := TryMoveToFoundation(g, card, source);
      && Valid(r)
      && TotalLength(r.foundations) >= TotalLength(g.foundations)
  {
    var fi := SuitIndex(card.suit);
    if CanStackOnFoundation(g.foundations[fi], card) {
      PlaceKeepsValid(g, fi, card, source);
    }
  }

  /** Selecting the waste's top card keeps a valid game valid. */
  lemma ClickWasteKeepsValid(g: GameState)
    requires Valid(g)
    ensures Valid(ClickWaste(g)) && ClickWaste(g).foundations == g.foundations
  {
  }

  /** A click on a tableau card keeps a valid game valid and the foundations as they are. */
  lemma ClickTableauCardKeepsValid(g: GameState, p: nat, k: nat)
    requires Valid(g) && p < 7 && k < |g.tableau[p]|
    ensures Valid(ClickTableauCard(g, p, k)) && ClickTableauCard(g, p, k).foundations == g.foundations
  {
    if g.tableau[p][k].faceUp && g.selected.Some? && k == |g.tableau[p]| - 1 {
      TableauClickKeepsValid(g, p);
    }
  }

  // ---------------------------------------------------------------- winning

  /** A foundation of a valid game holds at most the thirteen cards of its suit. */
  lemma FoundationBounded(g: GameState, i: nat)
    requires Valid(g) && i < 4
    ensures |g.foundations[i]| <= 13
  {
    var pile := g.foundations[i];
    if |pile| > 13 {
      assert pile[13].value == 14;
      CountMember(pile, 13);
      PileCountHolds(g.foundations, i, FaceOf(pile[13]));
      var j := CountWitness(Deck(), FaceOf(pile[13]));
      assert false;
    }
  }

  /** The total of four piles. */
  lemma TotalLengthFour(ps: seq<seq<Card>>)
    requires |ps| == 4
    ensures TotalLength(ps) == |ps[0]| + |ps[1]| + |ps[2]| + |ps[3]|
  {
    assert ps[..3][..2] == ps[..2] && ps[..2][..1] == ps[..1] && ps[..1][..0] == [];
    assert TotalLength(ps[..1]) == |ps[0]|;
    assert TotalLength(ps[..2]) == |ps[0]| + |ps[1]|;
    assert TotalLength(ps[..3]) == |ps[0]| + |ps[1]| + |ps[2]|;
  }

  /**
   * The win check of a valid game holds exactly when each foundation holds
   * thirteen cards, the Ace to the King of its suit; so 52 is as far as the
   * foundations go.
   */
  lemma WonMeansComplete(g: GameState)
    requires Valid(g)
    ensures Won(g) <==> forall i :: 0 <= i < 4 ==> |g.foundations[i]| == 13
    ensures Won(g) ==> forall i, v :: 0 <= i < 4 && 0 <= v < 13 ==>
      g.foundations[i][v].suit == Suits[i] && g.foundations[i][v].value == v + 1
    ensures TotalLength(g.foundations) <= 52
  {
    TotalLengthFour(g.foundations);
    FoundationBounded(g, 0);
    FoundationBounded(g, 1);
    FoundationBounded(g, 2);
    FoundationBounded(g, 3);
  }

  /** A King selected on the waste, a five of hearts left in the stock, everything else empty. */
  function StaleExample(): (g: GameState)
    ensures Shaped(g) && Fresh(g) && Layout(g)
  {
    var e: seq<Card> := [];
    GameState([Card(Hearts, 5, false)], [Card(Spades, 13, true)], [e, e, e, e], [e, e, e, e, e, e, e],
      Some(Selection(FromWaste, 0, [Card(Spades, 13, true)])))
  }

  /** As written, the draw keeps the waste selection though the King is no longer the waste's top. */
  lemma StaleWasteSelection()
    ensures !Fresh(DrawFromStockAsWritten(StaleExample()))
    ensures Fresh(DrawFromStock(StaleExample()))
  {
  }

  /**
   * The stale selection then moves the King onto an empty pile and drops the
   * five from the waste: the King is in the game twice and the five is gone.
   */
  lemma StaleSelectionLosesCard()
    ensures var g := StaleExample();
      var moved := TableauClick(DrawFromStockAsWritten(g), 0);
      var king, five := Face(Spades, 13), Face(Hearts, 5);
      && AllCount(g, five) == 1 && AllCount(moved, five) == 0
      && AllCount(g, king) == 1 && AllCount(moved, king) == 2
  {
    var king, five := Card(Spades, 13, true), Card(Hearts, 5, false);
    var e: seq<Card> := [];
    var g := StaleExample();
    var drawn := DrawFromStockAsWritten(g);
    assert drawn.waste == [king, five.(faceUp := true)];
    var moved := TableauClick(drawn, 0);
    assert TurnedUp([king]) == [king];
    assert e + [king] == [king];
    assert moved.waste == [king] && moved.stock == [];
    assert moved.tableau == g.tableau[0 := [king]];
    assert moved.foundations == g.foundations;
    CountsOfExample(g, moved, FaceOf(king));
    CountsOfExample(g, moved, FaceOf(five));
  }

  lemma CountsOfExample(g: GameState, moved: GameState, f: Face)
    requires g == StaleExample()
    requires moved.waste == [Card(Spades, 13, true)] && moved.stock == []
    requires moved.tableau == g.tableau[0 := [Card(Spades, 13, true)]] && moved.foundations == g.foundations
    ensures AllCount(g, f) == if f == Face(Hearts, 5) || f == Face(Spades, 13) then 1 else 0
    ensures AllCount(moved, f) == if f == Face(Spades, 13) then 2 else 0
  {
    EmptyPilesCount(g.foundations, f);
    EmptyPilesCount(g.tableau, f);
    PileCountUpdate(g.tableau, 0, [Card(Spades, 13, true)], f);
    assert [Card(Spades, 13, true)][..0] == [] && [Card(Hearts, 5, false)][..0] == [];
  }

  // ---------------------------------------------------------------- the component

  /** The `Solitaire` component: the game state and the `gameWon` flag. */
  class App {
    var state: GameState
    var gameWon: bool

    /** The game is one play can reach and the flag tells whether it is won. */
    ghost predicate Inv()
      reads this
    {
      Valid(state) && (gameWon <==> Won(state))
    }

    /** The first render: `initGame` deals a shuffle of the ordered deck; the game is not won. */
    constructor(draws: seq<nat>)
      requires |draws| == 52 && forall i :: 0 < i < 52 ==> draws[i] <= i
      ensures Inv() && !gameWon
      ensures exists deck :: |deck| == 52 && state == Dealt(deck)
    {
      var ordered := CreateDeck();
      var deck := Shuffle(ordered, draws);
      var g := InitGame(deck);
      state := g;
      gameWon := false;
      new;
      DealtValid(deck);
      TotalLengthFour(state.foundations);
    }

    /** The win effect: the flag goes up once the foundations hold 52 cards, and never down. */
    method CheckWin()
      requires Valid(state) && (gameWon ==> Won(state))
      modifies this
      ensures Inv() && state == old(state)
    {
      if TotalLength(state.foundations) == 52 {
        gameWon := true;
      }
    }

    /** `newGame`: a fresh deal of a shuffled deck, not won. */
    method OnNewGame(draws: seq<nat>)
      requires |draws| == 52 && forall i :: 0 < i < 52 ==> draws[i] <= i
      modifies this
      ensures Inv() && !gameWon
      ensures exists deck :: |deck| == 52 && state == Dealt(deck)
    {
      var ordered := CreateDeck();
      var deck := Shuffle(ordered, draws);
      state := InitGame(deck);
      gameWon := false;
      DealtValid(deck);
      TotalLengthFour(state.foundations);
    }

    /** A click on the stock. */
    method OnStockClick()
      requires Inv()
      modifies this
      ensures Inv() && state == DrawFromStock(old(state)) && gameWon == old(gameWon)
    {
      DrawKeepsValid(state);
      state := DrawFromStock(state);
      CheckWin();
    }

    /** A click on the waste's top card. */
    method OnWasteClick()
      requires Inv()
      modifies this
      ensures Inv() && state == ClickWaste(old(state)) && gameWon == old(gameWon)
    {
      ClickWasteKeepsValid(state);
      state := ClickWaste(state);
      CheckWin();
    }

    /** A click on card `k` of tableau pile `p`. */
    method OnTableauCardClick(p: nat, k: nat)
      requires Inv() && p < 7 && k < |state.tableau[p]|
      modifies this
      ensures Inv() && state == ClickTableauCard(old(state), p, k) && gameWon == old(gameWon)
    {
      ClickTableauCardKeepsValid(state, p, k);
      state := ClickTableauCard(state, p, k);
      CheckWin();
    }

    /** A click on the placeholder of an empty tableau pile. */
    method OnEmptyPileClick(p: nat)
      requires Inv() && p < 7 && |state.tableau[p]| == 0
      modifies this
      ensures Inv() && state == ClickEmptyPile(old(state), p) && gameWon == old(gameWon)
    {
      TableauClickKeepsValid(state, p);
      state := ClickEmptyPile(state, p);
      CheckWin();
    }

    /** A click on foundation `fi`; this is the one move that can win the game. */
    method OnFoundationClick(fi: nat)
      requires Inv() && fi < 4
      modifies this
      ensures Inv() && state == FoundationClick(old(state), fi)
      ensures old(gameWon) ==> gameWon
    {
      var before := state;
      FoundationClickKeepsValid(before, fi);
      state := FoundationClick(state, fi);
      WonMeansComplete(before);
      WonMeansComplete(state);
      CheckWin();
    }
  }
}
