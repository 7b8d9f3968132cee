/**
 * The hand of src/game/hand.rs: an ordered row of displayed cards with a
 * hovered and a selected index (`-1` for none), laid out in proportion to the
 * viewport. The viewport size, which the source reads from the window, is a
 * parameter here.
 */
module Hands {
  import opened Numeric
  import opened Vectors
  import opened Cards

  datatype Rect = Rect(x: real, y: real, w: real, h: real)

  /**
   * A card of the hand with its presentation state: its current `scale`
   * (1 at rest), the scale it grows to when hovered, its resting rectangle
   * `baseDimensions`, and the x at which the next card's hover zone starts.
   */
  datatype DisplayedCard = DisplayedCard(
    card: Card,
    scale: real,
    hoveredScale: real,
    baseDimensions: Rect,
    neighbourStart: real)

  /** `DisplayedCard::new`: a card that starts at rest. */
  function NewDisplayedCard(card: Card, hoveredScale: real, baseDimensions: Rect, neighbourStart: real): DisplayedCard {
    DisplayedCard(card, 1.0, hoveredScale, baseDimensions, neighbourStart)
  }

  const ZeroRect: Rect := Rect(0.0, 0.0, 0.0, 0.0)

  function CardsOf(cs: seq<DisplayedCard>): seq<Card> {
    seq(|cs|, i requires 0 <= i < |cs| => cs[i].card)
  }

  function ScalesOf(cs: seq<DisplayedCard>): seq<real> {
    seq(|cs|, i requires 0 <= i < |cs| => cs[i].scale)
  }

  /** Card dimensions for a viewport: a fifth of its width and three tenths of its height. */
  function DimensionsFor(vw: real, vh: real): (real, real) {
    (vw * 0.2, vh * 0.3)
  }

  /**
   * Card number `k` (counted from 1) as `update_card_to_screen` places it. Its
   * x comes from the card's previous width; the last card's hover zone runs to
   * its own right edge.
   */
  function Placed(c: DisplayedCard, k: nat, vw: real, vh: real, last: bool): DisplayedCard {
    var (newW, newH) := DimensionsFor(vw, vh);
    var x := c.baseDimensions.w * 0.3 * (k as real);
    c.(baseDimensions := Rect(x, vh * 0.9, newW, newH),
       neighbourStart := if last then x + newW else newW * 0.3 * ((k + 1) as real))
  }

  /** The last card is placed like the others except that its hover zone ends at its right edge. */
  lemma PlacedLast(c: DisplayedCard, k: nat, vw: real, vh: real)
    ensures var p := Placed(c, k, vw, vh, false);
      Placed(c, k, vw, vh, true) == p.(neighbourStart := p.baseDimensions.x + p.baseDimensions.w)
  {
  }

  /** The whole row laid out for a viewport of `vw` by `vh`. */
  function LaidOut(cs: seq<DisplayedCard>, vw: real, vh: real): (r: seq<DisplayedCard>)
    ensures |r| == |cs|
  {
    seq(|cs|, i requires 0 <= i < |cs| => Placed(cs[i], i + 1, vw, vh, i == |cs| - 1))
  }

  /** The row after `update_card_to_screen`: laid out again unless the recorded screen size is the viewport. */
  function Relayout(cs: seq<DisplayedCard>, screenSize: (real, real), vw: real, vh: real): seq<DisplayedCard> {
    if SameScreen(screenSize, vw, vh) then cs else LaidOut(cs, vw, vh)
  }

  /** The dimensions after `update_card_to_screen`. */
  function Redimensioned(cardDimensions: (real, real), screenSize: (real, real), vw: real, vh: real): (real, real) {
    if SameScreen(screenSize, vw, vh) then cardDimensions else DimensionsFor(vw, vh)
  }

  /** The recorded screen size equals the viewport `vw` by `vh`. */
  predicate SameScreen(screenSize: (real, real), vw: real, vh: real) {
    screenSize.0 == vw && screenSize.1 == vh
  }

  function Removed(cs: seq<DisplayedCard>, k: nat): seq<DisplayedCard>
    requires k < |cs|
  {
    cs[..k] + cs[k + 1..]
  }

  function Rescaled(cs: seq<DisplayedCard>, scales: seq<real>): seq<DisplayedCard>
    requires |scales| == |cs|
  {
    seq(|cs|, i requires 0 <= i < |cs| => cs[i].(scale := scales[i]))
  }

  /** The largest index whose scale exceeds 1, or -1 when no card is raised. */
  function LastRaised(scales: seq<real>): (r: int)
    ensures -1 <= r < |scales|
    ensures r >= 0 ==> scales[r] > 1.0
    ensures forall j :: r < j < |scales| ==> scales[j] <= 1.0
  {
    if |scales| == 0 then -1
    else if scales[|scales| - 1] > 1.0 then |scales| - 1
    else LastRaised(scales[..|scales| - 1])
  }

  /** The selection after `select_hovered_card`. */
  function Toggled(hovered: I8, selected: I8): I8 {
    if hovered == selected then -1 else hovered
  }

  datatype PlayOutcome = Played | UnsupportedEffect

  /** The world's creature roster: each played creature with the cell it was put on. */
  class Roster {
    var creatures: seq<(CreatureCard, IVec2)>

    constructor ()
      ensures creatures == []
    {
      creatures := [];
    }
  }

  class Hand {
    var cardInHands: seq<DisplayedCard>
    var selectedCard: I8
    var hoveredCard: I8
    var hoveredScale: real
    var cardDimensions: (real, real)
    var screenSize: (real, real)

    /** What the documentation of the two index fields promises: each is -1 or a position in the row. */
    predicate IndicesInRange()
      reads this
    {
      -1 <= selectedCard < |cardInHands| && -1 <= hoveredCard < |cardInHands|
    }

    /** `Hand::new`: an empty hand, nothing hovered or selected, and a recorded screen size of 0 x 0. */
    constructor (hoveredScale: real, cardDimensions: (real, real))
      ensures cardInHands == [] && selectedCard == -1 && hoveredCard == -1
      ensures this.hoveredScale == hoveredScale && this.cardDimensions == cardDimensions
      ensures screenSize == (0.0, 0.0)
      ensures IndicesInRange()
    {
      cardInHands := [];
      selectedCard := -1;
      hoveredCard := -1;
      this.hoveredScale := hoveredScale;
      this.cardDimensions := cardDimensions;
      screenSize := (0.0, 0.0);
    }

    /** `add_card`: one card at rest appended, with a zero rectangle and a zero hover bound. */
    method AddCard(card: Card)
      modifies this
      ensures cardInHands == old(cardInHands) + [NewDisplayedCard(card, hoveredScale, ZeroRect, 0.0)]
      ensures selectedCard == old(selectedCard) && hoveredCard == old(hoveredCard)
      ensures hoveredScale == old(hoveredScale) && cardDimensions == old(cardDimensions)
      ensures screenSize == old(screenSize)
      ensures old(IndicesInRange()) ==> IndicesInRange()
    {
      var baseDimensions := ZeroRect;
      var neighbourStart := 0.0;
      var newCardToDisplay := NewDisplayedCard(card, hoveredScale, baseDimensions, neighbourStart);
      cardInHands := cardInHands + [newCardToDisplay];
    }

    predicate CardIsHovered()
      reads this
    {
      hoveredCard != -1
    }

    predicate CardIsSelected()
      reads this
    {
      selectedCard != -1
    }

    /** `select_hovered_card`: selects the hovered card, or clears the selection if it is that card. */
    method SelectHoveredCard()
      modifies this
      ensures selectedCard == Toggled(old(hoveredCard), old(selectedCard))
      ensures CardIsSelected() <==> old(hoveredCard) != -1 && old(hoveredCard) != old(selectedCard)
      ensures hoveredCard == old(hoveredCard) && cardInHands == old(cardInHands)
      ensures hoveredScale == old(hoveredScale) && cardDimensions == old(cardDimensions)
      ensures screenSize == old(screenSize)
      ensures old(IndicesInRange()) ==> IndicesInRange()
    {
      selectedCard := if hoveredCard == selectedCard then -1 else hoveredCard;
    }

    /**
     * `play_card`. The selection must be a position in the row: -1 fails the
     * source's assertion and any other index fails `Vec::remove`. A creature
     * card leaves the row, goes to the roster with `pos`, the selection is
     * cleared and the row is laid out again; `hoveredCard` is left as it was.
     * An effect card is unfinished in the source and is reported as such.
     */
    method PlayCard(roster: Roster, pos: IVec2, vw: real, vh: real) returns (outcome: PlayOutcome)
      requires selectedCard != -1
      requires 0 <= selectedCard < |cardInHands|
      modifies this, roster
      ensures outcome == UnsupportedEffect <==> old(cardInHands[selectedCard]).card.Effect?
      ensures outcome == UnsupportedEffect ==> unchanged(this) && unchanged(roster)
      ensures outcome == Played ==>
        && cardInHands == Relayout(Removed(old(cardInHands), old(selectedCard)), old(screenSize), vw, vh)
        && roster.creatures == old(roster.creatures) + [(old(cardInHands[selectedCard]).card.creature, pos)]
        && selectedCard == -1
        && cardDimensions == Redimensioned(old(cardDimensions), old(screenSize), vw, vh)
      ensures hoveredCard == old(hoveredCard) && hoveredScale == old(hoveredScale)
      ensures screenSize == old(screenSize)
    {
      var k := selectedCard;
      match cardInHands[k].card {
        case Creature(creatureCard) =>
          cardInHands := cardInHands[..k] + cardInHands[k + 1..];
          roster.creatures := roster.creatures + [(creatureCard, pos)];
          selectedCard := -1;
          UpdateCardToScreen(vw, vh);
          outcome := Played;
        case Effect(_) =>
          outcome := UnsupportedEffect;
      }
    }

    /**
     * `update_card_to_screen`: when the viewport differs from the recorded
     * screen size, sets the card dimensions for it and places every card in
     * a row. The recorded screen size itself is never updated.
     */
    method UpdateCardToScreen(vw: real, vh: real)
      modifies this
      ensures cardInHands == Relayout(old(cardInHands), screenSize, vw, vh)
      ensures cardDimensions == Redimensioned(old(cardDimensions), screenSize, vw, vh)
      ensures selectedCard == old(selectedCard) && hoveredCard == old(hoveredCard)
      ensures hoveredScale == old(hoveredScale) && screenSize == old(screenSize)
    {
      var (w, h) := screenSize;
      if w != vw || h != vh {
        cardDimensions := DimensionsFor(vw, vh);
        var cards := cardInHands;
        var i := 0;
        while i < |cards|
          invariant 0 <= i <= |cards| == |cardInHands|
          invariant forall j :: 0 <= j < i ==> cards[j] == Placed(cardInHands[j], j + 1, vw, vh, false)
          invariant forall j :: i <= j < |cards| ==> cards[j] == cardInHands[j]
        {
          cards := cards[i := Placed(cards[i], i + 1, vw, vh, false)];
          i := i + 1;
        }
        // Update the last card to make it completely hoverable
        if |cards| > 0 {
          var last := cards[|cards| - 1];
          cards := cards[|cards| - 1 := last.(neighbourStart := last.baseDimensions.x + last.baseDimensions.w)];
        }
        forall j | 0 <= j < |cards|
          ensures cards[j] == LaidOut(cardInHands, vw, vh)[j]
        {
          if j == |cards| - 1 {
            PlacedLast(cardInHands[j], j + 1, vw, vh);
          }
        }
        cardInHands := cards;
      }
    }

    /**
     * `display_hand`: lays the row out, lets every card animate (the scale each
     * card reaches is given by `scales`, the animation itself being outside
     * this model) and then records as hovered the last card whose scale exceeds
     * 1, converted with `as i8`.
     */
    method DisplayHand(vw: real, vh: real, scales: seq<real>)
      requires |scales| == |cardInHands|
      modifies this
      ensures cardInHands == Rescaled(Relayout(old(cardInHands), screenSize, vw, vh), scales)
      ensures hoveredCard == WrapI8(LastRaised(scales))
      ensures |cardInHands| <= 128 ==> hoveredCard == LastRaised(scales)
      ensures selectedCard == old(selectedCard) && hoveredScale == old(hoveredScale)
      ensures screenSize == old(screenSize)
      ensures cardDimensions == Redimensioned(old(cardDimensions), screenSize, vw, vh)
    {
      var hovered: I8 := -1;
      UpdateCardToScreen(vw, vh);
      var cards := cardInHands;
      for i := 0 to |cards|
        invariant |cards| == |cardInHands|
        invariant forall j :: 0 <= j < i ==> cards[j] == cardInHands[j].(scale := scales[j])
        invariant forall j :: i <= j < |cards| ==> cards[j] == cardInHands[j]
        invariant hovered == WrapI8(LastRaised(scales[..i]))
      {
        cards := cards[i := cards[i].(scale := scales[i])];
        assert scales[..i + 1][..i] == scales[..i];
        // Keeps the hovered card updated
        if cards[i].scale > 1.0 {
          hovered := WrapI8(i);
        }
      }
      assert scales[..|scales|] == scales;
      cardInHands := cards;
      hoveredCard := hovered;
    }
  }

  /** Laying out moves and resizes cards but keeps each card and its scale in place. */
  lemma LayoutKeepsCards(cs: seq<DisplayedCard>, screenSize: (real, real), vw: real, vh: real)
    ensures |Relayout(cs, screenSize, vw, vh)| == |cs|
    ensures CardsOf(Relayout(cs, screenSize, vw, vh)) == CardsOf(cs)
    ensures ScalesOf(Relayout(cs, screenSize, vw, vh)) == ScalesOf(cs)
  {
  }

  /** Playing card `k` shortens the row by one; the cards after it shift down one place, in order. */
  lemma PlayRemovesSelected(cs: seq<DisplayedCard>, k: nat, screenSize: (real, real), vw: real, vh: real)
    requires k < |cs|
    ensures |Relayout(Removed(cs, k), screenSize, vw, vh)| == |cs| - 1
    ensures CardsOf(Relayout(Removed(cs, k), screenSize, vw, vh)) == CardsOf(cs)[..k] + CardsOf(cs)[k + 1..]
  {
    LayoutKeepsCards(Removed(cs, k), screenSize, vw, vh);
    assert CardsOf(Removed(cs, k)) == CardsOf(cs)[..k] + CardsOf(cs)[k + 1..];
  }

  /** Cards just added have width 0, so the first layout puts every one of them at x = 0. */
  lemma FirstLayoutStacksNewCards(cs: seq<DisplayedCard>, vw: real, vh: real)
    requires forall j :: 0 <= j < |cs| ==> cs[j].baseDimensions.w == 0.0
    ensures forall j :: 0 <= j < |LaidOut(cs, vw, vh)| ==> LaidOut(cs, vw, vh)[j].baseDimensions.x == 0.0
  {
  }

  /**
   * From the second layout at one viewport on, card `k` (from 1) sits at
   * `x = 0.3 * (0.2 vw) * k`, and laying out once more changes nothing.
   */
  lemma SecondLayoutSettles(cs: seq<DisplayedCard>, vw: real, vh: real)
    ensures forall j :: 0 <= j < |cs| ==>
      LaidOut(LaidOut(cs, vw, vh), vw, vh)[j].baseDimensions
        == Rect(vw * 0.2 * 0.3 * ((j + 1) as real), vh * 0.9, vw * 0.2, vh * 0.3)
    ensures LaidOut(LaidOut(LaidOut(cs, vw, vh), vw, vh), vw, vh) == LaidOut(LaidOut(cs, vw, vh), vw, vh)
  {
    var r1 := LaidOut(cs, vw, vh);
    var r2 := LaidOut(r1, vw, vh);
    var r3 := LaidOut(r2, vw, vh);
    assert forall j :: 0 <= j < |cs| ==> r3[j] == r2[j];
  }

  /**
   * On a settled layout the hover zones `[x, neighbourStart)` tile the row:
   * each zone is the first 0.3 of its card and ends where the next card
   * starts, and the last zone covers its whole card. Zones of different
   * cards do not overlap.
   */
  lemma HoverZonesOfSettledLayout(cs: seq<DisplayedCard>, vw: real, vh: real)
    requires vw >= 0.0
    requires forall j :: 0 <= j < |cs| ==> cs[j].baseDimensions.w == vw * 0.2
    ensures forall j :: 0 <= j < |cs| - 1 ==>
      LaidOut(cs, vw, vh)[j].neighbourStart == LaidOut(cs, vw, vh)[j + 1].baseDimensions.x
    ensures forall j :: 0 <= j < |cs| - 1 ==>
      LaidOut(cs, vw, vh)[j].neighbourStart
        == LaidOut(cs, vw, vh)[j].baseDimensions.x + 0.3 * LaidOut(cs, vw, vh)[j].baseDimensions.w
    ensures |cs| > 0 ==>
      var last := LaidOut(cs, vw, vh)[|cs| - 1];
      last.neighbourStart == last.baseDimensions.x + last.baseDimensions.w
    ensures forall j, k :: 0 <= j < k < |cs| ==>
      LaidOut(cs, vw, vh)[j].neighbourStart <= LaidOut(cs, vw, vh)[k].baseDimensions.x
  {
    var r := LaidOut(cs, vw, vh);
    forall j | 0 <= j < |cs| - 1
      ensures r[j].neighbourStart == r[j + 1].baseDimensions.x
      ensures r[j].neighbourStart == r[j].baseDimensions.x + 0.3 * r[j].baseDimensions.w
    {
      ZoneMeetsNextCard(cs, vw, vh, j);
    }
    forall j, k | 0 <= j < k < |cs|
      ensures r[j].neighbourStart <= r[k].baseDimensions.x
    {
      ZoneBeforeCard(cs, vw, vh, j, k);
    }
  }

  /** On a settled row a card's hover zone covers its first 0.3 and ends at the next card's x. */
  lemma ZoneMeetsNextCard(cs: seq<DisplayedCard>, vw: real, vh: real, j: nat)
    requires j + 1 < |cs|
    requires cs[j].baseDimensions.w == vw * 0.2 && cs[j + 1].baseDimensions.w == vw * 0.2
    ensures LaidOut(cs, vw, vh)[j].neighbourStart == LaidOut(cs, vw, vh)[j + 1].baseDimensions.x
    ensures LaidOut(cs, vw, vh)[j].neighbourStart
         == LaidOut(cs, vw, vh)[j].baseDimensions.x + 0.3 * LaidOut(cs, vw, vh)[j].baseDimensions.w
  {
    SettledPlacement(cs, vw, vh, j);
    SettledPlacement(cs, vw, vh, j + 1);
    var step := vw * 0.2 * 0.3;
    assert step * ((j + 1) as real) + 0.3 * (vw * 0.2) == step * ((j + 2) as real);
  }

  lemma ZoneBeforeCard(cs: seq<DisplayedCard>, vw: real, vh: real, j: nat, k: nat)
    requires vw >= 0.0
    requires j < k < |cs|
    requires cs[j].baseDimensions.w == vw * 0.2 && cs[k].baseDimensions.w == vw * 0.2
    ensures LaidOut(cs, vw, vh)[j].neighbourStart <= LaidOut(cs, vw, vh)[k].baseDimensions.x
  {
    SettledPlacement(cs, vw, vh, j);
    SettledPlacement(cs, vw, vh, k);
    var step := vw * 0.2 * 0.3;
    MulMonotone(step, (j + 2) as real, (k + 1) as real);
  }

  /** Card `j` of a layout whose cards already have the new width, in terms of the step `0.3 * (0.2 vw)`. */
  lemma SettledPlacement(cs: seq<DisplayedCard>, vw: real, vh: real, j: nat)
    requires j < |cs| && cs[j].baseDimensions.w == vw * 0.2
    ensures LaidOut(cs, vw, vh)[j].baseDimensions.x == vw * 0.2 * 0.3 * ((j + 1) as real)
    ensures LaidOut(cs, vw, vh)[j].baseDimensions.w == vw * 0.2
    ensures j < |cs| - 1 ==> LaidOut(cs, vw, vh)[j].neighbourStart == vw * 0.2 * 0.3 * ((j + 2) as real)
  {
  }

  lemma MulMonotone(c: real, a: real, b: real)
    requires c >= 0.0 && a <= b
    ensures c * a <= c * b
  {
  }

  /** After `display_hand` on at most 128 cards, the hovered index is -1 or the last raised card's position. */
  lemma HoveredIndexInRange(scales: seq<real>)
    requires |scales| <= 128
    ensures WrapI8(LastRaised(scales)) == LastRaised(scales)
    ensures -1 <= WrapI8(LastRaised(scales)) < |scales|
    ensures WrapI8(LastRaised(scales)) != -1 <==> exists j :: 0 <= j < |scales| && scales[j] > 1.0
  {
  }

  /**
   * Two selections with the same hovered card: from any other selection they
   * end with nothing selected; from that card itself they end selecting it.
   * With nothing hovered, a selection always clears.
   */
  lemma SelectTwice(hovered: I8, selected: I8)
    ensures Toggled(hovered, Toggled(hovered, selected)) == if hovered == selected then hovered else -1
    ensures Toggled(-1, selected) == -1
  {
  }

  /**
   * The example row of the game's start-up: three new cards in an 800 x 600
   * viewport. The first layout stacks them at x = 0; from the second on they
   * sit at 48, 96 and 144, each 160 x 180.
   */
  method LayoutExample(goblin: Card, fireBall: Card, monkeyKnight: Card)
  {
    var hand := new Hand(1.4, (160.0, 180.0));
    hand.AddCard(goblin);
    hand.AddCard(fireBall);
    hand.AddCard(monkeyKnight);
    hand.DisplayHand(800.0, 600.0, [1.0, 1.0, 1.0]);
    assert hand.cardInHands[0].baseDimensions.x == 0.0;
    assert hand.cardInHands[2].baseDimensions.x == 0.0;
    hand.DisplayHand(800.0, 600.0, [1.2, 1.0, 1.0]);
    assert hand.cardInHands[0].baseDimensions == Rect(48.0, 540.0, 160.0, 180.0);
    assert hand.cardInHands[1].baseDimensions == Rect(96.0, 540.0, 160.0, 180.0);
    assert hand.cardInHands[2].baseDimensions == Rect(144.0, 540.0, 160.0, 180.0);
    assert hand.hoveredCard == 0;
    hand.SelectHoveredCard();
    assert hand.selectedCard == 0;
    hand.SelectHoveredCard();
    assert hand.selectedCard == -1;
  }

  /**
   * `play_card` does not update `hovered_card`: after playing the only card
   * of the hand, the hovered index still names position 0 of an empty row
   * until the next `display_hand`.
   */
  method StaleHoverAfterPlay(goblin: CreatureCard)
  {
    var hand := new Hand(1.4, (160.0, 180.0));
    hand.AddCard(Creature(goblin));
    hand.DisplayHand(800.0, 600.0, [1.4]);
    hand.SelectHoveredCard();
    assert hand.IndicesInRange();
    var roster := new Roster();
    var outcome := hand.PlayCard(roster, IVec2(3, 4), 800.0, 600.0);
    assert outcome == Played && roster.creatures == [(goblin, IVec2(3, 4))];
    assert hand.cardInHands == [] && hand.hoveredCard == 0;
    assert !hand.IndicesInRange();
  }
}
