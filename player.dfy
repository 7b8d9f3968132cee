/**
 * The player of src/game/player.rs, with the deck shape of src/game/deck.rs:
 * hit points, action points, and a current deck split into an unplayed and
 * a played pile.
 */
module Players {
  import opened Numeric
  import opened Cards

  datatype Deck = Deck(deckId: U32, deckSize: U32, cardsUnplayed: seq<Card>, cardsPlayed: seq<Card>) {

    /**
     * The deck after card `index` of the unplayed pile is played: it leaves
     * that pile, the others keeping their order, and goes on top of the
     * played pile. No card is lost or duplicated.
     */
    function PlayAt(index: nat): (d: Deck)
      requires index < |cardsUnplayed|
      ensures |d.cardsUnplayed| == |cardsUnplayed| - 1
      ensures forall j :: 0 <= j < |d.cardsUnplayed| ==>
        d.cardsUnplayed[j] == cardsUnplayed[if j < index then j else j + 1]
      ensures |d.cardsPlayed| == |cardsPlayed| + 1
      ensures d.cardsPlayed[..|cardsPlayed|] == cardsPlayed && d.cardsPlayed[|cardsPlayed|] == cardsUnplayed[index]
      ensures multiset(d.cardsUnplayed) + multiset(d.cardsPlayed) == multiset(cardsUnplayed) + multiset(cardsPlayed)
      ensures d.deckId == deckId && d.deckSize == deckSize
    {
      var chosen := cardsUnplayed[index];
      assert cardsUnplayed == cardsUnplayed[..index] + [chosen] + cardsUnplayed[index + 1..];
      this.(cardsUnplayed := cardsUnplayed[..index] + cardsUnplayed[index + 1..],
            cardsPlayed := cardsPlayed + [chosen])
    }
  }

  /** What `playCard` reports; the source prints a message for each refusal. */
  datatype PlayOutcome = Played | InvalidIndex | InsufficientActionPoints

  const EmptyDeck: Deck := Deck(0, 0, [], [])

  class Player {
    var idPlayer: U32
    var name: string
    var decks: seq<Deck>
    var deckCurrent: Deck
    var hpMax: U32
    var hpCurrent: U32
    var apMax: U32
    var apCurrent: U32

    /** `Player::new`: full health of 100 and 10 action points; the decks start empty. */
    constructor (id: U32, name: string)
      ensures idPlayer == id && this.name == name
      ensures hpMax == 100 && hpCurrent == 100 && apMax == 10 && apCurrent == 10
      ensures decks == [] && deckCurrent == EmptyDeck
    {
      idPlayer := id;
      this.name := name;
      decks := [];
      deckCurrent := EmptyDeck;
      hpMax := 100;
      hpCurrent := 100;
      apMax := 10;
      apCurrent := 10;
    }

    /**
     * `playCard`: an index past the unplayed pile, or a card costing more than
     * the action points left, changes nothing; otherwise the cost is paid and
     * the card moves from the unplayed to the played pile.
     */
    method PlayCard(index: U32) returns (outcome: PlayOutcome)
      modifies this
      ensures outcome == InvalidIndex <==> index >= |old(deckCurrent.cardsUnplayed)|
      ensures outcome == InsufficientActionPoints <==>
        index < |old(deckCurrent.cardsUnplayed)| && old(apCurrent) < old(deckCurrent.cardsUnplayed[index].Cost())
      ensures outcome != Played ==> deckCurrent == old(deckCurrent) && apCurrent == old(apCurrent)
      ensures outcome == Played ==>
        && apCurrent == old(apCurrent) - old(deckCurrent.cardsUnplayed[index].Cost())
        && deckCurrent == old(deckCurrent).PlayAt(index)
      ensures idPlayer == old(idPlayer) && name == old(name) && decks == old(decks)
      ensures hpMax == old(hpMax) && hpCurrent == old(hpCurrent) && apMax == old(apMax)
    {
      if index >= |deckCurrent.cardsUnplayed| {
        return InvalidIndex;
      }
      var cardChosen := deckCurrent.cardsUnplayed[index];
      if apCurrent >= cardChosen.Cost() {
        apCurrent := apCurrent - cardChosen.Cost();
        var unplayed := deckCurrent.cardsUnplayed;
        var playedCard := unplayed[index];
        deckCurrent := deckCurrent.(cardsUnplayed := unplayed[..index] + unplayed[index + 1..]);
        deckCurrent := deckCurrent.(cardsPlayed := deckCurrent.cardsPlayed + [playedCard]);
        outcome := Played;
      } else {
        outcome := InsufficientActionPoints;
      }
    }

    /** `updateHp`: adds to the current hit points, with no clamp at the maximum; the sum must fit in `u32`. */
    method UpdateHp(amount: U32)
      requires hpCurrent + amount <= U32Max
      modifies this
      ensures hpCurrent == old(hpCurrent) + amount
      ensures hpMax == old(hpMax) && apMax == old(apMax) && apCurrent == old(apCurrent)
      ensures idPlayer == old(idPlayer) && name == old(name) && decks == old(decks) && deckCurrent == old(deckCurrent)
    {
      hpCurrent := hpCurrent + amount;
    }
  }

  /** Playing a card leaves the total number of cards in the deck unchanged. */
  lemma PlayConservesCardCount(deck: Deck, index: nat)
    requires index < |deck.cardsUnplayed|
    ensures |deck.PlayAt(index).cardsUnplayed| + |deck.PlayAt(index).cardsPlayed|
         == |deck.cardsUnplayed| + |deck.cardsPlayed|
  {
  }

  /** A new player gains hit points past its maximum: `updateHp` does not clamp. */
  method HitPointsExceedMaximum()
  {
    var player := new Player(1, "Ada");
    player.UpdateHp(5);
    assert player.hpCurrent == 105 && player.hpCurrent > player.hpMax;
  }
}
