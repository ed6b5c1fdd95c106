/** The deck as the tarot reader receives it: every card carries its texts
    and its (already decoded) artwork. */
module Tarot {
  import opened Images

  /** The textual part of a card (the `Arcana` record). */
  datatype Arcana = Arcana(name: string, description: string, divinatoryMeaning: string, reversedMeaning: string)

  /** A card with its artwork (the `ImagedArcana` record). The field
      `reversedMeaning` is the record's `reversed` text. `imageBase64` is the
      artwork as the deck file encodes it, kept because card equality (the
      exclusion test of `draw_cards`) compares it; `image` is what that text
      decodes to. */
  datatype Card = Card(
    name: string,
    description: string,
    divinatoryMeaning: string,
    reversedMeaning: string,
    physicalDescription: string,
    imageBase64: string,
    image: Image)

  /** A deck: the major arcana followed by the minor arcana. The record
      describes them as 22 and 56 cards but does not enforce either count. */
  datatype Deck = Deck(major: seq<Card>, minor: seq<Card>)

  /** One drawn card and whether it came up reversed. */
  datatype DrawnCard = DrawnCard(card: Card, reversed: bool)

  function ArcanaOf(card: Card): Arcana {
    Arcana(card.name, card.description, card.divinatoryMeaning, card.reversedMeaning)
  }

  /** `deck.major_arcana + deck.minor_arcana`. */
  function AllCards(deck: Deck): seq<Card> {
    deck.major + deck.minor
  }

  /** The cards of a draw, without their orientation. */
  function CardsOf(drawn: seq<DrawnCard>): (r: seq<Card>)
    ensures |r| == |drawn|
    ensures forall i :: 0 <= i < |drawn| ==> r[i] == drawn[i].card
  {
    seq(|drawn|, (i: int) requires 0 <= i < |drawn| => drawn[i].card)
  }
}
