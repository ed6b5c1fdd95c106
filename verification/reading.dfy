/** The "Shuffle and Draw Cards" step of the reading page: pick the querent's
    card, draw ten others, and lay them out in the Keltic Cross. */
module Reading {
  import opened Results
  import opened Images
  import opened Tarot
  import opened Drawing
  import opened Court
  import opened Spread

  /** The number of cards the reading draws. */
  const SpreadSize: int := 10

  /** Why a reading failed: the querent's card could not be shown (its artwork
      does not decode, and the page stops before the draw button), fewer than
      two cards could be drawn (popping the first two from the list raised),
      or the spread could not be drawn. */
  datatype ReadingError = QuerentUndecodable | PopFromEmptyList | SpreadFailed(error: SpreadError)

  /** The querent's card, the drawn cards in spread order, and the spread. */
  datatype KelticReading = KelticReading(querent: Option<Card>, cards: seq<DrawnCard>, layout: Image)

  /** The court card the querent selected: the first court card of the minor
      arcana with the selected name, if there is one. When several court
      cards share that name, the first is the one the reading excludes. */
  function Querent(deck: Deck, selected: Option<string>): (r: Option<Card>)
    ensures r.Some? ==> && r.value in deck.minor && IsCourtName(r.value.name)
                        && selected == Some(r.value.name)
    ensures r.None? <==> forall c :: c in deck.minor && IsCourtName(c.name) ==> selected != Some(c.name)
    ensures r.Some? ==> exists i :: && 0 <= i < |deck.minor| && deck.minor[i] == r.value
                                    && forall j :: 0 <= j < i ==> !Selects(deck.minor[j], selected)
  {
    var court := CourtCards(deck.minor);
    var r := FindByName(court, selected);
    FindCourtCard(deck.minor, selected);
    assert forall c :: c in court <==> exists i :: 0 <= i < |court| && court[i] == c;
    r
  }

  /** Taking "This Covers" and "This Crosses" off the front of the drawn list
      and putting them back in front of the rest: the list is unchanged, and
      the pops raise when fewer than two cards were drawn. */
  function SpreadOrder(drawn: seq<DrawnCard>): (r: Result<seq<DrawnCard>, ReadingError>)
    ensures r.Success? <==> |drawn| >= 2
    ensures r.Success? ==> r.value == drawn
    ensures r.Failure? ==> r.error == PopFromEmptyList
  {
    if |drawn| == 0 then Failure(PopFromEmptyList)
    else
      var covers := drawn[0];
      var remaining := drawn[1..];
      if |remaining| == 0 then Failure(PopFromEmptyList)
      else
        var crosses := remaining[0];
        var rest := remaining[1..];
        Success([covers, crosses] + rest)
  }

  /** The cards the reading may draw: the whole deck except the querent's card. */
  function ReadingPool(deck: Deck, selected: Option<string>): seq<Card> {
    Available(deck, [Querent(deck, selected)])
  }

  /** The querent's card, when one was found, is shown before the reading can
      start; showing it decodes its artwork. */
  predicate QuerentShown(deck: Deck, selected: Option<string>) {
    var querent := Querent(deck, selected);
    querent.Some? ==> Decodable(querent.value.image)
  }

  /** The pops and the spread (lines after the draw): take "This Covers" and
      "This Crosses" off the drawn list, then draw the Keltic Cross with them
      in front of the rest. */
  function PopAndSpread(querent: Option<Card>, drawn: seq<DrawnCard>): (r: Result<KelticReading, ReadingError>)
    requires |drawn| <= SlotCount
    ensures r.Success? <==> |drawn| >= 2 && forall i :: 0 <= i < |drawn| ==> Decodable(drawn[i].card.image)
    ensures (r.Failure? && r.error == PopFromEmptyList) <==> |drawn| < 2
    ensures r.Failure? ==> r.error.PopFromEmptyList? || (r.error.SpreadFailed? && r.error.error.UndecodableImage?)
    ensures r.Success? ==>
      && r.value.querent == querent && r.value.cards == drawn
      && r.value.layout.width == CanvasSize && r.value.layout.height == CanvasSize
      && DrawKelticCross(drawn) == Success(r.value.layout)
  {
    DecodesAll(drawn);
    match SpreadOrder(drawn)
    case Failure(e) => Failure(e)
    case Success(ordered) =>
      match DrawKelticCross(ordered)
      case Failure(e) => Failure(SpreadFailed(e))
      case Success(layout) => Success(KelticReading(querent, ordered, layout))
  }

  /** Show the querent's card, then shuffle, draw ten cards excluding the
      querent's, and draw the spread. `picks` and `coins` are the results of
      the random calls. */
  function ShuffleAndDraw(deck: Deck, selected: Option<string>, picks: seq<nat>, coins: seq<bool>)
    : (r: Result<KelticReading, ReadingError>)
    requires |picks| >= |AllCards(deck)| && |coins| >= |AllCards(deck)|
    ensures (r.Failure? && r.error == QuerentUndecodable) <==> !QuerentShown(deck, selected)
    ensures (r.Failure? && r.error == PopFromEmptyList) <==>
      QuerentShown(deck, selected) && |ReadingPool(deck, selected)| < 2
    ensures r.Failure? ==>
      r.error.QuerentUndecodable? || r.error.PopFromEmptyList? || (r.error.SpreadFailed? && r.error.error.UndecodableImage?)
    ensures var drawn := DrawCards(deck, SpreadSize, [Querent(deck, selected)], picks, coins);
      r.Success? <==> && QuerentShown(deck, selected) && |drawn| >= 2
                      && forall i :: 0 <= i < |drawn| ==> Decodable(drawn[i].card.image)
    ensures r.Success? ==>
      && r.value.querent == Querent(deck, selected)
      && r.value.cards == DrawCards(deck, SpreadSize, [Querent(deck, selected)], picks, coins)
      && 2 <= |r.value.cards| <= SlotCount
      && |r.value.cards| == DrawCount(|ReadingPool(deck, selected)|, SpreadSize)
      && r.value.layout.width == CanvasSize && r.value.layout.height == CanvasSize
      && DrawKelticCross(r.value.cards) == Success(r.value.layout)
  {
    var querent := Querent(deck, selected);
    if !QuerentShown(deck, selected) then Failure(QuerentUndecodable)
    else
      var drawn := DrawCards(deck, SpreadSize, [querent], picks, coins);
      DrawSize(deck, selected, picks, coins);
      PopAndSpread(querent, drawn)
  }

  /** The reading draws `min(10, pool size)` cards, so at least two exactly
      when the pool holds at least two. */
  lemma DrawSize(deck: Deck, selected: Option<string>, picks: seq<nat>, coins: seq<bool>)
    requires |picks| >= |AllCards(deck)| && |coins| >= |AllCards(deck)|
    ensures var drawn := DrawCards(deck, SpreadSize, [Querent(deck, selected)], picks, coins);
      && |drawn| == DrawCount(|ReadingPool(deck, selected)|, SpreadSize) <= SlotCount
      && (|drawn| >= 2 <==> |ReadingPool(deck, selected)| >= 2)
  {
  }

  /** Every card of a draw decodes exactly when the spread's check passes at
      every index. */
  lemma DecodesAll(drawn: seq<DrawnCard>)
    ensures (forall i :: 0 <= i < |drawn| ==> Decodes(drawn, i))
        <==> (forall i :: 0 <= i < |drawn| ==> Decodable(drawn[i].card.image))
  {
    if forall i :: 0 <= i < |drawn| ==> Decodable(drawn[i].card.image) {
      forall i | 0 <= i < |drawn| ensures Decodes(drawn, i) {
        assert Decodable(drawn[i].card.image);
      }
    } else {
      var k :| 0 <= k < |drawn| && !Decodable(drawn[k].card.image);
      assert !Decodes(drawn, k);
    }
  }

  /** A successful reading never draws the querent's card, and draws only
      cards of the deck. */
  lemma ReadingExcludesQuerent(deck: Deck, selected: Option<string>, picks: seq<nat>, coins: seq<bool>)
    requires |picks| >= |AllCards(deck)| && |coins| >= |AllCards(deck)|
    ensures var r := ShuffleAndDraw(deck, selected, picks, coins);
      r.Success? ==>
        forall i :: 0 <= i < |r.value.cards| ==>
          && r.value.cards[i].card in AllCards(deck)
          && r.value.querent != Some(r.value.cards[i].card)
  {
  }
}
