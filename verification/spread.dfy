/** The Keltic Cross spread: ten thumbnails pasted onto a white 1000 x 1000
    canvas at the fixed positions of the spread, the second one crosswise. */
module Spread {
  import opened Results
  import opened Images
  import opened Tarot

  const CanvasSize: nat := 1000
  const ThumbWidth: nat := 120
  const ThumbHeight: nat := 180
  const SlotCount: nat := 10

  /** Top-left corner of each position of the spread, keyed 1 to 10 like the
      table of `draw_keltic_cross`; the card at list index i goes to key i+1. */
  const Positions: map<int, Point> := map[
    1 := Point(350, 450),   // This Covers
    2 := Point(325, 475),   // This Crosses
    3 := Point(350, 700),   // This Is Beneath
    4 := Point(100, 450),   // This Is Behind
    5 := Point(350, 200),   // This Crowns
    6 := Point(600, 450),   // This Is Before
    7 := Point(800, 750),   // What He Fears
    8 := Point(800, 550),   // Family Opinion
    9 := Point(800, 350),   // Hopes
    10 := Point(800, 150)   // Final Outcome
  ]

  /** Why a spread could not be drawn: the card at `index` has artwork that
      does not decode, or the table has no position for `key`. */
  datatype SpreadError = UndecodableImage(index: nat) | MissingPosition(key: int)

  /** The table has exactly the keys 1 to 10. */
  lemma PositionKeys()
    ensures forall k :: k in Positions <==> 1 <= k <= SlotCount
  {
    forall k | 1 <= k <= SlotCount ensures k in Positions {
      assert k == 1 || k == 2 || k == 3 || k == 4 || k == 5 || k == 6 || k == 7 || k == 8 || k == 9 || k == 10;
    }
  }

  /** `get_card_image`: the artwork, mirrored then flipped when reversed. */
  function GetCardImage(card: Card, reversed: bool): (r: Image)
    requires Valid(card.image)
    ensures Valid(r) && r.width == card.image.width && r.height == card.image.height
    ensures forall x, y :: 0 <= x < r.width && 0 <= y < r.height ==>
      At(r, x, y) == if reversed then At(card.image, r.width - 1 - x, r.height - 1 - y)
                     else At(card.image, x, y)
  {
    if reversed then Flip(Mirror(card.image)) else card.image
  }

  /** The image `display_card_image` shows: rotated by 180 degrees when reversed. */
  function DisplayCardImage(card: Card, reversed: bool): (r: Image)
    requires Valid(card.image)
    ensures Valid(r) && r.width == card.image.width && r.height == card.image.height
    ensures reversed || r == card.image
  {
    if reversed then Rotate180(card.image) else card.image
  }

  /** The spread and the single-card view show a reversed card the same way. */
  lemma ReversalMatchesDisplay(card: Card, reversed: bool)
    requires Valid(card.image)
    ensures GetCardImage(card, reversed) == DisplayCardImage(card, reversed)
  {
    if reversed {
      MirrorFlipIsRotate180(card.image);
    }
  }

  /** Reversing the artwork of a reversed card gives back the original. */
  lemma ReversalInvolution(card: Card)
    requires Valid(card.image)
    ensures GetCardImage(card.(image := GetCardImage(card, true)), true) == card.image
  {
    MirrorFlipInvolution(card.image);
  }

  /** Width and height of the thumbnail at list index `index`: 120 x 180,
      except the crossing card, which is turned a quarter. */
  function SlotWidth(index: nat): nat {
    if index == 1 then ThumbHeight else ThumbWidth
  }

  function SlotHeight(index: nat): nat {
    if index == 1 then ThumbWidth else ThumbHeight
  }

  /** The card image as pasted: oriented, resized to 120 x 180 and, at list
      index 1, rotated 90 degrees with the canvas expanded. */
  function Thumbnail(drawn: DrawnCard, index: nat): (r: Image)
    requires Decodable(drawn.card.image)
    ensures Valid(r) && r.width == SlotWidth(index) && r.height == SlotHeight(index)
    ensures index == 1 <==> r.width > r.height
  {
    var t := Resize(GetCardImage(drawn.card, drawn.reversed), ThumbWidth, ThumbHeight);
    if index == 1 then Rotate90Expand(t) else t
  }

  /** The table entry for list index `index`. */
  function SlotPosition(index: nat): Point
    requires index < SlotCount
  {
    PositionKeys();
    Positions[index + 1]
  }

  /** A rectangle of canvas pixels: top-left corner, width and height. */
  datatype Rect = Rect(x: int, y: int, w: nat, h: nat)

  predicate InRect(r: Rect, x: int, y: int) {
    r.x <= x < r.x + r.w && r.y <= y < r.y + r.h
  }

  predicate Overlap(a: Rect, b: Rect) {
    a.x < b.x + b.w && b.x < a.x + a.w && a.y < b.y + b.h && b.y < a.y + a.h
  }

  /** The canvas area a thumbnail occupies. Every footprint lies inside the
      canvas, and only the crossing card's lies crosswise. */
  function Footprint(index: nat): (r: Rect)
    requires index < SlotCount
    ensures 0 <= r.x && r.x + r.w <= CanvasSize && 0 <= r.y && r.y + r.h <= CanvasSize
    ensures r.w > r.h <==> index == 1
  {
    var p := SlotPosition(index);
    Rect(p.x, p.y, SlotWidth(index), SlotHeight(index))
  }

  /** Of all pairs of positions, only "This Covers" and "This Crosses" overlap. */
  lemma FootprintOverlaps(i: nat, j: nat)
    requires i < j < SlotCount
    ensures Overlap(Footprint(i), Footprint(j)) <==> i == 0 && j == 1
  {
    assert i == 0 || i == 1 || i == 2 || i == 3 || i == 4 || i == 5 || i == 6 || i == 7 || i == 8;
  }

  /** The layer for the card at list index `index`. */
  function SlotLayer(drawn: DrawnCard, index: nat): (r: Layer)
    requires index < SlotCount && Decodable(drawn.card.image)
    ensures Valid(r.image)
    ensures && r.at.x == Footprint(index).x && r.at.y == Footprint(index).y
            && r.image.width == Footprint(index).w && r.image.height == Footprint(index).h
  {
    Layer(SlotPosition(index), Thumbnail(drawn, index))
  }

  predicate Decodes(cards: seq<DrawnCard>, i: int) {
    0 <= i < |cards| && Decodable(cards[i].card.image)
  }

  /** `e` is the exception the drawing loop raises first when it starts at
      list index `from`: artwork is decoded before its position is looked up. */
  predicate IsFirstError(cards: seq<DrawnCard>, from: nat, e: SpreadError) {
    match e
    case UndecodableImage(i) =>
      && from <= i < |cards| && i <= SlotCount && !Decodes(cards, i)
      && forall j :: from <= j < i ==> Decodes(cards, j)
    case MissingPosition(k) =>
      && k == SlotCount + 1 && |cards| > SlotCount
      && forall j :: from <= j <= SlotCount ==> Decodes(cards, j)
  }

  /** The layers for list indices `from` onwards, or the first error. */
  function PlaceFrom(cards: seq<DrawnCard>, from: nat): (r: Result<seq<Layer>, SpreadError>)
    requires from <= |cards| && from <= SlotCount
    ensures r.Success? <==> |cards| <= SlotCount && forall j :: from <= j < |cards| ==> Decodes(cards, j)
    ensures r.Failure? ==> IsFirstError(cards, from, r.error)
    ensures r.Success? ==>
      && |r.value| == |cards| - from && ValidLayers(r.value)
      && forall k :: 0 <= k < |r.value| ==>
           from + k < SlotCount && Decodes(cards, from + k)
           && r.value[k] == SlotLayer(cards[from + k], from + k)
    decreases |cards| - from
  {
    PositionKeys();
    if from == |cards| then Success([])
    else if !Decodable(cards[from].card.image) then
      assert !Decodes(cards, from);
      Failure(UndecodableImage(from))
    else if from + 1 !in Positions then Failure(MissingPosition(from + 1))
    else
      match PlaceFrom(cards, from + 1)
      case Failure(e) => Failure(e)
      case Success(rest) => Success([SlotLayer(cards[from], from)] + rest)
  }

  /** The white canvas the spread is drawn on. */
  function Background(): (r: Image)
    ensures Valid(r) && r.width == CanvasSize && r.height == CanvasSize
  {
    Blank(CanvasSize, CanvasSize, White)
  }

  /** `draw_keltic_cross` up to PNG encoding: the cards are pasted in list
      order; a list longer than the table, or a card whose artwork does not
      decode, makes the whole call fail with the first error met. */
  function DrawKelticCross(cards: seq<DrawnCard>): (r: Result<Image, SpreadError>)
    ensures r.Success? <==> |cards| <= SlotCount && forall i :: 0 <= i < |cards| ==> Decodes(cards, i)
    ensures r.Failure? ==> IsFirstError(cards, 0, r.error)
    ensures r.Success? ==> Valid(r.value) && r.value.width == CanvasSize && r.value.height == CanvasSize
  {
    match PlaceFrom(cards, 0)
    case Failure(e) => Failure(e)
    case Success(layers) => Success(Compose(Background(), layers))
  }

  /** `layer` lies at the footprint of list index `index`. */
  predicate AtSlot(layer: Layer, index: nat) {
    && index < SlotCount
    && layer.at.x == Footprint(index).x && layer.at.y == Footprint(index).y
    && layer.image.width == Footprint(index).w && layer.image.height == Footprint(index).h
  }

  /** The layers of a drawn spread, one per card, and the canvas they make. */
  lemma SpreadLayers(cards: seq<DrawnCard>) returns (layers: seq<Layer>)
    requires DrawKelticCross(cards).Success?
    ensures ValidLayers(layers) && |layers| == |cards| <= SlotCount
    ensures DrawKelticCross(cards).value == Compose(Background(), layers)
    ensures forall k :: 0 <= k < |layers| ==>
      Decodes(cards, k) && layers[k] == SlotLayer(cards[k], k) && AtSlot(layers[k], k)
  {
    layers := PlaceFrom(cards, 0).value;
  }

  /** On a canvas made from slot layers, every pixel of a layer is visible,
      except where the crossing card lies over the covering card. */
  lemma SlotLayerVisible(layers: seq<Layer>, i: nat, u: nat, v: nat)
    requires ValidLayers(layers) && i < |layers| <= SlotCount
    requires forall k {:trigger layers[k]} :: 0 <= k < |layers| ==> AtSlot(layers[k], k)
    requires u < Footprint(i).w && v < Footprint(i).h
    requires AtSlot(layers[i], i)
    requires i == 0 && |layers| > 1 ==> !InRect(Footprint(1), Footprint(0).x + u, Footprint(0).y + v)
    ensures At(Compose(Background(), layers), Footprint(i).x + u, Footprint(i).y + v)
         == At(layers[i].image, u, v)
  {
    var x, y := Footprint(i).x + u, Footprint(i).y + v;
    LaterSlotsMiss(layers, i, x, y);
    TopmostIs(layers, x, y, i);
    ComposeShowsTopmost(Background(), layers, x, y);
  }

  /** No slot layer after list index i reaches a pixel of slot i, except the
      crossing card over the covering card. */
  lemma LaterSlotsMiss(layers: seq<Layer>, i: nat, x: int, y: int)
    requires i < |layers| <= SlotCount
    requires forall k {:trigger layers[k]} :: 0 <= k < |layers| ==> AtSlot(layers[k], k)
    requires InRect(Footprint(i), x, y)
    requires i == 0 && |layers| > 1 ==> !InRect(Footprint(1), x, y)
    ensures forall j :: i < j < |layers| ==> !Covers(layers[j], x, y)
  {
    forall j | i < j < |layers| ensures !Covers(layers[j], x, y) {
      FootprintOverlaps(i, j);
    }
  }

  /** Each card of a drawn spread is visible at its position: every pixel of
      its thumbnail appears on the canvas, except where the crossing card
      lies over the covering card. */
  lemma SpreadShowsCard(cards: seq<DrawnCard>, i: nat, u: nat, v: nat)
    requires DrawKelticCross(cards).Success?
    requires i < |cards| && u < SlotWidth(i) && v < SlotHeight(i)
    requires i == 0 && |cards| > 1 ==> !InRect(Footprint(1), Footprint(0).x + u, Footprint(0).y + v)
    ensures Decodable(cards[i].card.image)
    ensures At(DrawKelticCross(cards).value, Footprint(i).x + u, Footprint(i).y + v)
         == At(Thumbnail(cards[i], i), u, v)
  {
    var layers := SpreadLayers(cards);
    SlotLayerVisible(layers, i, u, v);
  }

  lemma TopmostIs(layers: seq<Layer>, x: int, y: int, i: nat)
    requires i < |layers| && Covers(layers[i], x, y)
    requires forall j :: i < j < |layers| ==> !Covers(layers[j], x, y)
    ensures Topmost(layers, x, y) == Some(i)
  {
    var t := Topmost(layers, x, y);
    assert t.Some?;
  }

  /** Every canvas pixel outside all footprints of the drawn cards stays white. */
  lemma SpreadBackground(cards: seq<DrawnCard>, x: int, y: int)
    requires DrawKelticCross(cards).Success?
    requires 0 <= x < CanvasSize && 0 <= y < CanvasSize
    requires forall i :: 0 <= i < |cards| ==> !InRect(Footprint(i), x, y)
    ensures At(DrawKelticCross(cards).value, x, y) == White
  {
    var layers := SpreadLayers(cards);
    ComposeShowsTopmost(Background(), layers, x, y);
  }
}
