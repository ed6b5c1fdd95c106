# Tarot reader core, modelled in Dafny

This project models the pure logic of the tarot reading page of tarotGPT
(`pages/2_Tarot_Reader.py`): drawing cards from a custom deck, choosing the
querent's court card, building the deck description that opens every prompt,
and composing the Keltic Cross spread image. Randomness is an input: the
shuffle is the Fisher-Yates algorithm of Python's `random.shuffle` driven by
caller-supplied index choices, and the reversed flags are caller-supplied
coins, so every contract holds for every possible shuffle. Images are
abstract grids of pixels with a width and a height.

Modules, one per component:

- `Results` — `Option` and `Result`, for `None` and raised exceptions.
- `Images` — the image grid and the image operations the page uses: mirror,
  flip, 180° rotation, 90° rotation with expansion, resize, paste, and
  pasting a sequence of layers.
- `Tarot` — cards (`ImagedArcana`), decks and drawn cards.
- `Drawing` — `draw_cards`: the exclusion filter, the shuffle, the prefix and
  the reversed flags.
- `Court` — Python's substring test, the court-card filter and the lookup of
  the selected querent card.
- `Description` — `generate_deck_description`, and a reader that recovers the
  card texts from it.
- `Spread` — `get_card_image`, the position table and `draw_keltic_cross`.
- `Reading` — showing the querent's card and the "Shuffle and Draw Cards"
  step of `tarot_reading_app`.

Two facts about the code that a reader might not expect:

- `draw_keltic_cross` is not restricted to exactly ten cards. Any list of at
  most ten cards is drawn (the remaining positions stay white); an eleventh
  card has no entry in the position table and the call fails
  (`Spread.DrawKelticCross`).
- The reversal in the spread (mirror, then flip) and the reversal in the
  single-card view (`rotate(180)`) are the same map on pixels, (x, y) to
  (w-1-x, h-1-y), so reversed cards look the same in both places
  (`Spread.ReversalMatchesDisplay`).

## Model

| member | source | states |
|---|---|---|
| Drawing.KeepAllowed | pages/2_Tarot_Reader.py:44 | The filtered list holds each card exactly as often as the deck does when the card is not in the exclusion list, and not at all when it is. |
| Drawing.Available | pages/2_Tarot_Reader.py:44 | A card is available if and only if it is in the major or minor arcana and not excluded; no card is available more often than it occurs in the deck. |
| Drawing.Shuffle | pages/2_Tarot_Reader.py:45 | Whatever the random choices, the shuffled list is a permutation of the available cards (same length, same multiset). |
| Drawing.Swap | pages/2_Tarot_Reader.py:45 | A shuffle step exchanges the two chosen entries and leaves every other entry in place, so the multiset is unchanged. |
| Drawing.ShuffleDown | pages/2_Tarot_Reader.py:45 | Each run of the Fisher-Yates swap steps preserves the multiset of the list. |
| Drawing.DrawCount | pages/2_Tarot_Reader.py:46 | The slice `[:num_cards]` keeps num_cards entries when that many exist and all of them otherwise; a negative bound drops that many entries from the end, leaving none when it reaches the length. |
| Drawing.DrawCards | pages/2_Tarot_Reader.py:43-51 | The draw has min(num_cards, available) entries (Python slice rules for negative counts); every drawn card is in the deck and not excluded; the drawn cards are a sub-multiset of the available cards, and all of them when every available card is drawn; entry i carries the i-th coin as its reversed flag. |
| Drawing.PrefixOfPermutation | pages/2_Tarot_Reader.py:45-46 | A prefix of a shuffled list contains only available cards and no card more often than the available list. |
| Drawing.Pair | pages/2_Tarot_Reader.py:49 | Each drawn card is paired, in order, with the reversed flag chosen for it. |
| Court.Contains | pages/2_Tarot_Reader.py:177 | Python's substring test, as a left-to-right scan, is true exactly when the word occurs at some position of the name. |
| Court.CourtCards | pages/2_Tarot_Reader.py:177 | A card is a court card if and only if it is in the minor arcana and its name contains Page, Knight, Queen or King; each keeps its multiplicity. |
| Court.CourtCardsAppend | pages/2_Tarot_Reader.py:177 | The filter preserves order: filtering a concatenation gives the filtered parts in the same order. |
| Court.FindByName | pages/2_Tarot_Reader.py:184 | The lookup returns None exactly when no card has the selected name, and otherwise the first card, in list order, that has it. |
| Court.FindCourtCard | pages/2_Tarot_Reader.py:177-184 | Looking the name up among the court cards returns the first card of the minor arcana, in deck order, that is a court card with the selected name. |
| Reading.Querent | pages/2_Tarot_Reader.py:177-184 | The querent card, when found, is a court card of the minor arcana with the selected name, and no earlier card of the minor arcana is a court card with that name; it is None exactly when no court card has that name. |
| Reading.SpreadOrder | pages/2_Tarot_Reader.py:204-211 | Popping the first two drawn cards and passing [covers, crosses] + rest gives back the drawn list unchanged; with fewer than two cards the pop fails. |
| Reading.DrawSize | pages/2_Tarot_Reader.py:201 | The reading draws ten cards, or all the pool holds when it holds fewer; it draws at least two exactly when the pool holds at least two. |
| Reading.PopAndSpread | pages/2_Tarot_Reader.py:204-212 | After the draw, the reading succeeds exactly when at least two cards were drawn and every drawn card's artwork decodes; fewer than two is the pop failure, any other failure is an undecodable card in the spread; on success the spread shows the drawn list unchanged on a 1000x1000 canvas. |
| Reading.ShuffleAndDraw | pages/2_Tarot_Reader.py:184-212 | The reading succeeds exactly when the querent's card, if found, decodes, at least two cards are drawn and every drawn card's artwork decodes; it stops before drawing exactly when the querent's artwork does not decode; otherwise the pops fail exactly when fewer than two cards besides the querent's are available; the spread never fails for lack of a position; on success the spread receives the cards in draw order, at most ten and at least two, on a 1000x1000 canvas. |
| Reading.ReadingExcludesQuerent | pages/2_Tarot_Reader.py:198-201 | No card of a reading is the querent's card, and every card comes from the deck. |
| Description.DeckDescription | pages/2_Tarot_Reader.py:55 | The description starts with the fixed header. |
| Description.Block | pages/2_Tarot_Reader.py:57-60 | When no text holds a line break, splitting one card's block at line breaks gives back exactly its four labelled lines (name, description, divinatory meaning, reversed meaning) and the blank line, then the empty piece after the last break. |
| Description.Blocks | pages/2_Tarot_Reader.py:56-60 | When no text holds a line break, the cards' text splits at line breaks into five lines per card, in card order, and one empty piece after the final line break. |
| Description.BlocksAppend | pages/2_Tarot_Reader.py:56-60 | The text for a list of cards is the text for its first part followed by the text for the rest: one block per card, in list order. |
| Description.DeckDescriptionLayout | pages/2_Tarot_Reader.py:54-61 | The description is the header, the blocks of the major arcana, then those of the minor arcana; a deck without cards gives the header alone. |
| Description.SplitAfterLine | pages/2_Tarot_Reader.py:57-60 | Splitting text at line breaks yields a line without breaks followed by the lines of what comes after it. |
| Description.SplitHeader | pages/2_Tarot_Reader.py:55 | Splitting the description at line breaks gives the header sentence, then an empty line, then the pieces of what follows. |
| Description.SplitBlock | pages/2_Tarot_Reader.py:57-60 | Splitting one card's block at line breaks gives its four labelled lines and the blank line that ends it, whatever text follows. |
| Description.ParseAllBlockLines | pages/2_Tarot_Reader.py:56-60 | Reading the block lines back yields every card's texts in order. |
| Description.DescriptionRoundTrip | pages/2_Tarot_Reader.py:54-61 | When every text fits on one line, reading the description back recovers every card's name, description, divinatory meaning and reversed meaning, major arcana first. |
| Images.Blank | pages/2_Tarot_Reader.py:114 | A new canvas has the requested size and every pixel has the fill colour. |
| Images.Mirror | pages/2_Tarot_Reader.py:108 | Mirroring keeps the size and exchanges left and right. |
| Images.Flip | pages/2_Tarot_Reader.py:108 | Flipping keeps the size and exchanges top and bottom. |
| Images.Rotate180 | pages/2_Tarot_Reader.py:39 | A half turn keeps the size and sends each pixel to the opposite position through the centre. |
| Images.Rotate90Expand | pages/2_Tarot_Reader.py:142 | A quarter turn with expansion swaps width and height and turns the picture counter-clockwise. |
| Images.MirrorFlipIsRotate180 | pages/2_Tarot_Reader.py:107-108 | Mirror then flip is the half-turn rotation used by the single-card view at line 39. |
| Images.MirrorFlipInvolution | pages/2_Tarot_Reader.py:107-108 | Mirror then flip, applied twice, gives back the original image. |
| Images.Rotate90TwiceIsRotate180 | pages/2_Tarot_Reader.py:142 | Two expanding quarter turns make the half turn: the crossing card turned once more would be the reversed card. |
| Images.NearestIndex | pages/2_Tarot_Reader.py:138 | Resampling reads a source pixel that exists for every target pixel. |
| Images.Resize | pages/2_Tarot_Reader.py:138 | A resized image has exactly the requested size and every pixel comes from the source image. |
| Images.Paste | pages/2_Tarot_Reader.py:145 | Pasting overwrites exactly the covered canvas pixels with the image, clips what falls outside, and leaves every other pixel unchanged. |
| Images.Compose | pages/2_Tarot_Reader.py:134-145 | Pasting the layers one after another keeps the canvas's size; what each pixel then shows is stated by Images.ComposeShowsTopmost. |
| Images.Topmost | pages/2_Tarot_Reader.py:134-145 | Finds the last pasted layer covering a pixel, or reports that none covers it. |
| Images.ComposeShowsTopmost | pages/2_Tarot_Reader.py:134-145 | After pasting layers in order, each pixel shows the last layer that covers it, or the background where none does. |
| Images.Extensionality | pages/2_Tarot_Reader.py:107-108 | Two images of the same size that agree at every pixel are the same image. |
| Spread.PositionKeys | pages/2_Tarot_Reader.py:117-131 | The position table has exactly the keys 1 to 10. |
| Spread.DisplayCardImage | pages/2_Tarot_Reader.py:35-40 | The single-card view keeps the artwork's size, and shows the artwork itself when the card is upright. |
| Spread.GetCardImage | pages/2_Tarot_Reader.py:104-109 | The card image keeps its size; when reversed, pixel (x, y) shows the source pixel (w-1-x, h-1-y), otherwise the source itself. |
| Spread.ReversalMatchesDisplay | pages/2_Tarot_Reader.py:35-40 | The spread's reversal equals the single-card view's 180 degree rotation, for both orientations. |
| Spread.ReversalInvolution | pages/2_Tarot_Reader.py:107-108 | Reversing a reversed card's artwork restores the original artwork. |
| Spread.Thumbnail | pages/2_Tarot_Reader.py:135-142 | Every thumbnail is 120x180, except index 1, which is 180x120; only index 1 is wider than tall. |
| Spread.Footprint | pages/2_Tarot_Reader.py:114-142 | With the table's corners and the thumbnail sizes, every footprint lies inside the 1000x1000 canvas; only the crossing card's footprint is crosswise. |
| Spread.FootprintOverlaps | pages/2_Tarot_Reader.py:117-131 | Of all pairs of positions, only This Covers and This Crosses overlap. |
| Spread.SlotLayer | pages/2_Tarot_Reader.py:145 | The card at list index i covers exactly the footprint of table key i+1. |
| Spread.PlaceFrom | pages/2_Tarot_Reader.py:134-145 | Placing succeeds exactly when at most ten cards remain and all their artwork decodes; otherwise it reports the first failure in loop order; card i is placed at positions[i+1]. |
| Spread.Background | pages/2_Tarot_Reader.py:114 | The spread canvas is 1000x1000. |
| Spread.DrawKelticCross | pages/2_Tarot_Reader.py:112-152 | The spread is drawn exactly when there are at most ten cards and all artwork decodes; otherwise the error names the first undecodable card or the missing key 11; the result is a 1000x1000 image. |
| Spread.SpreadLayers | pages/2_Tarot_Reader.py:133-145 | A drawn spread is the white canvas with one layer per card, card i at the footprint of key i+1. |
| Spread.TopmostIs | pages/2_Tarot_Reader.py:134-145 | A layer that covers a pixel no later layer covers is the topmost layer there. |
| Spread.SpreadShowsCard | pages/2_Tarot_Reader.py:133-145 | Every pixel of every card's thumbnail appears at its position on the canvas, except the part of the covering card that the crossing card lies over. |
| Spread.SpreadBackground | pages/2_Tarot_Reader.py:114-145 | Every canvas pixel outside the footprints of the drawn cards stays white. |

## Left out

- The Streamlit interface (`st.*` calls, file upload, widgets) and `load_tarot_deck`: user interface and file I/O. The deck and the selected querent name are inputs. As written, line 167 passes the uploaded file's bytes to `load_tarot_deck`, whose `open(file_path, 'r')` at line 29 takes them as a file name; that raises, line 236 reports the error, and with an uploaded deck the page would not reach the modelled steps. This comes from reading the code, not from running it; the model takes the deck directly.
- `interpret_card` and `generate_summary`: calls to a hosted chat model; their prompt strings are not modelled either, and neither are the position labels shown beside each interpretation.
- `display_card_image` shows an image on the page; only the image it shows is modelled (`Spread.DisplayCardImage`).
- Base64 decoding of the artwork, PNG decoding and encoding, and the pydantic validation of the deck file: library wrappers. A card holds both its encoded artwork text, which card equality compares, and the image that text decodes to; artwork that does not decode is an image that is not `Decodable`.
- Images.Resize: the library's default filter is bicubic; the model samples nearest-neighbour, so pixel values are not modelled and only the size and the provenance of pixels are.
- Images.Paste: the mask is the thumbnail converted to RGBA; for opaque artwork that is a plain overwrite, which is what is modelled. Alpha blending of transparent artwork is not modelled.
- Drawing.Shuffle: models the outcomes of `random.shuffle`, not their probabilities; likewise the reversed coins are arbitrary, not fair.
- Drawing.DrawCards: requires the random streams to supply at least one choice per card of the deck; the real generator never runs out.
- Description.DescriptionRoundTrip: holds only for cards whose texts contain no line break; with line breaks in the texts the block boundaries are ambiguous.
- The other pages (deck creator, deck explorer), the diffusion model server and the deployment scripts: orchestration of hosted services and configuration.
