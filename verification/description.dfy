/** The deck description that opens every system prompt: a fixed header
    followed by one four-line block per card, major arcana first. */
module Description {
  import opened Results
  import opened Tarot

  /** The first line of the description. */
  const HeaderLine: string := "This is a custom tarot deck." + " Below are the descriptions" + " of each card:"
  const Header: string := Line(HeaderLine) + Line("")

  const NameLabel: string := "Card Name: "
  const DescriptionLabel: string := "Description: "
  const MeaningLabel: string := "Divinatory Meaning: "
  const ReversedLabel: string := "Reversed Meaning: "

  /** A line of text with its line break. */
  function Line(s: string): string {
    s + "\n"
  }

  /** The text appended for one card: its five lines (four labelled texts and
      a blank line), each ended by a line break. When no text holds a line
      break, splitting the block at line breaks gives back those five lines
      and the empty piece after the last break. */
  function Block(card: Card): (r: string)
    ensures r == JoinLines(BlockLines(card))
    ensures SingleLineTexts(card) ==> SplitLines(r) == BlockLines(card) + [""]
  {
    var l := BlockLines(card);
    assert JoinLines(l[4..]) == Line(l[4]) + "";
    assert JoinLines(l[3..]) == Line(l[3]) + JoinLines(l[4..]);
    assert JoinLines(l[2..]) == Line(l[2]) + JoinLines(l[3..]);
    assert JoinLines(l[1..]) == Line(l[1]) + JoinLines(l[2..]);
    assert JoinLines(l) == Line(l[0]) + JoinLines(l[1..]);
    assert SingleLineTexts(card) ==> SplitLines(JoinLines(l)) == l + [""] by {
      if SingleLineTexts(card) {
        BlockLinesHaveNoBreak(card);
        SplitJoinLines(l, "");
        assert JoinLines(l) + "" == JoinLines(l);
      }
    }
    Line(NameLabel + card.name)
    + Line(DescriptionLabel + card.description)
    + Line(MeaningLabel + card.divinatoryMeaning)
    + Line(ReversedLabel + card.reversedMeaning)
    + Line("")
  }

  /** The blocks of the cards, one after another in list order. When no text
      holds a line break, the blocks split into five lines per card and the
      empty remainder after the final line break. */
  function Blocks(cards: seq<Card>): (r: string)
    ensures (forall i :: 0 <= i < |cards| ==> SingleLineTexts(cards[i])) ==>
      SplitLines(r) == AllBlockLines(cards) + [""]
    decreases |cards|
  {
    if cards == [] then ""
    else
      var rest := Blocks(cards[1..]);
      assert (forall i :: 0 <= i < |cards| ==> SingleLineTexts(cards[i])) ==>
        SplitLines(Block(cards[0]) + rest) == BlockLines(cards[0]) + SplitLines(rest) by {
        if forall i :: 0 <= i < |cards| ==> SingleLineTexts(cards[i]) {
          assert SingleLineTexts(cards[0]);
          SplitBlock(cards[0], rest);
        }
      }
      Block(cards[0]) + rest
  }

  /** `generate_deck_description`. */
  function DeckDescription(deck: Deck): (r: string)
    ensures |r| >= |Header| && r[..|Header|] == Header
  {
    Header + Blocks(AllCards(deck))
  }

  /** The description of a list of cards is the description of its first
      part followed by that of the rest: one block per card, in order. */
  lemma {:induction false} BlocksAppend(a: seq<Card>, b: seq<Card>)
    ensures Blocks(a + b) == Blocks(a) + Blocks(b)
    decreases |a|
  {
    if a == [] {
      assert a + b == b;
    } else {
      assert (a + b)[1..] == a[1..] + b;
      BlocksAppend(a[1..], b);
    }
  }

  /** The description is the header, the major arcana's blocks, then the
      minor arcana's; a deck without cards yields the header alone. */
  lemma DeckDescriptionLayout(deck: Deck)
    ensures DeckDescription(deck) == Header + Blocks(deck.major) + Blocks(deck.minor)
    ensures deck.major == [] && deck.minor == [] ==> DeckDescription(deck) == Header
  {
    BlocksAppend(deck.major, deck.minor);
  }

  // Reading the description back.

  /** Python's `s.split("\n")`. */
  function SplitLines(s: string): (r: seq<string>)
    ensures |r| >= 1
    decreases |s|
  {
    if s == [] then [""]
    else
      var rest := SplitLines(s[1..]);
      if s[0] == '\n' then [""] + rest else [[s[0]] + rest[0]] + rest[1..]
  }

  /** Splitting after a line without a line break yields that line first. */
  lemma {:induction false} SplitAfterLine(a: string, b: string)
    requires '\n' !in a
    ensures SplitLines(Line(a) + b) == [a] + SplitLines(b)
    decreases |a|
  {
    if a == [] {
      assert Line(a) + b == ['\n'] + b;
      assert (['\n'] + b)[1..] == b;
    } else {
      assert (Line(a) + b)[1..] == Line(a[1..]) + b;
      assert '\n' !in a[1..] by {
        forall i | 0 <= i < |a[1..]| ensures a[1..][i] != '\n' {
          assert a[1..][i] == a[i + 1];
        }
      }
      SplitAfterLine(a[1..], b);
      assert [a[0]] + a[1..] == a;
    }
  }

  /** The same, with the text after the line given in two parts. */
  lemma SplitAfterLineThen(a: string, b: string, c: string)
    requires '\n' !in a
    ensures SplitLines(Line(a) + b + c) == [a] + SplitLines(b + c)
  {
    assert Line(a) + b + c == Line(a) + (b + c);
    SplitAfterLine(a, b + c);
  }

  predicate NoLineBreak(s: string) {
    '\n' !in s
  }

  /** A card whose four texts fit on one line each. */
  predicate SingleLineTexts(card: Card) {
    && NoLineBreak(card.name) && NoLineBreak(card.description)
    && NoLineBreak(card.divinatoryMeaning) && NoLineBreak(card.reversedMeaning)
  }

  /** The lines of one block: four labelled lines and a blank one. */
  function BlockLines(card: Card): seq<string> {
    [ NameLabel + card.name, DescriptionLabel + card.description,
      MeaningLabel + card.divinatoryMeaning, ReversedLabel + card.reversedMeaning, "" ]
  }

  function AllBlockLines(cards: seq<Card>): seq<string>
    decreases |cards|
  {
    if cards == [] then [] else BlockLines(cards[0]) + AllBlockLines(cards[1..])
  }

  lemma NoLineBreakAppend(a: string, b: string)
    requires NoLineBreak(a) && NoLineBreak(b)
    ensures NoLineBreak(a + b)
  {
    forall i | 0 <= i < |a + b| ensures (a + b)[i] != '\n' {
      if i < |a| { assert (a + b)[i] == a[i]; } else { assert (a + b)[i] == b[i - |a|]; }
    }
  }

  /** Lines each followed by a line break. */
  function JoinLines(lines: seq<string>): string
    decreases |lines|
  {
    if lines == [] then "" else Line(lines[0]) + JoinLines(lines[1..])
  }

  /** Splitting joined lines without line breaks gives back those lines. */
  lemma {:induction false} SplitJoinLines(lines: seq<string>, rest: string)
    requires forall k :: 0 <= k < |lines| ==> NoLineBreak(lines[k])
    ensures SplitLines(JoinLines(lines) + rest) == lines + SplitLines(rest)
    decreases |lines|
  {
    if lines != [] {
      SplitJoinLines(lines[1..], rest);
      assert JoinLines(lines) == Line(lines[0]) + JoinLines(lines[1..]);
      assert NoLineBreak(lines[0]);
      SplitAfterLineThen(lines[0], JoinLines(lines[1..]), rest);
      assert lines == [lines[0]] + lines[1..];
    } else {
      assert JoinLines(lines) + rest == rest;
    }
  }

  lemma BlockLinesHaveNoBreak(card: Card)
    requires SingleLineTexts(card)
    ensures forall k :: 0 <= k < |BlockLines(card)| ==> NoLineBreak(BlockLines(card)[k])
  {
    NoLineBreakAppend(NameLabel, card.name);
    NoLineBreakAppend(DescriptionLabel, card.description);
    NoLineBreakAppend(MeaningLabel, card.divinatoryMeaning);
    NoLineBreakAppend(ReversedLabel, card.reversedMeaning);
  }

  /** One block splits into its five lines, whatever follows it. */
  lemma SplitBlock(card: Card, rest: string)
    requires SingleLineTexts(card)
    ensures SplitLines(Block(card) + rest) == BlockLines(card) + SplitLines(rest)
  {
    BlockLinesHaveNoBreak(card);
    SplitJoinLines(BlockLines(card), rest);
  }

  /** `line` with the given label removed, if it starts with it. */
  function StripLabel(prefix: string, line: string): (r: Option<string>)
    ensures r.Some? <==> |prefix| <= |line| && line[..|prefix|] == prefix
    ensures r.Some? ==> line == prefix + r.value
  {
    if |prefix| <= |line| && line[..|prefix|] == prefix then Some(line[|prefix|..]) else None
  }

  /** The card texts of one five-line block. */
  function ParseBlock(lines: seq<string>): Option<Arcana>
    requires |lines| == 5
  {
    match (StripLabel(NameLabel, lines[0]), StripLabel(DescriptionLabel, lines[1]),
           StripLabel(MeaningLabel, lines[2]), StripLabel(ReversedLabel, lines[3]))
    case (Some(n), Some(d), Some(m), Some(rv)) =>
      if lines[4] == "" then Some(Arcana(n, d, m, rv)) else None
    case _ => None
  }

  function ParseBlocks(lines: seq<string>): Option<seq<Arcana>>
    decreases |lines|
  {
    if lines == [] then Some([])
    else if |lines| < 5 then None
    else
      match (ParseBlock(lines[..5]), ParseBlocks(lines[5..]))
      case (Some(a), Some(rest)) => Some([a] + rest)
      case _ => None
  }

  /** Recovers the card texts, in order, from a deck description. */
  function ParseDescription(text: string): Option<seq<Arcana>> {
    var lines := SplitLines(text);
    if |lines| >= 3 && lines[0] == HeaderLine && lines[1] == "" && lines[|lines| - 1] == ""
    then ParseBlocks(lines[2..|lines| - 1])
    else None
  }

  /** The card texts of a list of cards. */
  function Texts(cards: seq<Card>): (r: seq<Arcana>)
    ensures |r| == |cards|
    ensures forall i :: 0 <= i < |cards| ==> r[i] == ArcanaOf(cards[i])
  {
    seq(|cards|, (i: int) requires 0 <= i < |cards| => ArcanaOf(cards[i]))
  }

  lemma {:induction false} ParseAllBlockLines(cards: seq<Card>)
    ensures ParseBlocks(AllBlockLines(cards)) == Some(Texts(cards))
    decreases |cards|
  {
    if cards != [] {
      var lines := AllBlockLines(cards);
      assert lines[..5] == BlockLines(cards[0]);
      assert lines[5..] == AllBlockLines(cards[1..]);
      ParseAllBlockLines(cards[1..]);
      assert Texts(cards) == [ArcanaOf(cards[0])] + Texts(cards[1..]);
    }
  }

  lemma HeaderLineHasNoBreak()
    ensures NoLineBreak(HeaderLine)
  {
    var a, b, c := "This is a custom tarot deck.", " Below are the descriptions", " of each card:";
    assert NoLineBreak(a) && NoLineBreak(b) && NoLineBreak(c);
    NoLineBreakAppend(a, b);
    NoLineBreakAppend(a + b, c);
  }

  /** A header line `h` and a blank line split off as the first two lines. */
  lemma SplitHeader(h: string, x: string)
    requires NoLineBreak(h)
    ensures SplitLines(Line(h) + Line("") + x) == [h, ""] + SplitLines(x)
  {
    SplitAfterLine("", x);
    SplitAfterLineThen(h, Line(""), x);
    assert [h] + ([""] + SplitLines(x)) == [h, ""] + SplitLines(x);
  }

  /** The description determines the deck's card texts: when every text fits
      on one line, reading the description back gives each card's name,
      description, divinatory and reversed meaning, major arcana first. */
  lemma DescriptionRoundTrip(deck: Deck)
    requires forall i :: 0 <= i < |AllCards(deck)| ==> SingleLineTexts(AllCards(deck)[i])
    ensures ParseDescription(DeckDescription(deck)) == Some(Texts(AllCards(deck)))
  {
    var cards := AllCards(deck);
    HeaderLineHasNoBreak();
    SplitHeader(HeaderLine, Blocks(cards));
    var lines := SplitLines(DeckDescription(deck));
    assert lines == [HeaderLine, ""] + AllBlockLines(cards) + [""];
    assert lines[2..|lines| - 1] == AllBlockLines(cards);
    ParseAllBlockLines(cards);
  }
}
