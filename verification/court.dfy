/** Choosing the querent's card: the court cards of the minor arcana and the
    lookup of the card the querent selected by name. */
module Court {
  import opened Results
  import opened Tarot

  /** `sub` occurs in `s` starting at index i. */
  predicate OccursAt(s: string, sub: string, i: int) {
    0 <= i && i + |sub| <= |s| && s[i..i + |sub|] == sub
  }

  /** Python's `sub in s` for strings: scan the start positions left to
      right; the scan succeeds exactly when `sub` occurs somewhere in `s`. */
  function Contains(s: string, sub: string): (r: bool)
    ensures r <==> exists i :: OccursAt(s, sub, i)
    decreases |s|
  {
    if |s| < |sub| then
      assert forall i :: !OccursAt(s, sub, i);
      false
    else if s[..|sub|] == sub then
      assert OccursAt(s, sub, 0);
      true
    else
      var r := Contains(s[1..], sub);
      assert forall i | OccursAt(s, sub, i) :: OccursAt(s[1..], sub, i - 1) by {
        forall i | OccursAt(s, sub, i) ensures OccursAt(s[1..], sub, i - 1) {
          assert i != 0;
          assert s[1..][i - 1..i - 1 + |sub|] == s[i..i + |sub|];
        }
      }
      assert forall i | OccursAt(s[1..], sub, i) :: OccursAt(s, sub, i + 1) by {
        forall i | OccursAt(s[1..], sub, i) ensures OccursAt(s, sub, i + 1) {
          assert s[1..][i..i + |sub|] == s[i + 1..i + 1 + |sub|];
        }
      }
      r
  }

  /** A court card's name mentions a page, knight, queen or king. */
  predicate IsCourtName(name: string) {
    || Contains(name, "Page")
    || Contains(name, "Knight")
    || Contains(name, "Queen")
    || Contains(name, "King")
  }

  /** The court cards, in the order the minor arcana lists them. */
  function CourtCards(minor: seq<Card>): (r: seq<Card>)
    ensures forall c :: c in r <==> c in minor && IsCourtName(c.name)
    ensures forall c :: multiset(r)[c] == if IsCourtName(c.name) then multiset(minor)[c] else 0
    decreases |minor|
  {
    if minor == [] then []
    else
      var rest := CourtCards(minor[1..]);
      assert minor == [minor[0]] + minor[1..];
      if IsCourtName(minor[0].name) then [minor[0]] + rest else rest
  }

  /** Filtering keeps relative order: the court cards of a concatenation are
      those of the first part followed by those of the second. */
  lemma {:induction false} CourtCardsAppend(a: seq<Card>, b: seq<Card>)
    ensures CourtCards(a + b) == CourtCards(a) + CourtCards(b)
    decreases |a|
  {
    if a == [] {
      assert a + b == b;
    } else {
      assert (a + b)[1..] == a[1..] + b;
      CourtCardsAppend(a[1..], b);
    }
  }

  /** The first card whose name equals the selected name (Python's
      `next((c for c in cards if c.name == selected), None)`); a selection
      of `None` matches no card. */
  function FindByName(cards: seq<Card>, selected: Option<string>): (r: Option<Card>)
    ensures r.None? <==> forall i :: 0 <= i < |cards| ==> Some(cards[i].name) != selected
    ensures r.Some? ==> exists i :: && 0 <= i < |cards| && cards[i] == r.value
                                    && Some(cards[i].name) == selected
                                    && forall j :: 0 <= j < i ==> Some(cards[j].name) != selected
    decreases |cards|
  {
    if cards == [] then None
    else if Some(cards[0].name) == selected then Some(cards[0])
    else
      var r := FindByName(cards[1..], selected);
      assert forall i :: 1 <= i < |cards| ==> cards[i] == cards[1..][i - 1];
      r
  }

  /** The card the querent selects: a court card with the selected name. */
  predicate Selects(card: Card, selected: Option<string>) {
    IsCourtName(card.name) && Some(card.name) == selected
  }

  /** Looking the selected name up among the court cards finds the first card
      of the minor arcana that is a court card with that name. */
  lemma {:induction false} FindCourtCard(minor: seq<Card>, selected: Option<string>)
    ensures var r := FindByName(CourtCards(minor), selected);
      r.Some? ==> exists i :: && 0 <= i < |minor| && minor[i] == r.value
                              && forall j :: 0 <= j < i ==> !Selects(minor[j], selected)
    decreases |minor|
  {
    if minor != [] {
      var r := FindByName(CourtCards(minor), selected);
      FindCourtCard(minor[1..], selected);
      CourtStep(minor, selected);
      if r.Some? && r.value != minor[0] {
        FirstAfterHead(minor, r.value, selected);
      }
    }
  }

  /** A first selected card of `minor[1..]` is a first selected card of
      `minor` when `minor[0]` is not selected. */
  lemma FirstAfterHead(minor: seq<Card>, card: Card, selected: Option<string>)
    requires minor != [] && !Selects(minor[0], selected)
    requires exists i :: && 0 <= i < |minor[1..]| && minor[1..][i] == card
                         && forall j :: 0 <= j < i ==> !Selects(minor[1..][j], selected)
    ensures exists i :: && 0 <= i < |minor| && minor[i] == card
                        && forall j :: 0 <= j < i ==> !Selects(minor[j], selected)
  {
    var k :| && 0 <= k < |minor[1..]| && minor[1..][k] == card
             && forall j :: 0 <= j < k ==> !Selects(minor[1..][j], selected);
    assert minor[k + 1] == card;
    assert forall j :: 1 <= j < k + 1 ==> minor[j] == minor[1..][j - 1];
  }

  /** When the lookup does not stop at the first card of the minor arcana, that
      card is not selected and the lookup continues with the rest. */
  lemma CourtStep(minor: seq<Card>, selected: Option<string>)
    requires minor != []
    ensures var r := FindByName(CourtCards(minor), selected);
      r.Some? && r.value != minor[0] ==>
        && r == FindByName(CourtCards(minor[1..]), selected)
        && !Selects(minor[0], selected)
  {
    var court, rest := CourtCards(minor), CourtCards(minor[1..]);
    if IsCourtName(minor[0].name) {
      assert court == [minor[0]] + rest;
      if Some(minor[0].name) != selected {
        assert court[1..] == rest;
      }
    } else {
      assert court == rest;
    }
  }
}
