/** Drawing cards from the deck: the exclusion filter, the shuffle, the
    prefix of the requested length and the reversed coin per card.
    Randomness is an input: `picks` are the successive results of the
    shuffle's random index choices and `coins` the successive results of
    `random.choice([True, False])`. */
module Drawing {
  import opened Results
  import opened Tarot

  /** `card in excluded_cards`: the list may hold `None` (no querent card was
      found), which no card equals. Cards are equal when all their fields
      are, the encoded artwork included. */
  predicate Excluded(card: Card, excluded: seq<Option<Card>>) {
    Some(card) in excluded
  }

  /** The cards, in order, that are not excluded. */
  function KeepAllowed(cards: seq<Card>, excluded: seq<Option<Card>>): (r: seq<Card>)
    ensures |r| <= |cards|
    ensures forall c :: multiset(r)[c] == if Excluded(c, excluded) then 0 else multiset(cards)[c]
    decreases |cards|
  {
    if cards == [] then []
    else
      var rest := KeepAllowed(cards[1..], excluded);
      assert cards == [cards[0]] + cards[1..];
      if Excluded(cards[0], excluded) then rest else [cards[0]] + rest
  }

  /** The list comprehension over major then minor arcana that drops the
      excluded cards. */
  function Available(deck: Deck, excluded: seq<Option<Card>>): (r: seq<Card>)
    ensures |r| <= |AllCards(deck)|
    ensures forall c :: c in r <==> c in AllCards(deck) && !Excluded(c, excluded)
    ensures multiset(r) <= multiset(AllCards(deck))
  {
    var r := KeepAllowed(AllCards(deck), excluded);
    assert forall c :: c in r <==> multiset(r)[c] > 0;
    assert forall c :: c in AllCards(deck) <==> multiset(AllCards(deck))[c] > 0;
    r
  }

  /** Exchanges the elements at positions i and j. */
  function Swap<T>(s: seq<T>, i: nat, j: nat): (r: seq<T>)
    requires i < |s| && j < |s|
    ensures |r| == |s| && multiset(r) == multiset(s)
    ensures r[i] == s[j] && r[j] == s[i]
    ensures forall k :: 0 <= k < |s| && k != i && k != j ==> r[k] == s[k]
  {
    s[i := s[j]][j := s[i]]
  }

  /** The steps of `random.shuffle` for positions i, i-1, ..., 1: position k
      is swapped with the randomly chosen position `pick % (k + 1)`, where
      `pick` is the next unused entry of `picks`. */
  function ShuffleDown<T>(s: seq<T>, picks: seq<nat>, i: nat): (r: seq<T>)
    requires 0 < i < |s| && |picks| + 1 >= |s|
    ensures |r| == |s| && multiset(r) == multiset(s)
    decreases i
  {
    var t := Swap(s, i, picks[|s| - 1 - i] % (i + 1));
    if i == 1 then t else ShuffleDown(t, picks, i - 1)
  }

  /** `random.shuffle`, the Fisher-Yates shuffle: for i from len-1 down to 1,
      swap position i with a random position in 0..i. Every outcome the
      library can produce is `Shuffle(s, picks)` for some picks. */
  function Shuffle<T>(s: seq<T>, picks: seq<nat>): (r: seq<T>)
    requires |picks| + 1 >= |s|
    ensures |r| == |s| && multiset(r) == multiset(s)
  {
    if |s| <= 1 then s else ShuffleDown(s, picks, |s| - 1)
  }

  /** The length of `cards[:num_cards]` for a list of length `len`, following
      Python's slicing: a negative bound counts from the end. */
  function DrawCount(len: nat, numCards: int): (r: nat)
    ensures r <= len
    ensures 0 <= numCards <= len ==> r == numCards
    ensures numCards >= len ==> r == len
    ensures numCards < 0 ==> r + (-numCards) == len || (r == 0 && -numCards >= len)
  {
    if numCards >= 0 then (if numCards < len then numCards else len)
    else if len + numCards > 0 then len + numCards
    else 0
  }

  /** `draw_cards`: shuffle the available cards, keep the first `num_cards`
      and give each one the next coin as its reversed flag. Both random
      streams must last for every card of the deck. */
  function DrawCards(deck: Deck, numCards: int, excluded: seq<Option<Card>>,
                     picks: seq<nat>, coins: seq<bool>): (r: seq<DrawnCard>)
    requires |picks| >= |AllCards(deck)| && |coins| >= |AllCards(deck)|
    ensures |r| == DrawCount(|Available(deck, excluded)|, numCards)
    ensures numCards >= 0 ==>
      |r| <= numCards && (|r| == numCards || |r| == |Available(deck, excluded)|)
    ensures numCards < 0 ==>
      |r| == if |Available(deck, excluded)| + numCards > 0 then |Available(deck, excluded)| + numCards else 0
    ensures forall i :: 0 <= i < |r| ==>
      r[i].card in AllCards(deck) && !Excluded(r[i].card, excluded)
    ensures forall i :: 0 <= i < |r| ==> r[i].reversed == coins[i]
    ensures multiset(CardsOf(r)) <= multiset(Available(deck, excluded))
    ensures |r| == |Available(deck, excluded)| ==>
      multiset(CardsOf(r)) == multiset(Available(deck, excluded))
  {
    var available := Available(deck, excluded);
    var shuffled := Shuffle(available, picks);
    var n := DrawCount(|shuffled|, numCards);
    var r := Pair(shuffled[..n], coins);
    PrefixOfPermutation(shuffled, available, n);
    r
  }

  /** Pairs each card with the coin at the same position. */
  function Pair(cards: seq<Card>, coins: seq<bool>): (r: seq<DrawnCard>)
    requires |coins| >= |cards|
    ensures |r| == |cards| && CardsOf(r) == cards
    ensures forall i :: 0 <= i < |r| ==> r[i].reversed == coins[i]
  {
    seq(|cards|, (i: int) requires 0 <= i < |cards| => DrawnCard(cards[i], coins[i]))
  }

  /** A prefix of a rearrangement of `s` holds only elements of `s`, none more
      often than `s` does, and the whole rearrangement holds all of them. */
  lemma PrefixOfPermutation<T>(t: seq<T>, s: seq<T>, n: nat)
    requires multiset(t) == multiset(s) && n <= |t|
    ensures multiset(t[..n]) <= multiset(s)
    ensures forall i :: 0 <= i < n ==> t[i] in s
    ensures n == |s| ==> multiset(t[..n]) == multiset(s)
  {
    PrefixMultiset(t, n);
    forall i | 0 <= i < n ensures t[i] in s {
      assert t[i] in multiset(t[..n]);
      assert t[i] in multiset(s);
    }
    if n == |s| {
      assert t[..n] == t;
    }
  }

  /** A prefix holds no element more often than the whole sequence. */
  lemma PrefixMultiset<T>(s: seq<T>, n: nat)
    requires n <= |s|
    ensures multiset(s[..n]) <= multiset(s)
  {
    assert s == s[..n] + s[n..];
  }
}
