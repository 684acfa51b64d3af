/** Playing cards as the table code names them: a rank character from
    "23456789TJQKA" followed by a suit character from "cdhs" ("Ah", "Tc").
    A card's rank number is the position of its rank character in that
    string (0 for a deuce up to 12 for an ace), which is the number the hand
    evaluator reports for it. */
module Cards {
  import opened Seqs

  type Card = string

  const RANKS: string := "23456789TJQKA"
  const SUITS: string := "cdhs"

  predicate ValidCard(c: Card)
  {
    |c| == 2 && c[0] in RANKS && c[1] in SUITS
  }

  predicate AllValid(cards: seq<Card>)
  {
    forall i :: 0 <= i < |cards| ==> ValidCard(cards[i])
  }

  /** The 52 cards, rank-major: every suit of the deuce, then of the trey, ... */
  function FreshDeck(): (deck: seq<Card>)
    ensures |deck| == 52
  {
    seq(52, i requires 0 <= i < 52 => [RANKS[i / 4], SUITS[i % 4]])
  }

  /** A deck that some shuffle produced from the fresh deck. */
  predicate IsShuffle(deck: seq<Card>)
  {
    multiset(deck) == multiset(FreshDeck())
  }

  /** Position of ch in s (its first occurrence). */
  function IndexOf(s: string, ch: char): (i: nat)
    requires ch in s
    ensures i < |s| && s[i] == ch
    ensures forall k :: 0 <= k < i ==> s[k] != ch
  {
    if s[0] == ch then 0 else 1 + IndexOf(s[1..], ch)
  }

  /** The evaluator's rank number of a card, 0 (deuce) to 12 (ace). */
  function RankOf(c: Card): (r: nat)
    requires ValidCard(c)
    ensures r < 13 && RANKS[r] == c[0]
  {
    IndexOf(RANKS, c[0])
  }

  /** The rank numbers of a sequence of cards, in order. */
  function Ranks(cards: seq<Card>): (rs: seq<nat>)
    requires AllValid(cards)
    ensures |rs| == |cards|
    ensures forall i :: 0 <= i < |rs| ==> rs[i] < 13 && rs[i] == RankOf(cards[i])
  {
    seq(|cards|, i requires 0 <= i < |cards| => RankOf(cards[i]))
  }

  /** The one-character name of a rank number. */
  function RankName(r: int): string
    requires 0 <= r < 13
  {
    [RANKS[r]]
  }

  lemma RankCharsDistinct()
    ensures Distinct(RANKS) && Distinct(SUITS)
  {
  }

  /** The fresh deck lists every valid card exactly once. */
  lemma FreshDeckComplete()
    ensures Distinct(FreshDeck())
    ensures forall c :: c in FreshDeck() <==> ValidCard(c)
  {
    var d := FreshDeck();
    RankCharsDistinct();
    forall i, j | 0 <= i < j < 52 ensures d[i] != d[j] {
      if i / 4 != j / 4 {
        assert d[i][0] != d[j][0];
      } else {
        assert i % 4 != j % 4;
        assert d[i][1] != d[j][1];
      }
    }
    forall c | ValidCard(c) ensures c in d {
      var r, s := IndexOf(RANKS, c[0]), IndexOf(SUITS, c[1]);
      assert d[4 * r + s] == c;
    }
  }

  /** A shuffled deck has 52 distinct valid cards. */
  lemma ShuffleFacts(deck: seq<Card>)
    requires IsShuffle(deck)
    ensures |deck| == 52 && Distinct(deck) && AllValid(deck)
  {
    FreshDeckComplete();
    assert |deck| == |multiset(deck)| == |multiset(FreshDeck())| == 52;
    PermutationDistinct(FreshDeck(), deck);
    forall i | 0 <= i < |deck| ensures ValidCard(deck[i]) {
      assert deck[i] in multiset(deck);
    }
  }
}
