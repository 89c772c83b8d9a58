/**
 * Cards are strings "rank.suit" (rank 1..13, suit 1..4). This module holds
 * how a card is written, how its rank is read back, the two point values
 * the engine copies give it, and the deck that server start-up generates.
 */
module Cards {
  import opened Wrappers
  import opened Text

  /** `value + "." + suit`, the text of one card. */
  function FormatCard(rank: int, suit: int): string {
    IntToString(rank) + "." + IntToString(suit)
  }

  /**
   * `Integer.parseInt(card.split("\\.")[0])`; None where Java throws
   * (no field at all, or a first field that is not a 32-bit integer).
   */
  function Rank(card: string): (r: Option<int>)
    ensures r.Some? ==> MinInt32 <= r.value <= MaxInt32
    ensures card == "" ==> r.None?
  {
    var parts := JavaSplit(card, '.');
    if |parts| == 0 then None else ParseInt32(parts[0])
  }

  /** A card whose rank parses and lies in 1..13, as every generated card does. */
  predicate Standard(card: string) {
    Rank(card).Some? && 1 <= Rank(card).value <= 13
  }

  /** A card written with digits, minus signs and dots only, as every generated card is. */
  predicate Numeric(card: string) {
    forall i :: 0 <= i < |card| ==> IsDigit(card[i]) || card[i] == '-' || card[i] == '.'
  }

  /** Point value in the current engine: face cards (11, 12, 13) count 10. */
  function CardValue(card: string): (r: Option<int>)
    ensures r.Some? <==> Rank(card).Some?
    ensures r.Some? ==> MinInt32 <= r.value <= MaxInt32
    ensures r.Some? ==> r.value == Rank(card).value || r.value == 10
  {
    match Rank(card)
    case Some(v) => Some(if v == 11 || v == 12 || v == 13 then 10 else v)
    case None => None
  }

  /** Point value in the older engine copy: the raw rank. */
  function RawCardValue(card: string): (r: Option<int>)
    ensures r.Some? <==> Rank(card).Some?
    ensures r.Some? ==> MinInt32 <= r.value <= MaxInt32
  {
    Rank(card)
  }

  /**
   * A standard card is worth its rank up to 10 and 10 as a face card, so
   * 1..10, in the current engine, and its raw rank 1..13 in the older copy.
   * Any other card whose rank parses is worth that rank in both.
   */
  lemma CardValues(card: string)
    ensures CardValue(card).Some? <==> Rank(card).Some?
    ensures RawCardValue(card) == Rank(card)
    ensures Standard(card) ==> 1 <= CardValue(card).value <= 10
    ensures Standard(card) ==> CardValue(card).value == if Rank(card).value <= 10 then Rank(card).value else 10
    ensures CardValue(card).Some? && !Standard(card) ==> CardValue(card).value == Rank(card).value
  {
  }

  /** The fields of a formatted card are the rank text and the suit text. */
  lemma FormatCardFields(rank: int, suit: int)
    ensures SplitOn(FormatCard(rank, suit), '.') == [IntToString(rank), IntToString(suit)]
  {
    IntToStringParses(rank);
    IntToStringParses(suit);
    SplitAfterField(IntToString(rank), IntToString(suit), '.');
    SplitNoSep(IntToString(suit), '.');
  }

  /** Reading the rank of a formatted card gives back the rank it was written with. */
  lemma RankOfFormatted(rank: int, suit: int)
    requires MinInt32 <= rank <= MaxInt32
    ensures Rank(FormatCard(rank, suit)) == Some(rank)
  {
    FormatCardFields(rank, suit);
    IntToStringParses(rank);
    var fields := SplitOn(FormatCard(rank, suit), '.');
    DropTrailingEmptyPrefix(fields);
    assert fields[0] != "";
  }

  /** Distinct (rank, suit) pairs are written as distinct cards. */
  lemma FormatCardInjective(r1: int, s1: int, r2: int, s2: int)
    requires FormatCard(r1, s1) == FormatCard(r2, s2)
    ensures r1 == r2 && s1 == s2
  {
    FormatCardFields(r1, s1);
    FormatCardFields(r2, s2);
    assert IntToString(r1) == IntToString(r2) && IntToString(s1) == IntToString(s2);
    IntToStringParses(r1);
    IntToStringParses(r2);
    IntToStringParses(s1);
    IntToStringParses(s2);
  }

  /** Every card of the generated decks is standard, with value min(rank, 10). */
  lemma FormattedIsStandard(rank: int, suit: int)
    requires 1 <= rank <= 13
    ensures Standard(FormatCard(rank, suit))
    ensures CardValue(FormatCard(rank, suit)) == Some(if rank <= 10 then rank else 10)
    ensures RawCardValue(FormatCard(rank, suit)) == Some(rank)
  {
    RankOfFormatted(rank, suit);
  }

  /** A formatted card is numeric. */
  lemma FormattedIsNumeric(rank: int, suit: int)
    ensures Numeric(FormatCard(rank, suit))
  {
    IntToStringChars(rank);
    IntToStringChars(suit);
    var card := FormatCard(rank, suit);
    var r := IntToString(rank);
    forall i | 0 <= i < |card|
      ensures IsDigit(card[i]) || card[i] == '-' || card[i] == '.'
    {
      if i < |r| {
        assert card[i] == r[i];
      } else if i > |r| {
        assert card[i] == IntToString(suit)[i - |r| - 1];
      }
    }
  }

  // ---------------------------------------------------------------------
  // Deck construction at server start-up

  /** Suits 1..suit of one rank, in increasing suit order. */
  function Suits(rank: int, suit: nat): (cards: seq<string>)
    ensures |cards| == suit
  {
    if suit == 0 then [] else Suits(rank, suit - 1) + [FormatCard(rank, suit)]
  }

  /** Ranks 1..rank of one deck, each with its four suits. */
  function Ranks(rank: nat): (cards: seq<string>)
    ensures |cards| == 4 * rank
  {
    if rank == 0 then [] else Ranks(rank - 1) + Suits(rank, 4)
  }

  /** `count` full decks one after the other; none when count is not positive. */
  function Decks(count: int): (cards: seq<string>)
    ensures |cards| == if count <= 0 then 0 else 52 * count
  {
    DecksOf(count, 13)
  }

  function DecksOf(count: int, ranks: nat): (cards: seq<string>)
    ensures |cards| == if count <= 0 then 0 else 4 * ranks * count
  {
    if count <= 0 then [] else DecksOf(count - 1, ranks) + Ranks(ranks)
  }

  /**
   * The cards generated before (deck, rank, suit) in the nested loops: all of
   * the earlier decks, the earlier ranks of this deck, the earlier suits of
   * this rank.
   */
  function GeneratedBefore(deck: nat, rank: nat, suit: nat): seq<string>
    requires 1 <= rank <= 14 && 1 <= suit <= 5
  {
    Decks(deck) + Ranks(rank - 1) + Suits(rank, suit - 1)
  }

  lemma NextSuit(deck: nat, rank: nat, suit: nat)
    requires 1 <= rank <= 13 && 1 <= suit <= 4
    ensures GeneratedBefore(deck, rank, suit) + [FormatCard(rank, suit)] == GeneratedBefore(deck, rank, suit + 1)
  {
  }

  lemma NextRank(deck: nat, rank: nat)
    requires 1 <= rank <= 13
    ensures GeneratedBefore(deck, rank, 5) == GeneratedBefore(deck, rank + 1, 1)
  {
  }

  lemma NextDeck(deck: nat)
    ensures GeneratedBefore(deck, 1, 1) == Decks(deck)
    ensures GeneratedBefore(deck, 14, 1) == Decks(deck + 1)
  {
  }

  /**
   * The nested loops of server start-up, before shuffling: deck by deck,
   * rank 1..13, suit 1..4 (the innermost loop is AppendSuits).
   */
  method BuildDeck(numberOfDecks: int) returns (cards: seq<string>)
    ensures cards == Decks(numberOfDecks)
  {
    cards := [];
    var i := 0;
    while i < numberOfDecks
      invariant 0 <= i && (numberOfDecks > 0 ==> i <= numberOfDecks)
      invariant numberOfDecks <= 0 ==> i == 0
      invariant cards == Decks(i)
    {
      NextDeck(i);
      for value := 1 to 14
        invariant cards == GeneratedBefore(i, value, 1)
      {
        cards := AppendSuits(cards, i, value);
        NextRank(i, value);
      }
      i := i + 1;
    }
  }

  /** The innermost loop: the four suits of one rank, appended in order. */
  method AppendSuits(before: seq<string>, deck: nat, rank: nat) returns (cards: seq<string>)
    requires 1 <= rank <= 13 && before == GeneratedBefore(deck, rank, 1)
    ensures cards == GeneratedBefore(deck, rank, 5)
  {
    cards := before;
    for suit := 1 to 5
      invariant cards == GeneratedBefore(deck, rank, suit)
    {
      NextSuit(deck, rank, suit);
      cards := cards + [FormatCard(rank, suit)];
    }
  }

  /**
   * The generated decks are in deck-major, then rank, then suit order: card
   * (rank, suit) of deck d sits at position 52 d + 4 (rank - 1) + (suit - 1).
   */
  lemma DecksAt(count: int, d: int, rank: int, suit: int)
    requires 0 <= d < count && 1 <= rank <= 13 && 1 <= suit <= 4
    ensures 52 * d + 4 * (rank - 1) + (suit - 1) < |Decks(count)|
    ensures Decks(count)[52 * d + 4 * (rank - 1) + (suit - 1)] == FormatCard(rank, suit)
  {
    DecksOfAt(count, 13, d, rank, suit);
  }

  lemma {:induction false} DecksOfAt(count: int, ranks: nat, d: int, rank: int, suit: int)
    requires 0 <= d < count && 1 <= rank <= ranks && 1 <= suit <= 4
    ensures 4 * ranks * d + 4 * (rank - 1) + (suit - 1) < |DecksOf(count, ranks)|
    ensures DecksOf(count, ranks)[4 * ranks * d + 4 * (rank - 1) + (suit - 1)] == FormatCard(rank, suit)
  {
    var before := DecksOf(count - 1, ranks);
    var k := 4 * ranks * d + 4 * (rank - 1) + (suit - 1);
    assert DecksOf(count, ranks) == before + Ranks(ranks);
    if d < count - 1 {
      DecksOfAt(count - 1, ranks, d, rank, suit);
    } else {
      assert |before| == 4 * ranks * d;
      RanksAt(ranks, rank, suit);
      assert (before + Ranks(ranks))[k] == Ranks(ranks)[4 * (rank - 1) + (suit - 1)];
    }
  }

  lemma {:induction false} RanksAt(ranks: nat, rank: int, suit: int)
    requires 1 <= rank <= ranks && 1 <= suit <= 4
    ensures Ranks(ranks)[4 * (rank - 1) + (suit - 1)] == FormatCard(rank, suit)
  {
    var k := 4 * (rank - 1) + (suit - 1);
    if rank < ranks {
      RanksAt(ranks - 1, rank, suit);
      assert Ranks(ranks)[k] == Ranks(ranks - 1)[k];
    } else {
      SuitsAt(rank, 4, suit - 1);
      assert Ranks(ranks)[k] == Suits(rank, 4)[suit - 1];
    }
  }

  lemma {:induction false} SuitsAt(rank: int, suits: nat, j: int)
    requires 0 <= j < suits
    ensures Suits(rank, suits)[j] == FormatCard(rank, j + 1)
  {
    if j < suits - 1 {
      SuitsAt(rank, suits - 1, j);
    }
  }

  lemma {:induction false} SuitsCount(rank: int, suit: nat, r: int, s: int)
    ensures multiset(Suits(rank, suit))[FormatCard(r, s)] == if r == rank && 1 <= s <= suit then 1 else 0
  {
    var card := FormatCard(r, s);
    var m := multiset(Suits(rank, suit))[card];
    if suit == 0 {
      assert Suits(rank, suit) == [];
      assert m == 0;
    } else {
      SuitsCount(rank, suit - 1, r, s);
      var last := FormatCard(rank, suit);
      assert Suits(rank, suit) == Suits(rank, suit - 1) + [last];
      var before := multiset(Suits(rank, suit - 1))[card];
      if r == rank && s == suit {
        assert before == 0;
        assert m == 1;
      } else {
        FormatCardDistinct(rank, suit, r, s);
        assert m == before;
      }
    }
  }

  lemma FormatCardDistinct(r1: int, s1: int, r2: int, s2: int)
    requires r1 != r2 || s1 != s2
    ensures FormatCard(r1, s1) != FormatCard(r2, s2)
  {
    if FormatCard(r1, s1) == FormatCard(r2, s2) {
      FormatCardInjective(r1, s1, r2, s2);
    }
  }

  lemma {:induction false} RanksCount(rank: nat, r: int, s: int)
    ensures multiset(Ranks(rank))[FormatCard(r, s)] == if 1 <= r <= rank && 1 <= s <= 4 then 1 else 0
  {
    var card := FormatCard(r, s);
    var m := multiset(Ranks(rank))[card];
    if rank == 0 {
      assert Ranks(rank) == [];
      assert m == 0;
    } else {
      assert m == multiset(Ranks(rank - 1))[card] + multiset(Suits(rank, 4))[card] by {
        assert Ranks(rank) == Ranks(rank - 1) + Suits(rank, 4);
      }
      RanksCount(rank - 1, r, s);
      SuitsCount(rank, 4, r, s);
    }
  }

  /**
   * Each (rank, suit) pair with rank in 1..13 and suit in 1..4 occurs exactly
   * `count` times in the generated decks, and no other pair occurs.
   */
  lemma DecksCount(count: int, r: int, s: int)
    ensures multiset(Decks(count))[FormatCard(r, s)]
              == if count > 0 && 1 <= r <= 13 && 1 <= s <= 4 then count else 0
  {
    DecksOfCount(count, 13, r, s);
  }

  lemma {:induction false} DecksOfCount(count: int, ranks: nat, r: int, s: int)
    ensures multiset(DecksOf(count, ranks))[FormatCard(r, s)]
              == if count > 0 && 1 <= r <= ranks && 1 <= s <= 4 then count else 0
  {
    var card := FormatCard(r, s);
    var m := multiset(DecksOf(count, ranks))[card];
    if count <= 0 {
      assert DecksOf(count, ranks) == [];
      assert m == 0;
    } else {
      assert m == multiset(DecksOf(count - 1, ranks))[card] + multiset(Ranks(ranks))[card] by {
        assert DecksOf(count, ranks) == DecksOf(count - 1, ranks) + Ranks(ranks);
      }
      DecksOfCount(count - 1, ranks, r, s);
      RanksCount(ranks, r, s);
    }
  }

  /** Every generated card is standard and numeric. */
  lemma DecksStandard(count: int, card: string)
    requires card in Decks(count)
    ensures Standard(card) && Numeric(card)
  {
    DecksOfStandard(count, 13, card);
  }

  lemma {:induction false} DecksOfStandard(count: int, ranks: nat, card: string)
    requires card in DecksOf(count, ranks) && ranks <= 13
    ensures Standard(card) && Numeric(card)
  {
    if count > 0 {
      if card in DecksOf(count - 1, ranks) {
        DecksOfStandard(count - 1, ranks, card);
      } else {
        RanksStandard(ranks, card);
      }
    }
  }

  lemma {:induction false} RanksStandard(ranks: nat, card: string)
    requires card in Ranks(ranks) && ranks <= 13
    ensures Standard(card) && Numeric(card)
  {
    if ranks > 0 {
      if card in Ranks(ranks - 1) {
        RanksStandard(ranks - 1, card);
      } else {
        SuitsStandard(ranks, 4, card);
      }
    }
  }

  lemma {:induction false} SuitsStandard(rank: int, suits: nat, card: string)
    requires card in Suits(rank, suits) && 1 <= rank <= 13
    ensures Standard(card) && Numeric(card)
  {
    if card in Suits(rank, suits - 1) {
      SuitsStandard(rank, suits - 1, card);
    } else {
      FormattedIsStandard(rank, suits);
      FormattedIsNumeric(rank, suits);
    }
  }
}
