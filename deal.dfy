/**
 * The card draw of one deal, shared by both engine copies: which cards of
 * the deck go to which side, where the deal throws, and what remains.
 * The copies differ only in the point value of a card and in how a total
 * is normalised, which `Variant` selects.
 */
module Deal {
  import opened Wrappers
  import opened Text
  import opened Cards
  import opened Scoring

  /** Current: src/server/BaccaratEngine.java; Legacy: the older copy in src/server/ServerApp.java. */
  datatype Variant = Current | Legacy

  function ValueOf(variant: Variant, card: string): (r: Option<int>)
    ensures r.Some? ==> MinInt32 <= r.value <= MaxInt32
  {
    if variant.Current? then CardValue(card) else RawCardValue(card)
  }

  function MaxValue(variant: Variant): int {
    if variant.Current? then 10 else 13
  }

  lemma StandardValue(variant: Variant, card: string)
    requires Standard(card)
    ensures ValueOf(variant, card).Some? && 1 <= ValueOf(variant, card).value <= MaxValue(variant)
  {
    CardValues(card);
  }

  /** The value of each card of the deck, None where parsing its rank throws. */
  function Valuation(variant: Variant, deck: seq<string>): (values: seq<Option<int>>)
    ensures |values| == |deck| && Int32Values(values)
  {
    if |deck| == 0 then [] else [ValueOf(variant, deck[0])] + Valuation(variant, deck[1..])
  }

  lemma {:induction false} ValuationAt(variant: Variant, deck: seq<string>, k: int)
    requires 0 <= k < |deck|
    ensures Valuation(variant, deck)[k] == ValueOf(variant, deck[k])
  {
    if k > 0 {
      ValuationAt(variant, deck[1..], k - 1);
    }
  }

  predicate Int32Values(values: seq<Option<int>>) {
    forall i :: 0 <= i < |values| && values[i].Some? ==> MinInt32 <= values[i].value <= MaxInt32
  }

  function Normalized(variant: Variant, total: int): int {
    if variant.Current? then Normalize(total) else LegacyNormalize(total)
  }

  /**
   * What a deal does to a deck: nothing when fewer than four cards remain;
   * `Broken(drawn)` when it throws after removing `drawn` cards (a card whose
   * rank does not parse, or a third card wanted from an empty deck); else the
   * two hands, their running `int` totals and the rest of the deck.
   */
  datatype Plan =
    | TooFew
    | Broken(drawn: nat)
    | Hand(player: seq<string>, banker: seq<string>, playerTotal: int, bankerTotal: int, rest: seq<string>)

  /**
   * The draw over a deck whose card values are `values`: Player deck[0],
   * Banker deck[1], Player deck[2], Banker deck[3]; then the next card to
   * Player iff its two-card total is at most 15, then the next card to Banker
   * iff its own two-card total is at most 15.
   */
  function PlanOn(deck: seq<string>, values: seq<Option<int>>): (p: Plan)
    requires |values| == |deck| && Int32Values(values)
    ensures p.TooFew? <==> |deck| < 4
    ensures p.Broken? ==> 1 <= p.drawn <= |deck|
  {
    if |deck| < 4 then TooFew
    else if values[0].None? then Broken(1)
    else if values[1].None? then Broken(2)
    else if values[2].None? then Broken(3)
    else if values[3].None? then Broken(4)
    else
      var playerTwo := Add32(Add32(0, values[0].value), values[2].value);
      var bankerTwo := Add32(Add32(0, values[1].value), values[3].value);
      var next := if playerTwo <= 15 then 5 else 4;
      if playerTwo <= 15 && |deck| < 5 then Broken(4)
      else if playerTwo <= 15 && values[4].None? then Broken(5)
      else if bankerTwo <= 15 && |deck| < next + 1 then Broken(next)
      else if bankerTwo <= 15 && values[next].None? then Broken(next + 1)
      else
        Hand(if playerTwo <= 15 then [deck[0], deck[2], deck[4]] else [deck[0], deck[2]],
             if bankerTwo <= 15 then [deck[1], deck[3], deck[next]] else [deck[1], deck[3]],
             if playerTwo <= 15 then Add32(playerTwo, values[4].value) else playerTwo,
             if bankerTwo <= 15 then Add32(bankerTwo, values[next].value) else bankerTwo,
             deck[next + (if bankerTwo <= 15 then 1 else 0)..])
  }

  /**
   * The shape of a plan: too few cards exactly below four; a throw after at
   * most six cards, at the last card or at one whose value is missing; else
   * the hands in draw order, the third-card rule on the two-card totals,
   * the totals, and the rest of the deck after the cards dealt.
   */
  lemma PlanShape(deck: seq<string>, values: seq<Option<int>>)
    requires |values| == |deck| && Int32Values(values)
    ensures var p := PlanOn(deck, values);
      && (p.TooFew? <==> |deck| < 4)
      && (p.Broken? ==> 1 <= p.drawn <= |deck| && p.drawn <= 6)
      && (p.Broken? ==> p.drawn == |deck| || values[p.drawn - 1].None?)
      && (p.Hand? ==>
            && 2 <= |p.player| <= 3 && 2 <= |p.banker| <= 3
            && |p.player| + |p.banker| <= |deck|
            && (forall i :: 0 <= i < |p.player| + |p.banker| ==> values[i].Some?)
            && p.player[..2] == [deck[0], deck[2]] && p.banker[..2] == [deck[1], deck[3]]
            && (|p.player| == 3 <==> Add32(values[0].value, values[2].value) <= 15)
            && (|p.player| == 3 ==> p.player[2] == deck[4])
            && (|p.banker| == 3 <==> Add32(values[1].value, values[3].value) <= 15)
            && (|p.banker| == 3 ==> p.banker[2] == deck[|p.player| + 2])
            && p.rest == deck[|p.player| + |p.banker|..]
            && p.playerTotal == (var two := Add32(values[0].value, values[2].value);
                                 if |p.player| == 3 then Add32(two, values[4].value) else two)
            && p.bankerTotal == (var two := Add32(values[1].value, values[3].value);
                                 if |p.banker| == 3 then Add32(two, values[|p.player| + 2].value) else two))
  {
  }

  /**
   * The deal completes when the first four values parse and every third card
   * wanted is there and parses: the hands are those cards in draw order.
   */
  lemma CompletedPlan(deck: seq<string>, values: seq<Option<int>>,
                      player: seq<string>, banker: seq<string>, playerTotal: int, bankerTotal: int, rest: seq<string>)
    requires |values| == |deck| && Int32Values(values) && |deck| >= 4
    requires values[0].Some? && values[1].Some? && values[2].Some? && values[3].Some?
    requires var pt := Add32(Add32(0, values[0].value), values[2].value);
             var bt := Add32(Add32(0, values[1].value), values[3].value);
             var next := if pt <= 15 then 5 else 4;
      && (pt <= 15 ==> |deck| >= 5 && values[4].Some?)
      && (bt <= 15 ==> |deck| >= next + 1 && values[next].Some?)
      && player == (if pt <= 15 then [deck[0], deck[2], deck[4]] else [deck[0], deck[2]])
      && banker == (if bt <= 15 then [deck[1], deck[3], deck[next]] else [deck[1], deck[3]])
      && playerTotal == (if pt <= 15 then Add32(pt, values[4].value) else pt)
      && bankerTotal == (if bt <= 15 then Add32(bt, values[next].value) else bt)
      && rest == deck[next + (if bt <= 15 then 1 else 0)..]
    ensures PlanOn(deck, values) == Hand(player, banker, playerTotal, bankerTotal, rest)
  {
  }

  /** A value missing among the first four cards aborts the deal after removing that card. */
  lemma InitialCardThrows(deck: seq<string>, values: seq<Option<int>>, n: nat)
    requires |values| == |deck| && Int32Values(values) && |deck| >= 4 && n < 4
    requires forall k :: 0 <= k < n ==> values[k].Some?
    requires values[n].None?
    ensures PlanOn(deck, values) == Broken(n + 1)
  {
  }

  function PlanDeal(variant: Variant, deck: seq<string>): Plan {
    PlanOn(deck, Valuation(variant, deck))
  }

  /** The result `dealCards` reports; Aborted stands for the exception it throws. */
  datatype DealResult =
    | NotEnough
    | Aborted
    | Dealt(player: seq<string>, banker: seq<string>, outcome: Outcome)

  function Resolve(variant: Variant, deck: seq<string>): (r: DealResult)
    ensures r.NotEnough? <==> |deck| < 4
    ensures r.Dealt? ==> 2 <= |r.player| <= 3 && 2 <= |r.banker| <= 3
  {
    PlanShape(deck, Valuation(variant, deck));
    match PlanDeal(variant, deck)
    case TooFew => NotEnough
    case Broken(_) => Aborted
    case Hand(player, banker, playerTotal, bankerTotal, _) =>
      Dealt(player, banker, Compare(Normalized(variant, playerTotal), Normalized(variant, bankerTotal)))
  }

  /** The deck after the deal: untouched, short by the cards removed before the throw, or the rest. */
  function DeckAfter(variant: Variant, deck: seq<string>): (after: seq<string>)
    ensures exists n :: 0 <= n <= |deck| && after == deck[n..]
  {
    PlanShape(deck, Valuation(variant, deck));
    match PlanDeal(variant, deck)
    case TooFew => assert deck[0..] == deck; deck
    case Broken(n) => deck[n..]
    case Hand(_, _, _, _, rest) => rest
  }

  /**
   * The text `dealCards` returns: "P|cards,B|cards - outcome", cards in draw
   * order. An aborted deal returns nothing (the Java method throws), and
   * its empty text here is never sent: every caller reports a crash.
   */
  function Render(r: DealResult): (text: string)
    ensures text == "" <==> r.Aborted?
    ensures r.Dealt? ==> |text| >= 2 && text[..2] == "P|"
  {
    match r
    case NotEnough => "Not enough cards to deal."
    case Aborted => ""
    case Dealt(player, banker, o) =>
      "P|" + JoinWith(player, '|') + "," + "B|" + JoinWith(banker, '|') + " - " + OutcomeText(o)
  }

  // ---------------------------------------------------------------------
  // Properties of the draw

  predicate StandardDeck(deck: seq<string>) {
    forall i :: 0 <= i < |deck| ==> Standard(deck[i])
  }

  /** Every value is present and lies in 1..max. */
  predicate ValuesInRange(values: seq<Option<int>>, max: int) {
    forall i :: 0 <= i < |values| ==> values[i].Some? && 1 <= values[i].value <= max
  }

  lemma StandardValuation(variant: Variant, deck: seq<string>)
    requires StandardDeck(deck)
    ensures ValuesInRange(Valuation(variant, deck), MaxValue(variant))
  {
    var values := Valuation(variant, deck);
    forall i | 0 <= i < |deck|
      ensures values[i].Some? && 1 <= values[i].value <= MaxValue(variant)
    {
      ValuationAt(variant, deck, i);
      StandardValue(variant, deck[i]);
    }
  }

  /**
   * Over card values in 1..max (max at most 13) the deal never throws once six
   * cards remain; with four or five it throws exactly when the third-card
   * draws need more cards than there are, and then it has emptied the deck.
   * Each final total lies in 2..max + 15.
   */
  lemma InRangeDeal(deck: seq<string>, values: seq<Option<int>>, max: int)
    requires |values| == |deck| && ValuesInRange(values, max) && max <= 13
    requires Int32Values(values)
    ensures var p := PlanOn(deck, values);
      && (|deck| >= 4 ==> p.Hand? || p == Broken(|deck|))
      && (|deck| >= 6 ==> p.Hand?)
      && (p.Hand? ==> 2 <= p.playerTotal <= max + 15 && 2 <= p.bankerTotal <= max + 15)
  {
    PlanShape(deck, values);
  }

  /**
   * On a deck of standard cards: no throw from six cards on; a throw on four
   * or five cards only when the third cards run the deck dry; final totals
   * in 2..25 in the current engine and 2..28 in the older copy.
   */
  lemma StandardDeal(variant: Variant, deck: seq<string>)
    requires StandardDeck(deck)
    ensures var p := PlanDeal(variant, deck);
      && (|deck| >= 4 ==> p.Hand? || p == Broken(|deck|))
      && (|deck| >= 6 ==> p.Hand?)
      && (p.Hand? ==> 2 <= p.playerTotal <= MaxValue(variant) + 15 && 2 <= p.bankerTotal <= MaxValue(variant) + 15)
  {
    StandardValuation(variant, deck);
    InRangeDeal(deck, Valuation(variant, deck), MaxValue(variant));
  }

  /** In the current engine, a deal over standard cards compares the totals modulo 10. */
  lemma CurrentComparesModTen(deck: seq<string>)
    requires StandardDeck(deck) && PlanDeal(Current, deck).Hand?
    ensures var p := PlanDeal(Current, deck);
      Resolve(Current, deck).outcome == Compare(p.playerTotal % 10, p.bankerTotal % 10)
  {
    StandardDeal(Current, deck);
  }

  /** In the older copy, a deal over standard cards scores each side in 0..10. */
  lemma LegacyPointsRange(deck: seq<string>)
    requires StandardDeck(deck) && PlanDeal(Legacy, deck).Hand?
    ensures var p := PlanDeal(Legacy, deck);
      && 0 <= LegacyNormalize(p.playerTotal) <= 10 && 0 <= LegacyNormalize(p.bankerTotal) <= 10
  {
    StandardDeal(Legacy, deck);
  }

  /**
   * The deck in the worked example of four cards 9.1, 9.2, 2.1, 2.2: both
   * two-card totals are 11, Player wants a third card from the empty deck,
   * and the deal throws rather than reporting too few cards.
   */
  lemma FourCardDealThrows(variant: Variant)
    ensures PlanDeal(variant, [FormatCard(9, 1), FormatCard(9, 2), FormatCard(2, 1), FormatCard(2, 2)]) == Broken(4)
  {
    var deck := [FormatCard(9, 1), FormatCard(9, 2), FormatCard(2, 1), FormatCard(2, 2)];
    FormattedIsStandard(9, 1);
    FormattedIsStandard(9, 2);
    FormattedIsStandard(2, 1);
    FormattedIsStandard(2, 2);
    ValuationAt(variant, deck, 0);
    ValuationAt(variant, deck, 1);
    ValuationAt(variant, deck, 2);
    ValuationAt(variant, deck, 3);
  }

  /**
   * A deck whose first four cards are valued 10, 9, 6 and 10 (10.1, 9.3,
   * 6.2, 13.4, say): Player holds 10 and 6 (16), Banker 9 and 10 (19);
   * neither draws a third card, and Banker wins with 9 points against 6,
   * emptying the deck.
   */
  lemma BankerWinDeal(p1: string, b1: string, p2: string, b2: string)
    requires CardValue(p1) == Some(10) && CardValue(b1) == Some(9)
    requires CardValue(p2) == Some(6) && CardValue(b2) == Some(10)
    ensures Resolve(Current, [p1, b1, p2, b2]) == Dealt([p1, p2], [b1, b2], BankerWins(9))
    ensures DeckAfter(Current, [p1, b1, p2, b2]) == []
  {
    var deck := [p1, b1, p2, b2];
    ValuationAt(Current, deck, 0);
    ValuationAt(Current, deck, 1);
    ValuationAt(Current, deck, 2);
    ValuationAt(Current, deck, 3);
  }

  /** The player segment of the deal text lists "P" and then the player's cards in draw order. */
  lemma RenderListsPlayerCards(player: seq<string>, banker: seq<string>, o: Outcome)
    requires |player| >= 1
    requires forall i :: 0 <= i < |player| ==> '|' !in player[i] && ',' !in player[i]
    ensures SplitOn(SplitOn(Render(Dealt(player, banker, o)), ',')[0], '|') == ["P"] + player
  {
    var head := JoinWith(["P"] + player, '|');
    var tail := "B|" + JoinWith(banker, '|') + " - " + OutcomeText(o);
    PlayerSegment(player, banker, o);
    SplitAfterField(head, tail, ',');
    SplitJoin(["P"] + player, '|');
  }

  lemma PlayerSegment(player: seq<string>, banker: seq<string>, o: Outcome)
    requires |player| >= 1
    requires forall i :: 0 <= i < |player| ==> ',' !in player[i]
    ensures var head := JoinWith(["P"] + player, '|');
      && ',' !in head
      && Render(Dealt(player, banker, o)) == head + [','] + ("B|" + JoinWith(banker, '|') + " - " + OutcomeText(o))
  {
    JoinNoSep(player, '|', ',');
    var joined := JoinWith(player, '|');
    var tail := "B|" + JoinWith(banker, '|') + " - " + OutcomeText(o);
    assert (["P"] + player)[1..] == player;
    assert JoinWith(["P"] + player, '|') == "P|" + joined;
    Regroup("P|" + joined, "B|", JoinWith(banker, '|'), " - ", OutcomeText(o));
  }

  lemma Regroup(a: string, b: string, c: string, d: string, e: string)
    ensures a + "," + b + c + d + e == a + [','] + (b + c + d + e)
  {
  }

  lemma {:induction false} JoinNoSep(items: seq<string>, sep: char, c: char)
    requires c != sep
    requires forall i :: 0 <= i < |items| ==> c !in items[i]
    ensures c !in JoinWith(items, sep)
  {
    if |items| > 1 {
      JoinNoSep(items[1..], sep, c);
    }
  }

  predicate NumericCards(cards: seq<string>) {
    forall i :: 0 <= i < |cards| ==> Numeric(cards[i])
  }

  /**
   * For numeric cards, "wins", "Banker wins" and "Player wins" occur in the
   * deal text exactly when they occur in its outcome text: the card lists in
   * front of it cannot produce them.
   */
  lemma RenderContains(player: seq<string>, banker: seq<string>, o: Outcome, t: string)
    requires NumericCards(player) && NumericCards(banker)
    requires t == "wins" || t == "Banker wins" || t == "Player wins"
    ensures Contains(Render(Dealt(player, banker, o)), t) == Contains(OutcomeText(o), t)
  {
    LettersAbsent(player, t[0]);
    LettersAbsent(banker, t[0]);
    PrefixContains(JoinWith(player, '|'), JoinWith(banker, '|'), OutcomeText(o), t);
  }

  /** In the text of a deal of numeric cards, each phrase occurs exactly for its outcome. */
  lemma DealtTextContains(player: seq<string>, banker: seq<string>, o: Outcome)
    requires NumericCards(player) && NumericCards(banker)
    ensures var text := Render(Dealt(player, banker, o));
      && (Contains(text, "wins") <==> !o.Draw?)
      && (Contains(text, "Banker wins") <==> o.BankerWins?)
      && (Contains(text, "Player wins") <==> o.PlayerWins?)
  {
    RenderContains(player, banker, o, "wins");
    RenderContains(player, banker, o, "Banker wins");
    RenderContains(player, banker, o, "Player wins");
    OutcomeTextContains(o);
  }

  lemma PrefixContains(jp: string, jb: string, text: string, t: string)
    requires t == "wins" || t == "Banker wins" || t == "Player wins"
    requires t[0] !in jp && t[0] !in jb
    ensures Contains("P|" + jp + "," + "B|" + jb + " - " + text, t) == Contains(text, t)
  {
    RenderRegroup(jp, jb, text);
    PiecesLack(jp, jb, t[0]);
    if t == "wins" {
      ContainsSkip("P|" + jp + "," + "B" + ("|" + jb + " - "), text, t);
    } else if t == "Banker wins" {
      BankerPhraseSkip("P|" + jp + ",", "|" + jb + " - ", text);
    } else {
      PlayerPhraseSkip("|" + jp + "," + "B" + ("|" + jb + " - "), text);
    }
  }

  /** "Banker wins" cannot start at the 'B' of "B|". */
  lemma BankerPhraseSkip(a: string, b: string, text: string)
    requires 'B' !in a && 'B' !in b && |b| > 0 && b[0] == '|'
    ensures Contains(a + ("B" + b + text), "Banker wins") == Contains(text, "Banker wins")
  {
    var t := "Banker wins";
    ContainsSkip(a, "B" + b + text, t);
    assert ("B" + b + text)[1] == '|';
    ContainsStep("B" + b + text, t);
    assert ("B" + b + text)[1..] == b + text;
    ContainsSkip(b, text, t);
  }

  /** "Player wins" cannot start at the 'P' of "P|". */
  lemma PlayerPhraseSkip(q: string, text: string)
    requires 'P' !in q && |q| > 0 && q[0] == '|'
    ensures Contains("P" + q + text, "Player wins") == Contains(text, "Player wins")
  {
    var t := "Player wins";
    assert ("P" + q + text)[1] == '|';
    ContainsStep("P" + q + text, t);
    assert ("P" + q + text)[1..] == q + text;
    ContainsSkip(q, text, t);
  }

  /** The deal text as the pieces the containment argument walks over. */
  lemma RenderRegroup(jp: string, jb: string, text: string)
    ensures var r := "P|" + jp + "," + "B|" + jb + " - " + text;
      && r == ("P|" + jp + ",") + "B" + ("|" + jb + " - ") + text
      && r == ("P|" + jp + ",") + ("B" + ("|" + jb + " - ") + text)
      && r == "P" + ("|" + jp + "," + "B" + ("|" + jb + " - ")) + text
  {
  }

  lemma PiecesLack(jp: string, jb: string, c: char)
    requires c !in jp && c !in jb && (c == 'w' || c == 'B' || c == 'P')
    ensures c != 'P' ==> c !in "P|" + jp + ","
    ensures c !in "|" + jb + " - "
    ensures c != 'B' ==> c !in "|" + jp + "," + "B" + ("|" + jb + " - ")
  {
  }

  /** A letter that no numeric card holds is absent from their joined text. */
  lemma LettersAbsent(cards: seq<string>, c: char)
    requires NumericCards(cards) && (c == 'w' || c == 'B' || c == 'P')
    ensures c !in JoinWith(cards, '|')
  {
    forall i | 0 <= i < |cards|
      ensures c !in cards[i]
    {
      assert Numeric(cards[i]);
    }
    JoinNoSep(cards, '|', c);
  }
}
