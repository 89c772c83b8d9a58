/**
 * The current table engine (src/server/BaccaratEngine.java): one instance
 * serves one client. It holds the deck loaded from the card file, the
 * buffer of recent outcome symbols, and stands in for the two files it
 * shares with other sessions: the history file (its lines) and the per-user
 * balance files (a map from user to balance).
 */
module Engine {
  import opened Wrappers
  import opened Text
  import opened Cards
  import opened Scoring
  import opened Deal
  import opened History
  import opened Session

  class BaccaratEngine {
    var cards: seq<string>
    var gameHistory: seq<string>
    var historyLog: seq<string>
    var ledger: map<string, int>
    /** Every symbol this engine has recorded, oldest first. */
    ghost var recorded: seq<string>
    /** The history file's lines before this engine wrote any. */
    ghost var priorLog: seq<string>

    /**
     * The buffer is what is left of everything recorded after its complete
     * groups of six, and the history file gained one line per complete group.
     */
    ghost predicate Valid()
      reads this`gameHistory, this`historyLog, this`recorded, this`priorLog
    {
      && gameHistory == Leftover(recorded)
      && historyLog == priorLog + CsvLines(Batches(recorded))
      && (forall i :: 0 <= i < |recorded| ==> IsSymbol(recorded[i]))
      && (forall i :: 0 <= i < |gameHistory| ==> IsSymbol(gameHistory[i]))
    }

    /** A new engine over the deck read from the card file. */
    constructor(deck: seq<string>, log: seq<string>, balances: map<string, int>)
      ensures Valid()
      ensures cards == deck && gameHistory == [] && historyLog == log && ledger == balances
      ensures recorded == [] && priorLog == log
    {
      cards := deck;
      gameHistory := [];
      historyLog := log;
      ledger := balances;
      recorded := [];
      priorLog := log;
    }

    /** Appends the snapshot as one comma-separated line, unless it is empty. */
    method WriteGameHistory(snapshot: seq<string>)
      modifies this`historyLog
      ensures historyLog == old(historyLog) + (if |snapshot| > 0 then [CsvLine(snapshot)] else [])
    {
      if |snapshot| > 0 {
        historyLog := historyLog + [CsvLine(snapshot)];
      }
    }

    /**
     * One deal. `None` stands for the exception the Java method throws on a
     * card whose rank does not parse or a draw from an empty deck; the
     * removed cards stay removed. Otherwise the text of the deal.
     */
    method DealCards() returns (text: Option<string>)
      requires Valid()
      modifies this
      ensures Valid() && priorLog == old(priorLog) && ledger == old(ledger)
      ensures var r := Resolve(Current, old(cards));
        && (text.None? <==> r.Aborted?)
        && (text.Some? ==> text.value == Render(r))
        && cards == DeckAfter(Current, old(cards))
        && (r.Dealt? ==> recorded == old(recorded) + [Symbol(r.outcome)])
        && (r.Dealt? ==> Journal(gameHistory, historyLog)
                         == CurrentStep(Journal(old(gameHistory), old(historyLog)), [Symbol(r.outcome)]))
        && (!r.Dealt? ==> recorded == old(recorded) && gameHistory == old(gameHistory) && historyLog == old(historyLog))
    {
      ghost var values := Valuation(Current, cards);
      text := DealOnPlan(values);
    }

    /** The body of `dealCards`, stated against the plan of the deck it starts from. */
    method DealOnPlan(ghost values: seq<Option<int>>) returns (text: Option<string>)
      requires Valid() && values == Valuation(Current, cards)
      modifies this`cards, this`gameHistory, this`historyLog, this`recorded
      ensures Valid()
      ensures var p := PlanOn(old(cards), values);
        && (p.TooFew? ==> text == Some("Not enough cards to deal.") && cards == old(cards))
        && (p.Broken? ==> text.None? && cards == old(cards)[p.drawn..])
        && (p.Hand? ==> var o := Compare(Normalize(p.playerTotal), Normalize(p.bankerTotal));
              && text == Some(Render(Dealt(p.player, p.banker, o)))
              && cards == p.rest
              && recorded == old(recorded) + [Symbol(o)]
              && Journal(gameHistory, historyLog)
                 == CurrentStep(Journal(old(gameHistory), old(historyLog)), [Symbol(o)]))
        && (!p.Hand? ==> recorded == old(recorded) && gameHistory == old(gameHistory) && historyLog == old(historyLog))
    {
      if |cards| < 4 {
        return Some("Not enough cards to deal.");
      }
      ghost var deck := cards;
      var playerCards, bankerCards, playerSum, bankerSum, ok, drawn := DrawOpening(deck, values);
      if !ok {
        InitialCardThrows(deck, values, drawn - 1);
        return None;
      }
      playerCards, bankerCards, playerSum, bankerSum, ok :=
        DrawThirdCards(deck, values, playerCards, bankerCards, playerSum, bankerSum);
      if !ok {
        return None;
      }
      var o := Compare(Normalize(playerSum), Normalize(bankerSum));
      var result := OutcomeText(o);
      RecordOutcome(result, o);
      text := Some(Render(Dealt(playerCards, bankerCards, o)));
    }

    /**
     * The two opening rounds: Player, then Banker, takes the front card and
     * adds its value to a running `int` total. `ok` is false where a rank
     * does not parse; that card is already removed.
     */
    method DrawOpening(ghost deck: seq<string>, ghost values: seq<Option<int>>)
      returns (playerCards: seq<string>, bankerCards: seq<string>, playerSum: int, bankerSum: int, ok: bool,
               ghost drawn: nat)
      requires cards == deck && |deck| >= 4 && values == Valuation(Current, deck)
      modifies this`cards
      ensures ok ==> && cards == deck[4..]
                     && playerCards == [deck[0], deck[2]] && bankerCards == [deck[1], deck[3]]
                     && values[0].Some? && values[1].Some? && values[2].Some? && values[3].Some?
                     && playerSum == Add32(Add32(0, values[0].value), values[2].value)
                     && bankerSum == Add32(Add32(0, values[1].value), values[3].value)
      ensures !ok ==> && 1 <= drawn <= 4 && cards == deck[drawn..]
                      && values[drawn - 1].None?
                      && forall k :: 0 <= k < drawn - 1 ==> values[k].Some?
    {
      playerSum := 0;
      bankerSum := 0;
      playerCards := [];
      bankerCards := [];
      for i := 0 to 2
        invariant cards == deck[2 * i..]
        invariant playerCards == [deck[0], deck[2]][..i] && bankerCards == [deck[1], deck[3]][..i]
        invariant i >= 1 ==> values[0].Some? && values[1].Some?
        invariant i == 2 ==> values[2].Some? && values[3].Some?
        invariant playerSum == if i == 0 then 0 else if i == 1 then Add32(0, values[0].value)
                               else Add32(Add32(0, values[0].value), values[2].value)
        invariant bankerSum == if i == 0 then 0 else if i == 1 then Add32(0, values[1].value)
                               else Add32(Add32(0, values[1].value), values[3].value)
      {
        var dealt;
        playerCards, bankerCards, playerSum, bankerSum, dealt, drawn :=
          DrawRound(deck, values, i, playerCards, bankerCards, playerSum, bankerSum);
        if !dealt {
          return playerCards, bankerCards, playerSum, bankerSum, false, drawn;
        }
      }
      ok, drawn := true, 4;
    }

    /**
     * One round of the opening: Player, then Banker, takes the front card and
     * adds its value to a running `int` total.
     */
    method DrawRound(ghost deck: seq<string>, ghost values: seq<Option<int>>, ghost i: nat,
                     playerHand: seq<string>, bankerHand: seq<string>, playerTotal: int, bankerTotal: int)
      returns (playerCards: seq<string>, bankerCards: seq<string>, playerSum: int, bankerSum: int, ok: bool,
               ghost drawn: nat)
      requires 2 * i + 1 < |deck| && cards == deck[2 * i..] && values == Valuation(Current, deck)
      requires MinInt32 <= playerTotal <= MaxInt32 && MinInt32 <= bankerTotal <= MaxInt32
      modifies this`cards
      ensures ok ==> && cards == deck[2 * i + 2..]
                     && playerCards == playerHand + [deck[2 * i]] && bankerCards == bankerHand + [deck[2 * i + 1]]
                     && values[2 * i].Some? && values[2 * i + 1].Some?
                     && playerSum == Add32(playerTotal, values[2 * i].value)
                     && bankerSum == Add32(bankerTotal, values[2 * i + 1].value)
      ensures !ok ==> && (drawn == 2 * i + 1 || drawn == 2 * i + 2) && cards == deck[drawn..]
                      && values[drawn - 1].None? && (drawn == 2 * i + 2 ==> values[2 * i].Some?)
    {
      var playerCard, value := TakeCard(deck, values, 2 * i);
      playerCards := playerHand + [playerCard];
      bankerCards := bankerHand;
      bankerSum := bankerTotal;
      if value.None? {
        return playerCards, bankerCards, playerTotal, bankerSum, false, 2 * i + 1;
      }
      playerSum := Add32(playerTotal, value.value);
      var bankerCard;
      bankerCard, value := TakeCard(deck, values, 2 * i + 1);
      bankerCards := bankerHand + [bankerCard];
      if value.None? {
        return playerCards, bankerCards, playerSum, bankerSum, false, 2 * i + 2;
      }
      bankerSum := Add32(bankerTotal, value.value);
      ok, drawn := true, 2 * i + 2;
    }

    /**
     * The third-card rule: Player draws when its two-card total is at most
     * 15, then Banker when its own is; each draw takes the front card, and
     * an empty deck or a rank that does not parse aborts the deal.
     */
    method DrawThirdCards(ghost deck: seq<string>, ghost values: seq<Option<int>>,
                          playerTwo: seq<string>, bankerTwo: seq<string>, playerTwoSum: int, bankerTwoSum: int)
      returns (playerCards: seq<string>, bankerCards: seq<string>, playerSum: int, bankerSum: int, ok: bool)
      requires |deck| >= 4 && values == Valuation(Current, deck) && cards == deck[4..]
      requires values[0].Some? && values[1].Some? && values[2].Some? && values[3].Some?
      requires playerTwo == [deck[0], deck[2]] && bankerTwo == [deck[1], deck[3]]
      requires playerTwoSum == Add32(Add32(0, values[0].value), values[2].value)
      requires bankerTwoSum == Add32(Add32(0, values[1].value), values[3].value)
      modifies this`cards
      ensures ok ==> PlanOn(deck, values) == Hand(playerCards, bankerCards, playerSum, bankerSum, cards)
      ensures !ok ==> |cards| <= |deck| && PlanOn(deck, values) == Broken(|deck| - |cards|)
                      && cards == deck[|deck| - |cards|..]
    {
      playerCards, bankerCards, playerSum, bankerSum := playerTwo, bankerTwo, playerTwoSum, bankerTwoSum;
      ghost var next := if playerSum <= 15 then 5 else 4;
      if playerSum <= 15 {
        if |cards| == 0 {
          assert PlanOn(deck, values) == Broken(4);
          return playerCards, bankerCards, playerSum, bankerSum, false;
        }
        var playerCard, value := TakeCard(deck, values, 4);
        playerCards := playerCards + [playerCard];
        if value.None? {
          assert PlanOn(deck, values) == Broken(5);
          return playerCards, bankerCards, playerSum, bankerSum, false;
        }
        playerSum := Add32(playerSum, value.value);
        assert playerCards == [deck[0], deck[2], deck[4]];
      }
      assert cards == deck[next..];
      if bankerSum <= 15 {
        if |cards| == 0 {
          assert PlanOn(deck, values) == Broken(next);
          return playerCards, bankerCards, playerSum, bankerSum, false;
        }
        var bankerCard, value := TakeCard(deck, values, next);
        bankerCards := bankerCards + [bankerCard];
        if value.None? {
          assert PlanOn(deck, values) == Broken(next + 1);
          return playerCards, bankerCards, playerSum, bankerSum, false;
        }
        bankerSum := Add32(bankerSum, value.value);
        assert bankerCards == [deck[1], deck[3], deck[next]];
        assert cards == deck[next + 1..];
      }
      CompletedPlan(deck, values, playerCards, bankerCards, playerSum, bankerSum, cards);
      ok := true;
    }

    /**
     * `cards.remove(0)` and then `getCardValue` on the removed card: the
     * front card of the deck and its value, None where its rank does not
     * parse (the card is gone either way).
     */
    method TakeCard(ghost deck: seq<string>, ghost values: seq<Option<int>>, ghost k: nat)
      returns (card: string, value: Option<int>)
      requires k < |deck| && cards == deck[k..] && values == Valuation(Current, deck)
      modifies this`cards
      ensures card == deck[k] && cards == deck[k + 1..]
      ensures value == values[k]
    {
      card := cards[0];
      cards := cards[1..];
      value := CardValue(card);
      ValuationAt(Current, deck, k);
    }

    /** `updateBalance`: the user's balance file now holds the new balance. */
    method UpdateBalance(user: string, balance: int)
      modifies this`ledger
      ensures ledger == old(ledger)[user := balance]
    {
      ledger := ledger[user := balance];
    }

    /**
     * One pass of the command loop: the line, the session's wager before
     * it, and what the loop does with it. A deal reads the balance first,
     * then deals, then settles the wager on the text of the deal.
     */
    method Step(line: string, bet: int) returns (reply: Option<string>, newBet: int, status: Status)
      requires Valid()
      modifies this
      ensures Valid() && priorLog == old(priorLog)
      ensures var c := ParseCommand(line);
        && (c.Malformed? ==> status == Crashed && reply.None?)
        && (c.Exit? ==> status == Exited && reply.None?)
        && (c.Unknown? ==> status == Running && reply == Some(UnknownReply(c.name)))
        && (c.Login? ==> status == Running && reply == Some(LoginReply(c.user, c.balance))
                         && ledger == old(ledger)[c.user := c.balance])
        && (c.PlaceBet? ==> status == Running && newBet == c.amount
                            && reply == Some(BetReply(c.user, c.amount, Balance(old(ledger), c.user))))
        && (!c.PlaceBet? ==> newBet == bet)
        && (!c.Login? && !c.DealHand? ==> ledger == old(ledger))
        && (!c.DealHand? ==> cards == old(cards) && recorded == old(recorded)
                             && gameHistory == old(gameHistory) && historyLog == old(historyLog))
        && (c.DealHand? ==> var r := Resolve(Current, old(cards));
              && cards == DeckAfter(Current, old(cards))
              && (status == Crashed <==> r.Aborted?)
              && (r.Aborted? ==> reply.None? && ledger == old(ledger))
              && (!r.Aborted? ==> var s := Settle(c.side, Balance(old(ledger), c.user), bet, Render(r));
                    && status == Running && reply == Some(SettleReply(s))
                    && ledger == Credit(old(ledger), c.user, s))
              && (r.Dealt? ==> && recorded == old(recorded) + [Symbol(r.outcome)]
                               && Journal(gameHistory, historyLog)
                                  == CurrentStep(Journal(old(gameHistory), old(historyLog)), [Symbol(r.outcome)]))
              && (!r.Dealt? ==> recorded == old(recorded) && gameHistory == old(gameHistory)
                                && historyLog == old(historyLog)))
    {
      newBet := bet;
      match ParseCommand(line)
      case Malformed =>
        return None, bet, Crashed;
      case Exit =>
        return None, bet, Exited;
      case Unknown(name) =>
        return Some("Unknown command: " + name), bet, Running;
      case Login(user, balance) =>
        UpdateBalance(user, balance);
        return Some("User " + user + " logged in with balance: " + IntToString(balance)), bet, Running;
      case PlaceBet(amount, user) =>
        newBet := amount;
        var balance := Balance(ledger, user);
        if balance < amount {
          reply := Some("insufficient amount");
        } else {
          reply := Some(user + " - Bet of " + IntToString(amount) + " placed.");
        }
        status := Running;
      case DealHand(side, user) =>
        reply, status := DealAndSettle(side, user, bet);
    }

    /** The "deal" branch: read the balance, deal, and settle the wager on the text of the deal. */
    method DealAndSettle(side: string, user: string, bet: int) returns (reply: Option<string>, status: Status)
      requires Valid()
      modifies this
      ensures Valid() && priorLog == old(priorLog)
      ensures var r := Resolve(Current, old(cards));
        && cards == DeckAfter(Current, old(cards))
        && (status == Crashed <==> r.Aborted?)
        && (r.Aborted? ==> reply.None? && ledger == old(ledger))
        && (!r.Aborted? ==> var s := Settle(side, Balance(old(ledger), user), bet, Render(r));
              && status == Running && reply == Some(SettleReply(s))
              && ledger == Credit(old(ledger), user, s))
        && (r.Dealt? ==> && recorded == old(recorded) + [Symbol(r.outcome)]
                         && Journal(gameHistory, historyLog)
                            == CurrentStep(Journal(old(gameHistory), old(historyLog)), [Symbol(r.outcome)]))
        && (!r.Dealt? ==> recorded == old(recorded) && gameHistory == old(gameHistory) && historyLog == old(historyLog))
    {
      var balance := Balance(ledger, user);
      var text := DealCards();
      if text.None? {
        return None, Crashed;
      }
      reply := SettleBet(side, user, balance, bet, text.value);
      status := Running;
    }

    /** Settling the wager on the text of a deal, from the balance read before dealing. */
    method SettleBet(side: string, user: string, balance: int, bet: int, result: string) returns (reply: Option<string>)
      modifies this`ledger
      ensures var s := Settle(side, balance, bet, result);
        reply == Some(SettleReply(s)) && ledger == Credit(old(ledger), user, s)
    {
      if Contains(result, "wins") {
        if (side == "B" && Contains(result, "Banker wins")) || (side == "P" && Contains(result, "Player wins")) {
          var updated := balance + bet;
          UpdateBalance(user, updated);
          reply := Some("Bet won. Balance updated: " + IntToString(updated));
        } else {
          var updated := balance - bet;
          reply := Some("Bet lost. Balance remains: " + IntToString(updated));
          UpdateBalance(user, updated);
        }
      } else {
        reply := Some("It's a draw. Bet refunded.");
      }
    }

    /**
     * One pass of the command loop, in session terms: the session moves one
     * line along its trace, and the symbols recorded are those of the
     * outcomes dealt so far.
     */
    method Serve(lines: seq<string>, i: nat, bet: int, ghost trace: seq<Progress>, ghost base: seq<string>,
                 ghost dealt: seq<Outcome>)
      returns (reply: Option<string>, newBet: int, status: Status, ghost dealtAfter: seq<Outcome>)
      requires Valid() && i < |lines| && Follows(Current, lines, trace)
      requires trace[i] == Progress(true, cards, dealt)
      requires recorded == base + Symbols(dealt)
      modifies this
      ensures Valid() && priorLog == old(priorLog) && old(historyLog) <= historyLog
      ensures recorded == base + Symbols(dealtAfter)
      ensures trace[i + 1] == Progress(status == Running, cards, dealtAfter)
    {
      ghost var deck := cards;
      ghost var c := ParseCommand(lines[i]);
      ghost var r := Resolve(Current, deck);
      assert trace[i + 1] == Next(Current, trace[i], lines[i]);
      reply, newBet, status := Step(lines[i], bet);
      ghost var first := FirstDeal(Current, deck, lines[i]);
      dealtAfter := dealt + first;
      SymbolsAppend(dealt, first);
      if c.DealHand? && r.Dealt? {
        assert first == [r.outcome];
        assert Symbols(first) == [Symbol(r.outcome)];
      } else {
        assert first == [];
        assert recorded == old(recorded) && historyLog == old(historyLog);
      }
    }

    /**
     * The session: lines are handled in order, the wager starting at zero,
     * until they run out or one ends the session. The symbols recorded are
     * those of the session's completed deals, one each; the history file
     * only grows, every line this engine wrote reads back as six outcome
     * symbols, and the buffer holds the symbols recorded since the last
     * complete group of six.
     */
    method Run(lines: seq<string>) returns (replies: seq<string>, status: Status)
      requires Valid()
      modifies this
      ensures Valid() && priorLog == old(priorLog)
      ensures recorded == old(recorded) + Symbols(SessionDeals(Current, old(cards), lines))
      ensures old(historyLog) <= historyLog
      ensures forall i :: |priorLog| <= i < |historyLog| ==> SymbolLine(historyLog[i])
      ensures |gameHistory| == |recorded| % 6 && |gameHistory| < 6
      ensures |replies| <= |lines|
    {
      SessionTraceExists(Current, cards, lines);
      ghost var trace :| Follows(Current, lines, trace) && trace[0] == Progress(true, cards, []);
      ghost var dealt: seq<Outcome> := [];
      assert old(recorded) + Symbols(dealt) == old(recorded);
      var bet := 0;
      replies := [];
      status := Running;
      var i := 0;
      while i < |lines| && status == Running
        invariant 0 <= i <= |lines| && |replies| <= i
        invariant Valid() && priorLog == old(priorLog) && old(historyLog) <= historyLog
        invariant recorded == old(recorded) + Symbols(dealt)
        invariant trace[i] == Progress(status == Running, cards, dealt)
      {
        var reply;
        reply, bet, status, dealt := Serve(lines, i, bet, trace, old(recorded), dealt);
        if reply.Some? {
          replies := replies + [reply.value];
        }
        i := i + 1;
      }
      SessionOver(Current, old(cards), lines, trace, i);
      LeftoverLength(recorded);
      WrittenLinesRead(priorLog, recorded);
    }

    /** The history update of a deal: the symbols the outcome text selects, then the flush at six. */
    method RecordOutcome(result: string, ghost o: Outcome)
      requires Valid() && result == OutcomeText(o)
      modifies this`gameHistory, this`historyLog, this`recorded
      ensures Valid()
      ensures recorded == old(recorded) + [Symbol(o)]
      ensures Journal(gameHistory, historyLog) == CurrentStep(Journal(old(gameHistory), old(historyLog)), [Symbol(o)])
    {
      CurrentEntriesRecordSymbol(o);
      CurrentStepRecords(Journal(gameHistory, historyLog), priorLog, recorded, Symbol(o));
      AppendEntries(result);
      assert gameHistory == Leftover(recorded) + [Symbol(o)];
      recorded := recorded + [Symbol(o)];
      if |gameHistory| == 6 {
        WriteGameHistory(gameHistory);
        gameHistory := [];
      }
    }

    /** The symbol conditions on the outcome text: "B" on "Banker wins", then "P" on "Player wins" or else "D" on "Draw". */
    method AppendEntries(result: string)
      modifies this`gameHistory
      ensures gameHistory == old(gameHistory) + CurrentEntries(result)
    {
      if Contains(result, "Banker wins") {
        gameHistory := gameHistory + ["B"];
      }
      if Contains(result, "Player wins") {
        gameHistory := gameHistory + ["P"];
      } else if Contains(result, "Draw") {
        gameHistory := gameHistory + ["D"];
      }
    }
  }

  /**
   * A short session on a four-card deck: "alice" logs in with 200, bets 50,
   * and deals on the Banker, each line written as a client writes it. The
   * deal gives the Player 10 and 6 (6 points) and the Banker 9 and a king
   * (9 points, a natural), so the Banker wins, the bet is won and the
   * stored balance becomes 250.
   */
  method WinSession() returns (replies: seq<string>, balance: int)
    ensures replies == [LoginReply("alice", 200), BetReply("alice", 50, 200), SettleReply(Won(250))]
    ensures balance == 250
  {
    SessionLinesRead("alice", 200, 50, "B");
    var p1, b1, p2, b2 := FormatCard(10, 1), FormatCard(9, 3), FormatCard(6, 2), FormatCard(13, 4);
    FormattedIsStandard(10, 1);
    FormattedIsStandard(9, 3);
    FormattedIsStandard(6, 2);
    FormattedIsStandard(13, 4);
    FormattedIsNumeric(10, 1);
    FormattedIsNumeric(9, 3);
    FormattedIsNumeric(6, 2);
    FormattedIsNumeric(13, 4);
    BankerWinSettles(p1, b1, p2, b2, 200, 50);
    var e := new BaccaratEngine([p1, b1, p2, b2], [], map[]);
    var login, bet, status := e.Step(FormatCommand(Login("alice", 200)), 0);
    var placed;
    placed, bet, status := e.Step(FormatCommand(PlaceBet(50, "alice")), bet);
    var settled;
    settled, bet, status := e.Step(FormatCommand(DealHand("B", "alice")), bet);
    replies := [login.value, placed.value, settled.value];
    balance := Balance(e.ledger, "alice");
  }

  /** The lines after the file's earlier ones are those of the complete groups of six symbols. */
  lemma WrittenLinesRead(prior: seq<string>, recorded: seq<string>)
    requires forall i :: 0 <= i < |recorded| ==> IsSymbol(recorded[i])
    ensures forall i :: |prior| <= i < |prior + CsvLines(Batches(recorded))| ==>
      SymbolLine((prior + CsvLines(Batches(recorded)))[i])
  {
    var log := prior + CsvLines(Batches(recorded));
    forall i | |prior| <= i < |log|
      ensures SymbolLine(log[i])
    {
      var j := i - |prior|;
      var batch := Batches(recorded)[j];
      BatchAt(recorded, j);
      assert forall k :: 0 <= k < |batch| ==> IsSymbol(batch[k]) by {
        assert forall k :: 0 <= k < |batch| ==> batch[k] == recorded[6 * j + k];
      }
      CsvLineRoundTrip(batch);
      assert log[i] == CsvLine(batch);
    }
  }
}
