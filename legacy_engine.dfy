/**
 * The older table engine, the package-private copy of `BaccaratEngine`
 * kept in src/server/ServerApp.java. It deals in the same order with the
 * same guards, but values a card at its raw rank, normalises without the
 * reset of 10 and 20, appends "B" and "D" after a Banker win, truncates
 * the history file when a session starts, and checks for a full buffer
 * after every command rather than inside the deal.
 */
module LegacyEngine {
  import opened Wrappers
  import opened Text
  import opened Cards
  import opened Scoring
  import opened Deal
  import opened History
  import opened Session

  class BaccaratEngine {
    var cards: seq<string>
    var gameHistory: seq<string>
    var historyLog: seq<string>
    var ledger: map<string, int>

    /**
     * Between commands the buffer holds outcome symbols and is never
     * exactly six long (a buffer of six is written and cleared).
     */
    ghost predicate Valid()
      reads this`gameHistory
    {
      && |gameHistory| != 6
      && (forall i :: 0 <= i < |gameHistory| ==> IsSymbol(gameHistory[i]))
    }

    /** A new engine over the deck read from the card file. */
    constructor(deck: seq<string>, log: seq<string>, balances: map<string, int>)
      ensures Valid()
      ensures cards == deck && gameHistory == [] && historyLog == log && ledger == balances
    {
      cards := deck;
      gameHistory := [];
      historyLog := log;
      ledger := balances;
    }

    /** Appends the buffer as one comma-separated line, whatever it holds. */
    method WriteGameHistory(snapshot: seq<string>)
      modifies this`historyLog
      ensures historyLog == old(historyLog) + [CsvLine(snapshot)]
    {
      historyLog := historyLog + [CsvLine(snapshot)];
    }

    /** `emptyGameHistory`: the history file is truncated. */
    method EmptyGameHistory()
      modifies this`historyLog
      ensures historyLog == []
    {
      historyLog := [];
    }

    /**
     * One deal of the older copy. `None` stands for the exception thrown on
     * a rank that does not parse or a draw from an empty deck. A completed
     * deal appends the symbols its outcome text selects and writes nothing.
     */
    method DealCards() returns (text: Option<string>)
      modifies this`cards, this`gameHistory
      ensures var r := Resolve(Legacy, old(cards));
        && (text.None? <==> r.Aborted?)
        && (text.Some? ==> text.value == Render(r))
        && cards == DeckAfter(Legacy, old(cards))
        && gameHistory == old(gameHistory) + (if r.Dealt? then LegacySymbols(r.outcome) else [])
    {
      ghost var values := Valuation(Legacy, cards);
      text := DealOnPlan(values);
    }

    /** The body of the older `dealCards`, stated against the plan of the deck it starts from. */
    method DealOnPlan(ghost values: seq<Option<int>>) returns (text: Option<string>)
      requires values == Valuation(Legacy, cards)
      modifies this`cards, this`gameHistory
      ensures var p := PlanOn(old(cards), values);
        && (p.TooFew? ==> text == Some("Not enough cards to deal.") && cards == old(cards))
        && (p.Broken? ==> text.None? && cards == old(cards)[p.drawn..])
        && (p.Hand? ==> var o := Compare(LegacyNormalize(p.playerTotal), LegacyNormalize(p.bankerTotal));
              && text == Some(Render(Dealt(p.player, p.banker, o)))
              && cards == p.rest
              && gameHistory == old(gameHistory) + LegacySymbols(o))
        && (!p.Hand? ==> gameHistory == old(gameHistory))
    {
      if |cards| < 4 {
        return Some("Not enough cards to deal.");
      }
      ghost var deck := cards;
      var playerCards, bankerCards, playerSum, bankerSum, ok, drawn := DrawOpening(deck, values);
      if !ok {
        InitialCardThrows(deck, values, drawn - 1);
        return None;
      }
      playerCards, bankerCards, playerSum, bankerSum, ok :=
        DrawThirdCards(deck, values, playerCards, bankerCards, playerSum, bankerSum);
      if !ok {
        return None;
      }
      var o := Compare(LegacyNormalize(playerSum), LegacyNormalize(bankerSum));
      var result := OutcomeText(o);
      LegacyEntriesOfOutcome(o);
      AppendEntries(result);
      text := Some(Render(Dealt(playerCards, bankerCards, o)));
    }

    /** The two opening rounds, as in the current engine but on raw ranks. */
    method DrawOpening(ghost deck: seq<string>, ghost values: seq<Option<int>>)
      returns (playerCards: seq<string>, bankerCards: seq<string>, playerSum: int, bankerSum: int, ok: bool,
               ghost drawn: nat)
      requires cards == deck && |deck| >= 4 && values == Valuation(Legacy, deck)
      modifies this`cards
      ensures ok ==> && cards == deck[4..]
                     && playerCards == [deck[0], deck[2]] && bankerCards == [deck[1], deck[3]]
                     && values[0].Some? && values[1].Some? && values[2].Some? && values[3].Some?
                     && playerSum == Add32(Add32(0, values[0].value), values[2].value)
                     && bankerSum == Add32(Add32(0, values[1].value), values[3].value)
      ensures !ok ==> && 1 <= drawn <= 4 && cards == deck[drawn..]
                      && values[drawn - 1].None?
                      && forall k :: 0 <= k < drawn - 1 ==> values[k].Some?
    {
      playerSum := 0;
      bankerSum := 0;
      playerCards := [];
      bankerCards := [];
      for i := 0 to 2
        invariant cards == deck[2 * i..]
        invariant playerCards == [deck[0], deck[2]][..i] && bankerCards == [deck[1], deck[3]][..i]
        invariant i >= 1 ==> values[0].Some? && values[1].Some?
        invariant i == 2 ==> values[2].Some? && values[3].Some?
        invariant playerSum == if i == 0 then 0 else if i == 1 then Add32(0, values[0].value)
                               else Add32(Add32(0, values[0].value), values[2].value)
        invariant bankerSum == if i == 0 then 0 else if i == 1 then Add32(0, values[1].value)
                               else Add32(Add32(0, values[1].value), values[3].value)
      {
        var dealt;
        playerCards, bankerCards, playerSum, bankerSum, dealt, drawn :=
          DrawRound(deck, values, i, playerCards, bankerCards, playerSum, bankerSum);
        if !dealt {
          return playerCards, bankerCards, playerSum, bankerSum, false, drawn;
        }
      }
      ok, drawn := true, 4;
    }

    /**
     * One round of the opening: Player, then Banker, takes the front card and
     * adds its raw rank to a running `int` total.
     */
    method DrawRound(ghost deck: seq<string>, ghost values: seq<Option<int>>, ghost i: nat,
                     playerHand: seq<string>, bankerHand: seq<string>, playerTotal: int, bankerTotal: int)
      returns (playerCards: seq<string>, bankerCards: seq<string>, playerSum: int, bankerSum: int, ok: bool,
               ghost drawn: nat)
      requires 2 * i + 1 < |deck| && cards == deck[2 * i..] && values == Valuation(Legacy, deck)
      requires MinInt32 <= playerTotal <= MaxInt32 && MinInt32 <= bankerTotal <= MaxInt32
      modifies this`cards
      ensures ok ==> && cards == deck[2 * i + 2..]
                     && playerCards == playerHand + [deck[2 * i]] && bankerCards == bankerHand + [deck[2 * i + 1]]
                     && values[2 * i].Some? && values[2 * i + 1].Some?
                     && playerSum == Add32(playerTotal, values[2 * i].value)
                     && bankerSum == Add32(bankerTotal, values[2 * i + 1].value)
      ensures !ok ==> && (drawn == 2 * i + 1 || drawn == 2 * i + 2) && cards == deck[drawn..]
                      && values[drawn - 1].None? && (drawn == 2 * i + 2 ==> values[2 * i].Some?)
    {
      var playerCard, value := TakeCard(deck, values, 2 * i);
      playerCards := playerHand + [playerCard];
      bankerCards := bankerHand;
      bankerSum := bankerTotal;
      if value.None? {
        return playerCards, bankerCards, playerTotal, bankerSum, false, 2 * i + 1;
      }
      playerSum := Add32(playerTotal, value.value);
      var bankerCard;
      bankerCard, value := TakeCard(deck, values, 2 * i + 1);
      bankerCards := bankerHand + [bankerCard];
      if value.None? {
        return playerCards, bankerCards, playerSum, bankerSum, false, 2 * i + 2;
      }
      bankerSum := Add32(bankerTotal, value.value);
      ok, drawn := true, 2 * i + 2;
    }

    /** The third-card rule, as in the current engine but on raw ranks. */
    method DrawThirdCards(ghost deck: seq<string>, ghost values: seq<Option<int>>,
                          playerTwo: seq<string>, bankerTwo: seq<string>, playerTwoSum: int, bankerTwoSum: int)
      returns (playerCards: seq<string>, bankerCards: seq<string>, playerSum: int, bankerSum: int, ok: bool)
      requires |deck| >= 4 && values == Valuation(Legacy, deck) && cards == deck[4..]
      requires values[0].Some? && values[1].Some? && values[2].Some? && values[3].Some?
      requires playerTwo == [deck[0], deck[2]] && bankerTwo == [deck[1], deck[3]]
      requires playerTwoSum == Add32(Add32(0, values[0].value), values[2].value)
      requires bankerTwoSum == Add32(Add32(0, values[1].value), values[3].value)
      modifies this`cards
      ensures ok ==> PlanOn(deck, values) == Hand(playerCards, bankerCards, playerSum, bankerSum, cards)
      ensures !ok ==> |cards| <= |deck| && PlanOn(deck, values) == Broken(|deck| - |cards|)
                      && cards == deck[|deck| - |cards|..]
    {
      playerCards, bankerCards, playerSum, bankerSum := playerTwo, bankerTwo, playerTwoSum, bankerTwoSum;
      ghost var next := if playerSum <= 15 then 5 else 4;
      if playerSum <= 15 {
        if |cards| == 0 {
          assert PlanOn(deck, values) == Broken(4);
          return playerCards, bankerCards, playerSum, bankerSum, false;
        }
        var playerCard, value := TakeCard(deck, values, 4);
        playerCards := playerCards + [playerCard];
        if value.None? {
          assert PlanOn(deck, values) == Broken(5);
          return playerCards, bankerCards, playerSum, bankerSum, false;
        }
        playerSum := Add32(playerSum, value.value);
        assert playerCards == [deck[0], deck[2], deck[4]];
      }
      assert cards == deck[next..];
      if bankerSum <= 15 {
        if |cards| == 0 {
          assert PlanOn(deck, values) == Broken(next);
          return playerCards, bankerCards, playerSum, bankerSum, false;
        }
        var bankerCard, value := TakeCard(deck, values, next);
        bankerCards := bankerCards + [bankerCard];
        if value.None? {
          assert PlanOn(deck, values) == Broken(next + 1);
          return playerCards, bankerCards, playerSum, bankerSum, false;
        }
        bankerSum := Add32(bankerSum, value.value);
        assert bankerCards == [deck[1], deck[3], deck[next]];
        assert cards == deck[next + 1..];
      }
      CompletedPlan(deck, values, playerCards, bankerCards, playerSum, bankerSum, cards);
      ok := true;
    }

    /** `cards.remove(0)` and then the older `getCardValue`, the raw rank. */
    method TakeCard(ghost deck: seq<string>, ghost values: seq<Option<int>>, ghost k: nat)
      returns (card: string, value: Option<int>)
      requires k < |deck| && cards == deck[k..] && values == Valuation(Legacy, deck)
      modifies this`cards
      ensures card == deck[k] && cards == deck[k + 1..]
      ensures value == values[k]
    {
      card := cards[0];
      cards := cards[1..];
      value := RawCardValue(card);
      ValuationAt(Legacy, deck, k);
    }

    /** The older symbol conditions: "B" on "Banker wins", then "P" on "Player wins" and "D" otherwise. */
    method AppendEntries(result: string)
      modifies this`gameHistory
      ensures gameHistory == old(gameHistory) + LegacyEntries(result)
    {
      if Contains(result, "Banker wins") {
        gameHistory := gameHistory + ["B"];
      }
      if Contains(result, "Player wins") {
        gameHistory := gameHistory + ["P"];
      } else {
        gameHistory := gameHistory + ["D"];
      }
    }

    /** `updateBalance`: the user's balance file now holds the new balance. */
    method UpdateBalance(user: string, balance: int)
      modifies this`ledger
      ensures ledger == old(ledger)[user := balance]
    {
      ledger := ledger[user := balance];
    }

    /** Settling the wager on the text of a deal, from the balance read before dealing. */
    method SettleBet(side: string, user: string, balance: int, bet: int, result: string) returns (reply: Option<string>)
      modifies this`ledger
      ensures var s := Settle(side, balance, bet, result);
        reply == Some(SettleReply(s)) && ledger == Credit(old(ledger), user, s)
    {
      if Contains(result, "wins") {
        if (side == "B" && Contains(result, "Banker wins")) || (side == "P" && Contains(result, "Player wins")) {
          var updated := balance + bet;
          UpdateBalance(user, updated);
          reply := Some("Bet won. Balance updated: " + IntToString(updated));
        } else {
          var updated := balance - bet;
          reply := Some("Bet lost. Balance remains: " + IntToString(updated));
          UpdateBalance(user, updated);
        }
      } else {
        reply := Some("It's a draw. Bet refunded.");
      }
    }

    /** The "deal" branch: read the balance, deal, and settle the wager on the text of the deal. */
    method DealAndSettle(side: string, user: string, bet: int) returns (reply: Option<string>, status: Status)
      modifies this`cards, this`gameHistory, this`ledger
      ensures var r := Resolve(Legacy, old(cards));
        && cards == DeckAfter(Legacy, old(cards))
        && (status == Crashed <==> r.Aborted?)
        && (r.Aborted? ==> reply.None? && ledger == old(ledger))
        && (!r.Aborted? ==> var s := Settle(side, Balance(old(ledger), user), bet, Render(r));
              && status == Running && reply == Some(SettleReply(s))
              && ledger == Credit(old(ledger), user, s))
        && gameHistory == old(gameHistory) + (if r.Dealt? then LegacySymbols(r.outcome) else [])
    {
      var balance := Balance(ledger, user);
      var text := DealCards();
      if text.None? {
        return None, Crashed;
      }
      reply := SettleBet(side, user, balance, bet, text.value);
      status := Running;
    }

    /**
     * The switch of the command loop, before the check for a full buffer;
     * the branches are those of the current engine.
     */
    method Dispatch(line: string, bet: int) returns (reply: Option<string>, newBet: int, status: Status)
      modifies this`cards, this`gameHistory, this`ledger
      ensures status == Running <==> GoesOn(Legacy, old(cards), line)
      ensures cards == DeckLeft(Legacy, old(cards), line)
      ensures var c := ParseCommand(line);
        && (c.Malformed? ==> status == Crashed && reply.None?)
        && (c.Exit? ==> status == Exited && reply.None?)
        && (c.Unknown? ==> status == Running && reply == Some(UnknownReply(c.name)))
        && (c.Login? ==> status == Running && reply == Some(LoginReply(c.user, c.balance))
                         && ledger == old(ledger)[c.user := c.balance])
        && (c.PlaceBet? ==> status == Running && newBet == c.amount
                            && reply == Some(BetReply(c.user, c.amount, Balance(old(ledger), c.user))))
        && (!c.PlaceBet? ==> newBet == bet)
        && (!c.Login? && !c.DealHand? ==> ledger == old(ledger))
        && (!c.DealHand? ==> cards == old(cards) && gameHistory == old(gameHistory))
        && (c.DealHand? ==> var r := Resolve(Legacy, old(cards));
              && cards == DeckAfter(Legacy, old(cards))
              && (status == Crashed <==> r.Aborted?)
              && (r.Aborted? ==> reply.None? && ledger == old(ledger))
              && (!r.Aborted? ==> var s := Settle(c.side, Balance(old(ledger), c.user), bet, Render(r));
                    && status == Running && reply == Some(SettleReply(s))
                    && ledger == Credit(old(ledger), c.user, s))
              && gameHistory == old(gameHistory) + (if r.Dealt? then LegacySymbols(r.outcome) else []))
    {
      newBet := bet;
      match ParseCommand(line)
      case Malformed =>
        return None, bet, Crashed;
      case Exit =>
        return None, bet, Exited;
      case Unknown(name) =>
        return Some("Unknown command: " + name), bet, Running;
      case Login(user, balance) =>
        UpdateBalance(user, balance);
        return Some("User " + user + " logged in with balance: " + IntToString(balance)), bet, Running;
      case PlaceBet(amount, user) =>
        newBet := amount;
        var balance := Balance(ledger, user);
        if balance < amount {
          reply := Some("insufficient amount");
        } else {
          reply := Some(user + " - Bet of " + IntToString(amount) + " placed.");
        }
        status := Running;
      case DealHand(side, user) =>
        reply, status := DealAndSettle(side, user, bet);
    }

    /**
     * One pass of the older command loop: the switch, then, when the
     * command completed, a buffer of exactly six is written and cleared.
     * In history terms a completed deal is one `LegacyStep`, and any other
     * command leaves the history as it was.
     */
    method Step(line: string, bet: int) returns (reply: Option<string>, newBet: int, status: Status)
      requires Valid()
      modifies this
      ensures status == Running ==> Valid()
      ensures status != Running ==> gameHistory == old(gameHistory) && historyLog == old(historyLog)
      ensures status == Running <==> GoesOn(Legacy, old(cards), line)
      ensures cards == DeckLeft(Legacy, old(cards), line)
      ensures var c := ParseCommand(line);
        && (c.Malformed? ==> status == Crashed && reply.None?)
        && (c.Exit? ==> status == Exited && reply.None?)
        && (c.Unknown? ==> status == Running && reply == Some(UnknownReply(c.name)))
        && (c.Login? ==> status == Running && reply == Some(LoginReply(c.user, c.balance))
                         && ledger == old(ledger)[c.user := c.balance])
        && (c.PlaceBet? ==> status == Running && newBet == c.amount
                            && reply == Some(BetReply(c.user, c.amount, Balance(old(ledger), c.user))))
        && (!c.PlaceBet? ==> newBet == bet)
        && (!c.Login? && !c.DealHand? ==> ledger == old(ledger))
        && (c.DealHand? ==> var r := Resolve(Legacy, old(cards));
              && (status == Crashed <==> r.Aborted?)
              && (r.Aborted? ==> reply.None? && ledger == old(ledger))
              && (!r.Aborted? ==> var s := Settle(c.side, Balance(old(ledger), c.user), bet, Render(r));
                    && status == Running && reply == Some(SettleReply(s))
                    && ledger == Credit(old(ledger), c.user, s))
              && (r.Dealt? ==> Journal(gameHistory, historyLog)
                               == LegacyStep(Journal(old(gameHistory), old(historyLog)), LegacySymbols(r.outcome))))
        && (!(c.DealHand? && Resolve(Legacy, old(cards)).Dealt?) ==>
              gameHistory == old(gameHistory) && historyLog == old(historyLog))
    {
      reply, newBet, status := Dispatch(line, bet);
      if status == Running && |gameHistory| == 6 {
        WriteGameHistory(gameHistory);
        gameHistory := [];
      }
    }

    /**
     * One pass of the older command loop, in session terms: the session
     * moves one line along its trace, and the history stays the replay of
     * the outcomes dealt so far.
     */
    method Serve(lines: seq<string>, i: nat, bet: int, ghost trace: seq<Progress>, ghost start: seq<string>,
                 ghost dealt: seq<Outcome>)
      returns (reply: Option<string>, newBet: int, status: Status, ghost dealtAfter: seq<Outcome>)
      requires Valid() && i < |lines| && Follows(Legacy, lines, trace)
      requires trace[i] == Progress(true, cards, dealt)
      requires Journal(gameHistory, historyLog) == LegacyReplay(Journal(start, []), dealt)
      modifies this
      ensures Valid()
      ensures Journal(gameHistory, historyLog) == LegacyReplay(Journal(start, []), dealtAfter)
      ensures trace[i + 1] == Progress(status == Running, cards, dealtAfter)
    {
      ghost var deck := cards;
      ghost var c := ParseCommand(lines[i]);
      ghost var r := Resolve(Legacy, deck);
      assert trace[i + 1] == Next(Legacy, trace[i], lines[i]);
      reply, newBet, status := Step(lines[i], bet);
      dealtAfter := dealt + FirstDeal(Legacy, deck, lines[i]);
      if c.DealHand? && r.Dealt? {
        assert dealtAfter == dealt + [r.outcome];
        LegacyReplayStep(Journal(start, []), dealt, r.outcome);
        assert Journal(gameHistory, historyLog) == LegacyStep(Journal(old(gameHistory), old(historyLog)), LegacySymbols(r.outcome));
      } else {
        assert dealtAfter == dealt + [] == dealt;
        assert gameHistory == old(gameHistory) && historyLog == old(historyLog);
      }
    }

    /**
     * The older command loop: lines are handled in order until they run out
     * or one ends the session; `dealt` is the outcomes of the session's
     * completed deals, and the history is their replay from `start`.
     */
    method HandleLines(lines: seq<string>, ghost start: seq<string>)
      returns (replies: seq<string>, status: Status, ghost dealt: seq<Outcome>)
      requires Valid() && Journal(gameHistory, historyLog) == Journal(start, [])
      modifies this
      ensures Valid()
      ensures dealt == SessionDeals(Legacy, old(cards), lines)
      ensures Journal(gameHistory, historyLog) == LegacyReplay(Journal(start, []), dealt)
      ensures |replies| <= |lines|
    {
      SessionTraceExists(Legacy, cards, lines);
      ghost var trace :| Follows(Legacy, lines, trace) && trace[0] == Progress(true, cards, []);
      dealt := [];
      var bet := 0;
      replies := [];
      status := Running;
      var i := 0;
      while i < |lines| && status == Running
        invariant 0 <= i <= |lines| && |replies| <= i
        invariant Valid()
        invariant Journal(gameHistory, historyLog) == LegacyReplay(Journal(start, []), dealt)
        invariant trace[i] == Progress(status == Running, cards, dealt)
      {
        var reply;
        reply, bet, status, dealt := Serve(lines, i, bet, trace, start, dealt);
        if reply.Some? {
          replies := replies + [reply.value];
        }
        i := i + 1;
      }
      SessionOver(Legacy, old(cards), lines, trace, i);
    }

    /**
     * The older session: the history file is truncated, then the command
     * loop runs. The history is the older copy's replay, from the buffer the
     * session started with, of the outcomes of the session's completed
     * deals; every line in the file holds six symbols, and the buffer is
     * never left at exactly six.
     */
    method Run(lines: seq<string>) returns (replies: seq<string>, status: Status)
      requires Valid()
      modifies this
      ensures Valid()
      ensures Journal(gameHistory, historyLog) == LegacyReplay(Journal(old(gameHistory), []), SessionDeals(Legacy, old(cards), lines))
      ensures forall i :: 0 <= i < |historyLog| ==> SymbolLine(historyLog[i])
      ensures |replies| <= |lines|
    {
      ghost var start := gameHistory;
      EmptyGameHistory();
      ghost var dealt;
      replies, status, dealt := HandleLines(lines, start);
      LegacyLinesRead(Journal(start, []), dealt);
    }
  }
}
