/**
 * One client session as the engine's command loop sees it: the
 * `command|field|field` lines a client sends, the balances kept per user,
 * how a bet is settled against the text of a deal, and the reply lines.
 * Balances are `BigInteger` in the server, so unbounded here.
 */
module Session {
  import opened Wrappers
  import opened Text
  import opened Scoring
  import opened Cards
  import opened Deal

  /**
   * A parsed input line. `Malformed` is a line on which the loop throws
   * before doing anything: no fields at all, a missing field, or an amount
   * that is not a decimal integer.
   */
  datatype Command =
    | Login(user: string, balance: int)
    | PlaceBet(amount: int, user: string)
    | DealHand(side: string, user: string)
    | Exit
    | Unknown(name: string)
    | Malformed

  /** Whether the session goes on, ended the server (`System.exit`), or died on an exception. */
  datatype Status = Running | Exited | Crashed

  /**
   * The command loop's reading of a line: split on '|', dispatch on the
   * first field; "login" reads the user from field 1 and the balance from
   * field 2, "bet" the user from field 2 and the amount from field 1, and
   * "deal" the user from field 2 and the side from field 1.
   */
  function ParseCommand(line: string): (c: Command)
    ensures c.Unknown? ==> c.name !in {"login", "bet", "deal", "exit"}
  {
    var parts := JavaSplit(line, '|');
    if |parts| == 0 then Malformed
    else if parts[0] == "login" then
      if |parts| < 3 then Malformed
      else match ParseDecimal(parts[2])
        case Some(balance) => Login(parts[1], balance)
        case None => Malformed
    else if parts[0] == "bet" then
      if |parts| < 3 then Malformed
      else match ParseDecimal(parts[1])
        case Some(amount) => PlaceBet(amount, parts[2])
        case None => Malformed
    else if parts[0] == "deal" then
      if |parts| < 3 then Malformed
      else DealHand(parts[1], parts[2])
    else if parts[0] == "exit" then Exit
    else Unknown(parts[0])
  }

  /** The line a client writes for a command. */
  function FormatCommand(c: Command): string
    requires !c.Unknown? && !c.Malformed?
  {
    match c
    case Login(user, balance) => "login|" + user + "|" + IntToString(balance)
    case PlaceBet(amount, user) => "bet|" + IntToString(amount) + "|" + user
    case DealHand(side, user) => "deal|" + side + "|" + user
    case Exit => "exit"
  }

  /** Fields a client can send: no '|' inside, and a non-empty last field. */
  predicate Sendable(c: Command) {
    match c
    case Login(user, _) => '|' !in user
    case PlaceBet(_, user) => '|' !in user && user != ""
    case DealHand(side, user) => '|' !in side && '|' !in user && user != ""
    case Exit => true
    case Unknown(_) => false
    case Malformed => false
  }

  /** The loop reads back every command a client writes with sendable fields. */
  lemma ParseFormat(c: Command)
    requires Sendable(c)
    ensures ParseCommand(FormatCommand(c)) == c
  {
    match c
    case Login(user, balance) =>
      IntToStringParses(balance);
      ReadFields("login", user, IntToString(balance));
      assert "login|" == "login" + "|";
    case PlaceBet(amount, user) =>
      IntToStringParses(amount);
      ReadFields("bet", IntToString(amount), user);
      assert "bet|" == "bet" + "|";
    case DealHand(side, user) =>
      ReadFields("deal", side, user);
      assert "deal|" == "deal" + "|";
    case Exit =>
      JavaSplitJoin(["exit"], '|');
  }

  /** A line written as three fields splits back into them. */
  lemma ReadFields(name: string, first: string, second: string)
    requires name == "login" || name == "bet" || name == "deal"
    requires '|' !in first && '|' !in second && second != ""
    ensures JavaSplit(name + "|" + first + "|" + second, '|') == [name, first, second]
  {
    var items := [name, first, second];
    assert items[1..] == [first, second];
    assert items[1..][1..] == [second];
    assert JoinWith([first, second], '|') == first + "|" + second;
    assert JoinWith(items, '|') == name + "|" + (first + "|" + second);
    assert name + "|" + (first + "|" + second) == name + "|" + first + "|" + second;
    JavaSplitJoin(items, '|');
  }

  /** A line of '|' only splits into no fields at all, and the loop throws. */
  lemma SeparatorsOnlyThrow()
    ensures ParseCommand("|||") == Malformed
  {
    var fields := ["", "", "", ""];
    assert SplitOn("", '|') == [""];
    assert SplitOn("|", '|') == ["", ""];
    assert SplitOn("||", '|') == ["", "", ""];
    assert SplitOn("|||", '|') == fields;
    assert fields[..3] == ["", "", ""];
    assert fields[..3][..2] == ["", ""];
    assert fields[..3][..2][..1] == [""];
    assert DropTrailingEmpty([""]) == [];
    assert DropTrailingEmpty(["", ""]) == [];
    assert DropTrailingEmpty(["", "", ""]) == [];
    assert DropTrailingEmpty(fields) == [];
  }

  /** An empty line is the unknown command "". */
  lemma EmptyLineUnknown()
    ensures ParseCommand("") == Unknown("")
  {
  }

  /** A client that logs in, bets and deals under a sendable name has each of its lines read back as written. */
  lemma SessionLinesRead(user: string, balance: int, amount: int, side: string)
    requires '|' !in user && user != "" && '|' !in side
    ensures ParseCommand(FormatCommand(Login(user, balance))) == Login(user, balance)
    ensures ParseCommand(FormatCommand(PlaceBet(amount, user))) == PlaceBet(amount, user)
    ensures ParseCommand(FormatCommand(DealHand(side, user))) == DealHand(side, user)
  {
    ParseFormat(Login(user, balance));
    ParseFormat(PlaceBet(amount, user));
    ParseFormat(DealHand(side, user));
  }

  // ---------------------------------------------------------------------
  // Balances and settlement

  /** A user's balance; one never stored reads as 0 (the missing-file path). */
  function Balance(ledger: map<string, int>, user: string): int
  {
    if user in ledger then ledger[user] else 0
  }

  datatype Settlement = Won(balance: int) | Lost(balance: int) | Refunded

  /**
   * Settling a wager on a deal text: any text containing "wins" is won
   * when the side is "B" and it contains "Banker wins" or the side is "P"
   * and it contains "Player wins", and lost otherwise; any other text is
   * a refund.
   */
  function Settle(side: string, balance: int, bet: int, text: string): (s: Settlement)
    ensures s.Won? ==> (side == "B" || side == "P") && s.balance == balance + bet
    ensures s.Lost? ==> s.balance == balance - bet
    ensures s.Refunded? <==> !Contains(text, "wins")
  {
    if Contains(text, "wins") then
      if (side == "B" && Contains(text, "Banker wins")) || (side == "P" && Contains(text, "Player wins")) then
        Won(balance + bet)
      else Lost(balance - bet)
    else Refunded
  }

  /**
   * Settled against the text of a deal of numeric cards, or of a deck too
   * short to deal: the wager is won exactly when it names the winning side,
   * lost exactly on a decided deal it does not name, refunded on a draw or
   * when no deal took place; a win adds the bet and a loss subtracts it.
   */
  lemma SettleDeal(side: string, balance: int, bet: int, r: DealResult)
    requires r.NotEnough? || (r.Dealt? && NumericCards(r.player) && NumericCards(r.banker))
    ensures var s := Settle(side, balance, bet, Render(r));
      && (s.Won? <==> r.Dealt? && !r.outcome.Draw? && WinningSide(r.outcome) == side)
      && (s.Lost? <==> r.Dealt? && !r.outcome.Draw? && WinningSide(r.outcome) != side)
      && (s.Refunded? <==> r.NotEnough? || r.outcome.Draw?)
      && (s.Won? ==> s.balance == balance + bet)
      && (s.Lost? ==> s.balance == balance - bet)
  {
    if r.NotEnough? {
      ContainsFirstChar("Not enough cards to deal.", "wins");
    } else {
      DealtTextContains(r.player, r.banker, r.outcome);
    }
  }

  /** The balances after a settlement: won and lost amounts are stored, a refund stores nothing. */
  function Credit(ledger: map<string, int>, user: string, s: Settlement): map<string, int>
  {
    if s.Refunded? then ledger else ledger[user := s.balance]
  }

  /**
   * After a settlement the user reads back the settled balance, or the old
   * one after a refund, and every other user reads back what they had.
   */
  lemma CreditBalance(ledger: map<string, int>, user: string, other: string, s: Settlement)
    ensures Balance(Credit(ledger, user, s), user) == if s.Refunded? then Balance(ledger, user) else s.balance
    ensures other != user ==> Balance(Credit(ledger, user, s), other) == Balance(ledger, other)
  {
  }

  /** A lost bet larger than the balance drives the stored balance below zero. */
  lemma LossGoesNegative(balance: int, bet: int, o: Outcome)
    requires bet > balance && !o.Draw?
    ensures var s := Settle(if o.PlayerWins? then "B" else "P", balance, bet, OutcomeText(o));
      s.Lost? && s.balance < 0
  {
    OutcomeTextContains(o);
  }

  /**
   * The deal that gives the Banker 9 against the Player's 6, from numeric
   * cards, settles a wager on the Banker as won, adding the bet.
   */
  lemma BankerWinSettles(p1: string, b1: string, p2: string, b2: string, balance: int, bet: int)
    requires CardValue(p1) == Some(10) && CardValue(b1) == Some(9)
    requires CardValue(p2) == Some(6) && CardValue(b2) == Some(10)
    requires Numeric(p1) && Numeric(b1) && Numeric(p2) && Numeric(b2)
    ensures Settle("B", balance, bet, Render(Resolve(Current, [p1, b1, p2, b2]))) == Won(balance + bet)
  {
    BankerWinDeal(p1, b1, p2, b2);
    var r := Resolve(Current, [p1, b1, p2, b2]);
    assert NumericCards(r.player) && NumericCards(r.banker);
    SettleDeal("B", balance, bet, r);
  }

  // ---------------------------------------------------------------------
  // Replies

  function LoginReply(user: string, balance: int): string {
    "User " + user + " logged in with balance: " + IntToString(balance)
  }

  /** The bet reply compares the stored balance with the amount; the amount is kept either way. */
  function BetReply(user: string, amount: int, balance: int): string {
    if balance < amount then "insufficient amount"
    else user + " - Bet of " + IntToString(amount) + " placed."
  }

  function SettleReply(s: Settlement): string {
    match s
    case Won(b) => "Bet won. Balance updated: " + IntToString(b)
    case Lost(b) => "Bet lost. Balance remains: " + IntToString(b)
    case Refunded => "It's a draw. Bet refunded."
  }

  function UnknownReply(name: string): string {
    "Unknown command: " + name
  }

  // ---------------------------------------------------------------------
  // The deals of a session

  /** Whether a session goes on after `line`: a malformed line, "exit" or an aborted deal ends it. */
  predicate GoesOn(variant: Variant, deck: seq<string>, line: string)
  {
    var c := ParseCommand(line);
    !(c.Malformed? || c.Exit? || (c.DealHand? && Resolve(variant, deck).Aborted?))
  }

  /** The outcome `line` deals from `deck`, if it is a "deal" line whose deal completes. */
  function FirstDeal(variant: Variant, deck: seq<string>, line: string): seq<Outcome>
  {
    if ParseCommand(line).DealHand? then
      var r := Resolve(variant, deck);
      if r.Dealt? then [r.outcome] else []
    else []
  }

  /** The deck `line` leaves: only a "deal" line takes cards from it. */
  function DeckLeft(variant: Variant, deck: seq<string>, line: string): seq<string>
  {
    if ParseCommand(line).DealHand? then DeckAfter(variant, deck) else deck
  }

  /**
   * The outcomes of the completed deals of a session whose lines are
   * `lines`, starting from `deck`: only "deal" lines touch the deck, each
   * leaving it as `DeckAfter`; a malformed line, "exit" or an aborted deal
   * ends the session.
   */
  function SessionDeals(variant: Variant, deck: seq<string>, lines: seq<string>): (outcomes: seq<Outcome>)
    ensures |outcomes| <= |lines|
    decreases |lines|
  {
    if |lines| == 0 || !GoesOn(variant, deck, lines[0]) then []
    else FirstDeal(variant, deck, lines[0]) + SessionDeals(variant, DeckLeft(variant, deck, lines[0]), lines[1..])
  }

  /** A line after which the session goes on: its deal, then the deals of the lines after it. */
  lemma SessionDealsGoOn(variant: Variant, deck: seq<string>, rest: seq<string>, dealt: seq<Outcome>)
    requires |rest| > 0 && GoesOn(variant, deck, rest[0])
    ensures (dealt + FirstDeal(variant, deck, rest[0])) + SessionDeals(variant, DeckLeft(variant, deck, rest[0]), rest[1..])
            == dealt + SessionDeals(variant, deck, rest)
  {
    var first := FirstDeal(variant, deck, rest[0]);
    var later := SessionDeals(variant, DeckLeft(variant, deck, rest[0]), rest[1..]);
    assert SessionDeals(variant, deck, rest) == first + later;
    assert dealt + (first + later) == (dealt + first) + later;
  }

  /** A line that ends the session deals nothing, and nothing follows it. */
  lemma SessionDealsEnd(variant: Variant, deck: seq<string>, rest: seq<string>, dealt: seq<Outcome>)
    requires |rest| > 0 && !GoesOn(variant, deck, rest[0])
    ensures dealt + FirstDeal(variant, deck, rest[0]) == dealt + SessionDeals(variant, deck, rest)
  {
    assert FirstDeal(variant, deck, rest[0]) == [];
  }

  /** Where a session stands after some of its lines: going on or ended, the deck left, and the outcomes dealt so far. */
  datatype Progress = Progress(running: bool, deck: seq<string>, dealt: seq<Outcome>)

  /** The session one line further on; a session that has ended stays as it is. */
  function Next(variant: Variant, p: Progress, line: string): Progress
  {
    if !p.running then p
    else Progress(GoesOn(variant, p.deck, line), DeckLeft(variant, p.deck, line), p.dealt + FirstDeal(variant, p.deck, line))
  }

  /** The session after its first `n` lines. */
  function SessionPrefix(variant: Variant, deck: seq<string>, lines: seq<string>, n: nat): Progress
    requires n <= |lines|
  {
    if n == 0 then Progress(true, deck, [])
    else Next(variant, SessionPrefix(variant, deck, lines, n - 1), lines[n - 1])
  }

  /**
   * One line further on, `total` (the deals of the whole session) is still
   * the deals so far, followed by the deals of the lines left if the
   * session is still going.
   */
  lemma NextDeals(variant: Variant, q: Progress, rest: seq<string>, total: seq<Outcome>)
    requires |rest| > 0
    requires q.running ==> total == q.dealt + SessionDeals(variant, q.deck, rest)
    requires !q.running ==> total == q.dealt
    ensures var p := Next(variant, q, rest[0]);
      && (p.running ==> total == p.dealt + SessionDeals(variant, p.deck, rest[1..]))
      && (!p.running ==> total == p.dealt)
  {
    if q.running {
      if GoesOn(variant, q.deck, rest[0]) {
        SessionDealsGoOn(variant, q.deck, rest, q.dealt);
      } else {
        SessionDealsEnd(variant, q.deck, rest, q.dealt);
      }
    }
  }

  /** `trace` follows a session line by line: each entry is the one before it, one line further on. */
  predicate Follows(variant: Variant, lines: seq<string>, trace: seq<Progress>)
  {
    && |trace| == |lines| + 1
    && forall k {:trigger Next(variant, trace[k], lines[k])} ::
         0 <= k < |lines| ==> trace[k + 1] == Next(variant, trace[k], lines[k])
  }

  /** Every session has a trace, starting from its deck with nothing dealt. */
  lemma SessionTraceExists(variant: Variant, deck: seq<string>, lines: seq<string>)
    ensures exists trace :: Follows(variant, lines, trace) && trace[0] == Progress(true, deck, [])
  {
    var trace := seq(|lines| + 1, k requires 0 <= k <= |lines| => SessionPrefix(variant, deck, lines, k));
    forall k | 0 <= k < |lines|
      ensures trace[k + 1] == Next(variant, trace[k], lines[k])
    {
      assert trace[k + 1] == SessionPrefix(variant, deck, lines, k + 1);
    }
    assert Follows(variant, lines, trace);
  }

  /**
   * Reading a session line by line agrees with `SessionDeals`: the deals
   * after `n` lines, followed by the deals of the rest of the lines if the
   * session is still going, are all the deals of the session.
   */
  lemma {:induction false} TraceDeals(variant: Variant, deck: seq<string>, lines: seq<string>, trace: seq<Progress>, n: nat)
    requires Follows(variant, lines, trace) && trace[0] == Progress(true, deck, [])
    requires n <= |lines|
    ensures trace[n].running ==> SessionDeals(variant, deck, lines) == trace[n].dealt + SessionDeals(variant, trace[n].deck, lines[n..])
    ensures !trace[n].running ==> SessionDeals(variant, deck, lines) == trace[n].dealt
  {
    if n == 0 {
      assert lines[0..] == lines;
    } else {
      TraceDeals(variant, deck, lines, trace, n - 1);
      var rest := lines[n - 1..];
      assert rest[0] == lines[n - 1] && rest[1..] == lines[n..];
      assert trace[n] == Next(variant, trace[n - 1], lines[n - 1]);
      NextDeals(variant, trace[n - 1], rest, SessionDeals(variant, deck, lines));
    }
  }

  /** Once the lines run out or the session has ended, the deals so far are all of its deals. */
  lemma SessionOver(variant: Variant, deck: seq<string>, lines: seq<string>, trace: seq<Progress>, n: nat)
    requires Follows(variant, lines, trace) && trace[0] == Progress(true, deck, [])
    requires n <= |lines|
    requires n == |lines| || !trace[n].running
    ensures SessionDeals(variant, deck, lines) == trace[n].dealt
  {
    TraceDeals(variant, deck, lines, trace, n);
    if trace[n].running {
      assert SessionDeals(variant, trace[n].deck, lines[n..]) == [];
      assert trace[n].dealt + [] == trace[n].dealt;
    }
  }
}
