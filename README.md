# Baccarat table engine

This project models the table engine of the baccarat-cli server. A client
sends `command|field|field` lines. For each connection the server runs a
`BaccaratEngine` that serves four commands:

- `login|user|balance` stores the balance in the user's balance file.
- `bet|amount|user` keeps the amount as the session's wager.
- `deal|side|user` deals one hand from the shared card file and settles the wager.
- `exit` stops the server.

A deal gives Player and Banker two cards each, alternating from the front
of the deck. Each side takes a third card when its two-card total is at
most 15. The totals are normalised and compared. The outcome symbol (`B`,
`P` or `D`) goes into an in-memory buffer, and a full buffer of six is
appended as one comma-separated line to `game_history.csv`. At start-up
the server writes `numberOfDecks × 13 × 4` cards `"rank.suit"` to the card
file.

The engine exists in two copies, and both are modelled side by side:

- `Engine` models `src/server/BaccaratEngine.java`, the current copy.
- `LegacyEngine` models the older package-private copy in `src/server/ServerApp.java`. That copy:
  - values a card at its raw rank;
  - does not reset a normalised 10 or 20 to 0;
  - records "B" and then "D" after a Banker win;
  - truncates the history file when a session starts;
  - checks for a full buffer after every command instead of inside the deal.

Modules:

- `Text`: Java's `split` on one character, `String.join`, decimal parsing and printing, `contains`.
- `Cards`: the card text, the rank parse and the two card valuations, and the start-up deck with its generating loop.
- `Scoring`: 32-bit `int` accumulation, the two normalisations, the comparison, and the outcome symbols.
- `Deal`: the draw of one deal as a function of the deck, shared by both copies. `PlanOn` gives which cards go to which side, where the deal throws, and what is left. `Resolve` gives the outcome and `Render` the response text.
- `History`: the buffer and the history file as a `Journal`, the batching into groups of six, and the older copy's replay.
- `Session`: command parsing, the ledger of balances, settlement and the reply lines.
- `Engine` and `LegacyEngine`: each engine is a class. Its fields are:
  - `cards`, the deck;
  - `gameHistory`, the buffer;
  - `historyLog`, the lines of the history file;
  - `ledger`, the balance files as a map from user to balance.

  Its methods remove cards from the front of the deck, accumulate the totals, append to and clear the buffer, and run the command loop. Each method is proved against the functions above.

Where a Java exception ends the session, the model reports `Crashed`, or
`Aborted` for a deal. This covers:

- a line with too few fields;
- an amount that is not a decimal integer;
- a card whose rank does not parse;
- a third card wanted from an empty deck.

The guard in `dealCards` only checks for fewer than four cards. On a deck
of four or five cards a wanted third card is missing, and the deal throws
after removing every card (`Deal.FourCardDealThrows`, `Deal.StandardDeal`).

The bet command replies "insufficient amount" when the stored balance is
below the amount, but it keeps the amount as the wager in both branches, so a
later loss is settled against it (`Session.LossGoesNegative`).

## Model

| member | source | states |
|---|---|---|
| Text.IntToStringParses | src/server/BaccaratEngine.java:33-37 | Printing an integer and parsing it back as a `BigInteger` returns the same integer. The printed form is non-empty and holds no dot, pipe or comma. |
| Text.ParseDecimal | src/server/BaccaratEngine.java:33 | A text that parses ends in a digit, and a negative value comes only from a leading '-'. |
| Text.ParseInt32 | src/server/BaccaratEngine.java:230 | `Integer.parseInt` succeeds exactly when the text is a decimal integer in the 32-bit range, and then gives that integer. |
| Text.SplitOnFields | src/server/BaccaratEngine.java:28 | The fields of a split contain no separator, and joining them back with the separator restores the line. |
| Text.JavaSplit | src/server/BaccaratEngine.java:28 | No field of the split holds the separator. A non-empty line never yields an empty last field, because Java drops the trailing empty fields. |
| Text.JavaSplitJoin | src/server/BaccaratEngine.java:28 | Java's split of fields joined by the separator gives back those fields, provided no field holds the separator and the last one is not empty. |
| Cards.CardValues | src/server/BaccaratEngine.java:229-235 | In the current copy a card's value exists exactly when its rank parses. A card of rank 1..13 is worth its rank up to 10 and 10 for 11, 12 or 13, so 1..10. The older copy's value is the raw rank. |
| Cards.Rank | src/server/BaccaratEngine.java:230 | The rank read from a card's first dot-separated field is a 32-bit `int` when it parses. The empty card has no rank, as `Integer.parseInt("")` throws. |
| Cards.CardValue | src/server/BaccaratEngine.java:229-235 | The current copy's value exists exactly when the rank parses. It is then a 32-bit `int`, either the rank itself or 10. |
| Cards.RawCardValue | src/server/ServerApp.java:274-277 | The older copy's value exists exactly when the rank parses, and it is a 32-bit `int`. |
| Cards.RankOfFormatted | src/server/ServerApp.java:274-277 | The older copy's rank parse of a card written as `value + "." + suit` returns `value`. |
| Cards.FormatCardInjective | src/server/ServerApp.java:37 | Two cards with the same text have the same rank and the same suit. |
| Cards.FormattedIsStandard | src/server/ServerApp.java:37 | A generated card has a rank in 1..13. It is worth that rank, capped at 10, in the current copy, and the raw rank in the older copy. |
| Cards.Decks | src/server/ServerApp.java:33-40 | The start-up deck has 52 × numberOfDecks cards, and none when the number is not positive. |
| Cards.BuildDeck | src/server/ServerApp.java:33-40 | The nested deck, value and suit loops produce exactly the deck `Decks(numberOfDecks)`. |
| Cards.AppendSuits | src/server/ServerApp.java:36-38 | The inner loop appends the four suits of one value in order, 1 to 4. |
| Cards.DecksAt | src/server/ServerApp.java:33-40 | Card `value.suit` of deck d sits at index 52d + 4(value − 1) + (suit − 1): deck-major, then value, then suit. |
| Cards.DecksCount | src/server/ServerApp.java:33-40 | Each (value, suit) pair with value in 1..13 and suit in 1..4 occurs exactly numberOfDecks times. A card text with a rank or suit outside those ranges never occurs. |
| Cards.DecksStandard | src/server/ServerApp.java:37 | Every generated card has a rank in 1..13 and is written with digits, minus signs and dots only. |
| Scoring.Add32 | src/server/BaccaratEngine.java:118 | `int` addition lies in the 32-bit range. It is the mathematical sum wrapped by 2^32, and exactly the sum when that fits. |
| Scoring.Normalize | src/server/BaccaratEngine.java:146-172 | On every total in 0..30 the current normalisation, the subtract-10/20 steps followed by the 10/20 reset, equals the total modulo 10. It lies in 0..9. |
| Scoring.LegacyNormalize | src/server/ServerApp.java:208-226 | On 0..29 the older normalisation lies in 0..10. It equals the total modulo 10 exactly when the total is not 20, and 20 scores 10. |
| Scoring.NormalizationsDiffer | src/server/ServerApp.java:208-226 | On 0..29 the two copies' normalisations agree everywhere except at 20. |
| Scoring.Compare | src/server/BaccaratEngine.java:178-184 | Player wins iff its total is higher, Banker wins iff its total is higher, and the result is a draw iff the totals are equal. The winner reports its own total. |
| Scoring.OutcomeText | src/server/BaccaratEngine.java:178-184 | The outcome text is "Draw" exactly for a draw, and every outcome text has at least four characters. |
| Scoring.Symbol | src/server/BaccaratEngine.java:189-195 | The recorded symbol is "B" iff Banker wins, "P" iff Player wins and "D" iff the deal is a draw. |
| Scoring.Symbols | src/server/BaccaratEngine.java:189-195 | A run of outcomes records one symbol per outcome, each "B", "P" or "D". |
| Scoring.SymbolsAppend | src/server/BaccaratEngine.java:189-195 | The symbols of two runs of outcomes are those of the first run followed by those of the second. |
| Scoring.LegacySymbols | src/server/ServerApp.java:238-244 | The older copy records two symbols, "B" then "D", after a Banker win, and one symbol otherwise. |
| Scoring.OutcomeTextContains | src/server/BaccaratEngine.java:178-195 | An outcome text contains "Banker wins", "Player wins" or "Draw" exactly for that outcome. It contains "wins" exactly when the deal was not a draw. |
| Scoring.CurrentEntries | src/server/BaccaratEngine.java:189-195 | The current copy's conditions on any text append at most two entries, each "B", "P" or "D". |
| Scoring.LegacyEntries | src/server/ServerApp.java:238-244 | The older copy's conditions on any text append one or two symbols, and the last is always "P" or "D", because its final `if`/`else` always fires. |
| Scoring.CurrentEntriesRecordSymbol | src/server/BaccaratEngine.java:189-195 | The current copy's conditions on the outcome text append exactly one symbol, the outcome's. |
| Scoring.LegacyEntriesOfOutcome | src/server/ServerApp.java:238-244 | The older copy's conditions on the outcome text append the symbols of `LegacySymbols`. |
| Deal.StandardValue | src/server/BaccaratEngine.java:229-235 | A card of rank 1..13 has a value, in 1..10 in the current copy and in 1..13 in the older one. |
| Deal.PlanOn | src/server/BaccaratEngine.java:99-140 | The plan is "too few" exactly when fewer than four cards remain. A throw comes after removing at least one card and at most the whole deck. |
| Deal.Resolve | src/server/BaccaratEngine.java:99-184 | The deal reports too few cards exactly below four cards. A completed deal gives each side two or three cards. |
| Deal.Render | src/server/BaccaratEngine.java:211-214 | The response is empty exactly for a deal that threw. A completed deal's response starts with "P" and a pipe character. |
| Deal.PlanShape | src/server/BaccaratEngine.java:99-140 | The deal's outcome by deck: <ul><li>"Too few" exactly when fewer than four cards remain.</li><li>A throw after at most six removed cards, at the deck's end or at a card without a value.</li><li>Otherwise two or three cards per side: Player gets deck[0] and deck[2], Banker deck[1] and deck[3]. Player takes deck[4] iff its two-card `int` total is at most 15. Banker then takes the next card iff its own two-card total is at most 15. The totals are the `int` sums, and the deck that remains is the old deck minus the cards dealt, from the front.</li></ul> |
| Deal.CompletedPlan | src/server/BaccaratEngine.java:114-140 | When the first four cards have values and each wanted third card exists and has one, the deal yields exactly those hands, totals and remaining deck. |
| Deal.InitialCardThrows | src/server/BaccaratEngine.java:114-125 | A card without a value among the first four aborts the deal after that card was removed. |
| Deal.DeckAfter | src/server/BaccaratEngine.java:99-140 | After a deal, thrown or not, the deck is always a suffix of the old deck. |
| Deal.InRangeDeal | src/server/BaccaratEngine.java:128-140 | With card values in 1..max: <ul><li>A deck of four or more cards either completes or throws only after emptying the deck.</li><li>Six or more cards always complete.</li><li>Each final total lies in 2..max + 15.</li></ul> |
| Deal.StandardDeal | src/server/BaccaratEngine.java:101-140 | On generated cards, six or more never throw, and four or five throw only when the wanted third cards run the deck dry. Final totals lie in 2..25 in the current copy and 2..28 in the older one. |
| Deal.CurrentComparesModTen | src/server/BaccaratEngine.java:146-184 | On generated cards the current copy decides the outcome by comparing the two totals modulo 10. |
| Deal.LegacyPointsRange | src/server/ServerApp.java:190-226 | On generated cards the older copy scores each side in 0..10. |
| Deal.FourCardDealThrows | src/server/BaccaratEngine.java:101-140 | Take the four-card deck 9.1, 9.2, 2.1, 2.2. It passes the fewer-than-four guard, Player then wants a fifth card, and the deal throws in both copies. |
| Deal.BankerWinDeal | src/server/BaccaratEngine.java:101-184 | Cards worth 10, 9, 6 and 10, in deck order, give Player 16 and Banker 19. Neither side draws, because both totals are above 15, and Banker wins with 9 points. The deal uses the whole deck. |
| Deal.RenderListsPlayerCards | src/server/BaccaratEngine.java:211-214 | In the deal response, the segment before the first ',' splits on the pipe character into "P" followed by the player's cards in draw order. |
| Deal.DealtTextContains | src/server/BaccaratEngine.java:211-214 | For numeric cards, the deal response contains "wins", "Banker wins" or "Player wins" exactly when the outcome text does. The card list never fakes a phrase. |
| History.LeftoverLength | src/server/BaccaratEngine.java:188-201 | The buffer left after the complete groups of six holds the number of recorded symbols modulo 6. The number of groups is that number divided by 6. |
| History.BatchesCover | src/server/BaccaratEngine.java:198-201 | The groups written, in order, followed by the buffer are exactly the recorded symbols. Every group has six. |
| History.RecordOne | src/server/BaccaratEngine.java:188-201 | Recording one symbol extends the buffer, or completes a group of six that becomes the newest group while the buffer empties. |
| History.CurrentStep | src/server/BaccaratEngine.java:188-201 | One current record: the file gains at most one line, and a new line is the comma-join of exactly six symbols. A buffer that does not pass six ends below six. |
| History.CurrentStepRecords | src/server/BaccaratEngine.java:188-201 | Each step of the current copy keeps two facts: the buffer is the leftover of everything recorded, and the file gained one line per complete group. |
| History.CsvLineRoundTrip | src/server/BaccaratEngine.java:221 | A line written from symbols splits on ',' back into those symbols. |
| History.BatchLinesRead | src/server/BaccaratEngine.java:217-223 | Every line written for a group reads back as exactly its six symbols. |
| History.LegacyReplayNotSix | src/server/ServerApp.java:144-147 | In the older copy, a buffer that is not exactly six long stays so after each deal plus check. The check after a command that deals nothing changes nothing. |
| History.LegacyStep | src/server/ServerApp.java:144-147 | One older deal plus check: the file gains at most one line, and a new line is the comma-join of exactly six symbols. The buffer is never left at exactly six. |
| History.LegacyReplay | src/server/ServerApp.java:88-147 | Replaying a session's deals the older way only ever adds lines to the file. |
| History.LegacyLinesRead | src/server/ServerApp.java:256-263 | Every line the older copy writes holds six symbols, because it writes only a buffer of exactly six. |
| History.LegacyOverflowSticks | src/server/ServerApp.java:144-147 | Once the older copy's buffer holds more than six symbols, no further line is written and the buffer only grows. |
| History.LegacyBankerOverflow | src/server/ServerApp.java:238-244 | Five Player wins then a Banker win leave seven symbols and no line in the older copy. The current copy writes the line "P,P,P,P,P,B". |
| Session.ParseCommand | src/server/BaccaratEngine.java:27-30 | A line that reaches the default branch names none of "login", "bet", "deal" or "exit". |
| Session.ParseFormat | src/server/BaccaratEngine.java:28-52 | Every login, bet, deal or exit line a client writes with well-formed fields is read back as that command. |
| Session.SeparatorsOnlyThrow | src/server/BaccaratEngine.java:28-29 | A line of separators only splits into no fields, and reading the command throws. |
| Session.EmptyLineUnknown | src/server/BaccaratEngine.java:27-30 | An empty line is read as the unknown command "". |
| Session.SessionLinesRead | src/server/BaccaratEngine.java:28-52 | A login, bet and deal line written with a non-empty user and a side free of pipes read back as those commands. |
| Session.Settle | src/server/BaccaratEngine.java:56-72 | A won settlement needs the side "B" or "P" and adds the wager. A lost one subtracts it. The wager is refunded exactly when the text lacks "wins". |
| Session.SettleDeal | src/server/BaccaratEngine.java:56-72 | The wager settles on the deal text: <ul><li>Won exactly when it names the winning side, adding the wager.</li><li>Lost exactly on a decided deal it does not name, including a side that is neither "B" nor "P", subtracting the wager.</li><li>Refunded exactly on a draw or when there were too few cards.</li></ul> |
| Session.CreditBalance | src/server/BaccaratEngine.java:249-264 | After a settlement the user's balance reads as the new balance when the wager was won or lost, and as before on a refund. Every other user's balance is unchanged. |
| Session.BankerWinSettles | src/server/BaccaratEngine.java:56-72 | On the deck of `Deal.BankerWinDeal`, a wager on "B" is won and the balance gains the wager. |
| Session.LossGoesNegative | src/server/BaccaratEngine.java:63-68 | A lost wager larger than the balance drives the stored balance below zero. |
| Session.SessionDeals | src/server/BaccaratEngine.java:27-80 | The outcomes a session deals, in order: one per completed deal, up to the first malformed line, exit or aborted deal. There are at most as many as there are lines. |
| Session.SessionDealsGoOn | src/server/BaccaratEngine.java:27-80 | When the first line lets the session go on, its deal is followed by the deals of the other lines on the deck it leaves. |
| Session.SessionDealsEnd | src/server/BaccaratEngine.java:27-80 | When the first line ends the session, no outcome is dealt. |
| Session.NextDeals | src/server/BaccaratEngine.java:27-80 | Handling one more line keeps the outcomes dealt so far plus those still to come equal to the whole session's. |
| Session.TraceDeals | src/server/BaccaratEngine.java:27-80 | At every point of a session, the outcomes dealt so far, followed by those the rest of the lines deal from the current deck, are the session's outcomes. |
| Session.SessionOver | src/server/BaccaratEngine.java:27-80 | When the lines run out or the session stops, the outcomes dealt so far are exactly the session's. |
| Session.SessionTraceExists | src/server/BaccaratEngine.java:27-80 | Every session has a trace, line by line, of whether it goes on, the deck and the outcomes so far. |
| Engine.BaccaratEngine.constructor | src/server/BaccaratEngine.java:14-17 | A new engine holds the loaded deck and an empty buffer. The history file and balances start as found. |
| Engine.BaccaratEngine.WriteGameHistory | src/server/BaccaratEngine.java:217-227 | The history file gains the snapshot as one comma-joined line, unless the snapshot is empty. |
| Engine.BaccaratEngine.DealCards | src/server/BaccaratEngine.java:99-215 | One deal gives the text of `Resolve` on the old deck, or throws exactly when that aborts. The deck becomes the deck after the deal. A completed deal records the outcome's symbol and flushes a buffer of six as one line. Otherwise the history is untouched. The engine invariant is kept. |
| Engine.BaccaratEngine.DealOnPlan | src/server/BaccaratEngine.java:99-215 | Deals by the plan of the deck: <ul><li>"Not enough cards to deal." with the deck untouched below four cards.</li><li>A throw with the removed cards gone.</li><li>Otherwise the response for the planned hands and the outcome of the normalised totals, with the deck left as planned.</li></ul> |
| Engine.BaccaratEngine.DrawOpening | src/server/BaccaratEngine.java:114-125 | The opening rounds give Player deck[0] and deck[2] and Banker deck[1] and deck[3], with `int` totals, and remove four cards. They stop at the first card without a value, after removing it. |
| Engine.BaccaratEngine.DrawRound | src/server/BaccaratEngine.java:114-125 | One round: Player, then Banker, takes the front card and adds its value. A card without a value stops the round once removed. |
| Engine.BaccaratEngine.DrawThirdCards | src/server/BaccaratEngine.java:128-140 | The third-card draws end in the planned hands, totals and remaining deck, or throw exactly where the plan does. |
| Engine.BaccaratEngine.TakeCard | src/server/BaccaratEngine.java:116-118 | Removes the front card and returns it with its value, or none when its rank does not parse. |
| Engine.BaccaratEngine.RecordOutcome | src/server/BaccaratEngine.java:188-204 | Recording a deal's outcome appends exactly its symbol and writes and clears a buffer that reaches six. The invariant is kept: the buffer is the leftover of all recorded symbols. |
| Engine.BaccaratEngine.AppendEntries | src/server/BaccaratEngine.java:189-195 | The buffer gains the symbols the conditions on the outcome text select. |
| Engine.BaccaratEngine.UpdateBalance | src/server/BaccaratEngine.java:258-264 | The user's stored balance becomes the new one. Nothing else changes. |
| Engine.BaccaratEngine.Step | src/server/BaccaratEngine.java:27-79 | One command line gives its reply and its effect: <ul><li>login overwrites the ledger entry;</li><li>bet sets the wager even when it replies "insufficient amount", and leaves the ledger alone;</li><li>deal settles on the deal text and records its symbol;</li><li>unknown commands reply and change nothing;</li><li>exit ends the server;</li><li>a malformed line or an aborted deal ends the session.</li></ul> |
| Engine.BaccaratEngine.DealAndSettle | src/server/BaccaratEngine.java:50-73 | Reads the balance, deals, and settles the wager on the deal text. An aborted deal crashes the session and leaves the ledger alone. |
| Engine.BaccaratEngine.SettleBet | src/server/BaccaratEngine.java:56-72 | The reply and the stored balance are those of the settlement. |
| Engine.BaccaratEngine.Serve | src/server/BaccaratEngine.java:27-79 | One pass of the loop keeps the invariant. The recorded symbols are those of the outcomes dealt so far, and the deck and whether the session goes on follow the session's trace. |
| Engine.BaccaratEngine.Run | src/server/BaccaratEngine.java:20-84 | Over a session: <ul><li>the recorded symbols grow by exactly the symbols of `SessionDeals` on the starting deck;</li><li>the history file only grows, and every line it gains reads back as six outcome symbols;</li><li>the buffer holds the symbols recorded since the last complete group, fewer than six;</li><li>there is at most one reply per line.</li></ul> |
| Engine.WinSession | src/server/BaccaratEngine.java:31-72 | A session on the deck 10.1, 9.3, 6.2, 13.4: "alice" logs in with 200, bets 50, and deals on "B". The three replies are the login, the bet placed and "Bet won" with 250, and 250 is stored. |
| Engine.WrittenLinesRead | src/server/BaccaratEngine.java:217-223 | The lines written for the complete groups of recorded symbols each read back as six symbols. |
| LegacyEngine.BaccaratEngine.constructor | src/server/ServerApp.java:76-79 | A new older engine holds the loaded deck and an empty buffer. |
| LegacyEngine.BaccaratEngine.WriteGameHistory | src/server/ServerApp.java:256-263 | The history file gains the buffer as one comma-joined line, with no emptiness guard. |
| LegacyEngine.BaccaratEngine.EmptyGameHistory | src/server/ServerApp.java:265-272 | The history file is truncated. |
| LegacyEngine.BaccaratEngine.DealCards | src/server/ServerApp.java:167-254 | One older deal gives the text of `Resolve` on raw ranks, or throws exactly when that aborts. The deck becomes the deck after the deal. The buffer gains `LegacySymbols` of the outcome, with no flush. |
| LegacyEngine.BaccaratEngine.DealOnPlan | src/server/ServerApp.java:167-254 | The same plan as the current copy, normalised without the reset. A completed deal appends `LegacySymbols`. |
| LegacyEngine.BaccaratEngine.DrawOpening | src/server/ServerApp.java:179-187 | The same opening draw order and deck change as the current copy, on raw ranks. |
| LegacyEngine.BaccaratEngine.DrawRound | src/server/ServerApp.java:179-187 | One opening round on raw ranks. |
| LegacyEngine.BaccaratEngine.DrawThirdCards | src/server/ServerApp.java:190-200 | The same third-card rule and uncovered draws as the current copy. |
| LegacyEngine.BaccaratEngine.TakeCard | src/server/ServerApp.java:180-182 | Removes the front card and returns its raw rank. |
| LegacyEngine.BaccaratEngine.AppendEntries | src/server/ServerApp.java:238-244 | The buffer gains "B" on "Banker wins", then "P" on "Player wins", and "D" otherwise. |
| LegacyEngine.BaccaratEngine.UpdateBalance | src/server/ServerApp.java:300-306 | The user's stored balance becomes the new one. |
| LegacyEngine.BaccaratEngine.SettleBet | src/server/ServerApp.java:118-135 | The reply and the stored balance are those of the settlement. |
| LegacyEngine.BaccaratEngine.DealAndSettle | src/server/ServerApp.java:112-136 | Reads the balance, deals the older way, and settles. An aborted deal crashes the session. |
| LegacyEngine.BaccaratEngine.Dispatch | src/server/ServerApp.java:90-142 | The older switch has the same branches and replies as the current one. It goes on exactly when the line is not malformed, not exit and not an aborted deal, and the deck is what the line leaves. A deal appends `LegacySymbols`. |
| LegacyEngine.BaccaratEngine.Step | src/server/ServerApp.java:89-147 | A command followed by the check for exactly six: <ul><li>the same replies, wager, ledger and status as `Dispatch`;</li><li>the deck is what the line leaves;</li><li>a completed deal is one `LegacyStep` of the history;</li><li>any other command leaves the history alone.</li></ul> |
| LegacyEngine.BaccaratEngine.Serve | src/server/ServerApp.java:89-147 | One pass of the loop: the history stays the older replay of the outcomes dealt so far, and the deck and whether the session goes on follow the session's trace. |
| LegacyEngine.BaccaratEngine.HandleLines | src/server/ServerApp.java:89-148 | The loop over the lines deals exactly `SessionDeals` on the starting deck, and the history is their older replay from the truncated file. There is at most one reply per line. |
| LegacyEngine.BaccaratEngine.Run | src/server/ServerApp.java:82-152 | After truncating the file, the history is the older replay of `SessionDeals` on the starting deck. Every line in the file holds six symbols, and there is at most one reply per line. |

## Left out

- Sockets, the 10-thread pool, reading lines from the stream, and `PrintWriter` output: a session is a sequence of input lines, and replies are strings.
- `ServerApp.main`'s argument handling (usage message, port parsing) and the accept loop: the deck builder takes the number of decks as a parameter.
- `Collections.shuffle`: the engine is proved for every deck, so the order of the shuffled deck does not matter to any contract.
- `synchronized` and `volatile`: each engine loads its own deck and owns its own buffer, so there is nothing shared in memory to model.
- Other sessions appending to the same history file, or writing the same balance file, concurrently: each engine sees only its own writes.
- `cards.db`, `loadCards` and `saveCards`: the deck is the `cards` field. Saving after a deal is the field's new value, and the constructor takes whatever deck was loaded, including an empty one.
- The balance files: modelled as a map. A missing file reads as 0. A file whose content is not an integer, or is empty (the Java parse then throws), is not modelled, because the map holds only integers.
- Failures of file I/O (`IOException` on write or read): only the missing balance file, which reads as 0, is modelled.
- `System.out` logging: left out. `System.exit` on "exit" is the status `Exited`; its effect on other sessions is not modelled.
- The `side` parameter of `dealCards`: neither copy reads it, so the model's deal takes no parameter.
- Non-ASCII Unicode digits, which `Integer.parseInt` and `new BigInteger` also accept: the model parses ASCII '0'..'9' with an optional sign only.
- Engine.BaccaratEngine.Run: states the outcomes dealt, the history and at most one reply per line, not each reply. The replies and the effect of each line are stated by `Engine.BaccaratEngine.Step`.
- LegacyEngine.BaccaratEngine.Run: states the outcomes dealt, the history and at most one reply per line, not each reply. The replies are stated by `LegacyEngine.BaccaratEngine.Step`.

## Findings

| source | as written | input that shows it | evidently intended | confidence | as-written member | corrected member |
|---|---|---|---|---|---|---|
| src/server/ServerApp.java:238-244 | The second condition is a separate `if` whose `else` also runs after "Banker wins" was found, so a Banker win appends "B" and then "D". The buffer then jumps from 5 to 7, and the check for exactly 6 at src/server/ServerApp.java:144-147 never writes it again. | Five Player wins followed by a Banker win | One symbol per deal, "B" for a Banker win, as the current copy does at src/server/BaccaratEngine.java:189-195 | not executed | History.LegacyBankerOverflow | Scoring.CurrentEntriesRecordSymbol |
| src/server/ServerApp.java:208-226 | The subtract-10/20 steps without the reset leave a total of exactly 20 at 10 points. | A hand of 10.1, 10.2 for Player (total 20) against any lower Banker score: Player wins with 10 points | The total modulo 10 (0 points for 20), as the current copy's reset at src/server/BaccaratEngine.java:166-172 gives | not executed | Scoring.NormalizationsDiffer | Scoring.Normalize |
