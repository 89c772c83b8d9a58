/**
 * Hand scoring: Java `int` accumulation of card values, the two
 * normalisations of a total (current engine and older copy) and the
 * comparison of the two normalised totals.
 */
module Scoring {
  import opened Text

  /** Java `int` addition: the mathematical sum wrapped into 32 bits. */
  function Add32(a: int, b: int): (r: int)
    requires MinInt32 <= a <= MaxInt32 && MinInt32 <= b <= MaxInt32
    ensures MinInt32 <= r <= MaxInt32
    ensures r == a + b || r == a + b - 0x1_0000_0000 || r == a + b + 0x1_0000_0000
    ensures MinInt32 <= a + b <= MaxInt32 ==> r == a + b
  {
    var s := a + b;
    if s > MaxInt32 then s - 0x1_0000_0000
    else if s < MinInt32 then s + 0x1_0000_0000
    else s
  }

  /**
   * Current engine: subtract 10 from a total in 10..20, subtract 20 from a
   * total above 20, then reset a remaining 10 or 20 to 0. On every total a
   * hand of two or three cards worth 1..10 can reach (and on all of 0..30)
   * this is the total modulo 10.
   */
  function Normalize(total: int): (points: int)
    ensures 0 <= total <= 30 ==> points == total % 10 && 0 <= points <= 9
  {
    var afterTen := if 10 <= total <= 20 then total - 10 else total;
    var afterTwenty := if afterTen > 20 then afterTen - 20 else afterTen;
    if afterTwenty == 20 || afterTwenty == 10 then 0 else afterTwenty
  }

  /**
   * Older copy: the same two subtractions without the reset. On 0..29 (all
   * totals its raw-rank hands reach) the result lies in 0..10 and differs
   * from the total modulo 10 exactly at 20, which it scores as 10.
   */
  function LegacyNormalize(total: int): (points: int)
    ensures 0 <= total <= 29 ==> 0 <= points <= 10
    ensures 0 <= total <= 29 ==> (points == total % 10 <==> total != 20)
    ensures total == 20 ==> points == 10
  {
    var afterTen := if 10 <= total <= 20 then total - 10 else total;
    if afterTen > 20 then afterTen - 20 else afterTen
  }

  /** The two normalisations agree on 0..29 everywhere but at 20. */
  lemma NormalizationsDiffer(total: int)
    requires 0 <= total <= 29
    ensures Normalize(total) == LegacyNormalize(total) <==> total != 20
  {
  }

  datatype Outcome = PlayerWins(points: int) | BankerWins(points: int) | Draw

  /** Strictly higher normalised total wins, with its points; equal totals draw. */
  function Compare(player: int, banker: int): (o: Outcome)
    ensures o.PlayerWins? <==> player > banker
    ensures o.BankerWins? <==> banker > player
    ensures o.Draw? <==> player == banker
    ensures o.PlayerWins? ==> o.points == player
    ensures o.BankerWins? ==> o.points == banker
  {
    if player > banker then PlayerWins(player)
    else if banker > player then BankerWins(banker)
    else Draw
  }

  /** The outcome text that ends the deal response. */
  function OutcomeText(o: Outcome): (t: string)
    ensures |t| >= 4
    ensures t == "Draw" <==> o.Draw?
  {
    match o
    case PlayerWins(p) => "Player wins with " + IntToString(p) + " points."
    case BankerWins(p) => "Banker wins with " + IntToString(p) + " points."
    case Draw => "Draw"
  }

  /** The side a wager must name to win on this outcome, if any. */
  function WinningSide(o: Outcome): (side: string)
    ensures o.Draw? <==> side == ""
  {
    match o
    case PlayerWins(_) => "P"
    case BankerWins(_) => "B"
    case Draw => ""
  }

  predicate IsSymbol(s: string) {
    s == "B" || s == "P" || s == "D"
  }

  /** The one history symbol the current engine records for an outcome. */
  function Symbol(o: Outcome): (s: string)
    ensures IsSymbol(s)
    ensures s == "B" <==> o.BankerWins?
    ensures s == "P" <==> o.PlayerWins?
    ensures s == "D" <==> o.Draw?
  {
    match o
    case BankerWins(_) => "B"
    case PlayerWins(_) => "P"
    case Draw => "D"
  }

  /** The symbols the current engine records for a run of outcomes, one per outcome, in order. */
  function Symbols(os: seq<Outcome>): (syms: seq<string>)
    ensures |syms| == |os|
    ensures forall i :: 0 <= i < |syms| ==> IsSymbol(syms[i])
  {
    seq(|os|, i requires 0 <= i < |os| => Symbol(os[i]))
  }

  /** The symbols of two runs of outcomes, one after the other. */
  lemma SymbolsAppend(os: seq<Outcome>, more: seq<Outcome>)
    ensures Symbols(os + more) == Symbols(os) + Symbols(more)
  {
    assert forall i :: 0 <= i < |os + more| ==> Symbols(os + more)[i] == (Symbols(os) + Symbols(more))[i];
  }

  /**
   * The symbols the older copy records: its second condition is a separate `if`
   * whose `else` also fires after a Banker win, so that win records "B"
   * and then "D".
   */
  function LegacySymbols(o: Outcome): (syms: seq<string>)
    ensures |syms| == if o.BankerWins? then 2 else 1
    ensures forall i :: 0 <= i < |syms| ==> IsSymbol(syms[i])
    ensures syms[0] == Symbol(o)
    ensures o.BankerWins? ==> syms[1] == "D"
  {
    var first := if o.BankerWins? then ["B"] else [];
    first + (if o.PlayerWins? then ["P"] else ["D"])
  }

  /**
   * The symbols the current engine appends for an outcome text: "B" when it
   * contains "Banker wins", then "P" when it contains "Player wins", else
   * "D" when it contains "Draw".
   */
  function CurrentEntries(result: string): (entries: seq<string>)
    ensures |entries| <= 2
    ensures forall i :: 0 <= i < |entries| ==> IsSymbol(entries[i])
  {
    (if Contains(result, "Banker wins") then ["B"] else [])
    + (if Contains(result, "Player wins") then ["P"] else if Contains(result, "Draw") then ["D"] else [])
  }

  /**
   * The symbols the older copy appends: the same first condition, then "P" when
   * the text contains "Player wins" and "D" otherwise.
   */
  function LegacyEntries(result: string): (entries: seq<string>)
    ensures 1 <= |entries| <= 2
    ensures forall i :: 0 <= i < |entries| ==> IsSymbol(entries[i])
    ensures entries[|entries| - 1] == "P" || entries[|entries| - 1] == "D"
  {
    (if Contains(result, "Banker wins") then ["B"] else [])
    + (if Contains(result, "Player wins") then ["P"] else ["D"])
  }

  /** Each phrase the server looks for occurs in an outcome text exactly for its outcome. */
  lemma OutcomeTextContains(o: Outcome)
    ensures Contains(OutcomeText(o), "Banker wins") <==> o.BankerWins?
    ensures Contains(OutcomeText(o), "Player wins") <==> o.PlayerWins?
    ensures Contains(OutcomeText(o), "Draw") <==> o.Draw?
    ensures Contains(OutcomeText(o), "wins") <==> !o.Draw?
  {
    match o
    case Draw =>
      DrawText();
    case PlayerWins(p) =>
      IntToStringChars(p);
      WinTextContains("Player wins", "Banker wins", IntToString(p));
      assert "Player wins with " == "Player wins" + " with ";
    case BankerWins(p) =>
      IntToStringChars(p);
      WinTextContains("Banker wins", "Player wins", IntToString(p));
      assert "Banker wins with " == "Banker wins" + " with ";
  }

  lemma DrawText()
    ensures Contains("Draw", "Draw") && !Contains("Draw", "wins")
    ensures !Contains("Draw", "Banker wins") && !Contains("Draw", "Player wins")
  {
    assert !Contains("raw", "wins");
    ContainsPrefix("Draw", "");
    assert "Draw" + "" == "Draw";
  }

  /** A win text contains its own phrase and "wins", and neither the other side's phrase nor "Draw". */
  lemma WinTextContains(phrase: string, other: string, digits: string)
    requires (phrase, other) == ("Player wins", "Banker wins") || (phrase, other) == ("Banker wins", "Player wins")
    requires forall i :: 0 <= i < |digits| ==> IsDigit(digits[i]) || digits[i] == '-'
    ensures var text := phrase + " with " + digits + " points.";
      Contains(text, phrase) && Contains(text, "wins") && !Contains(text, other) && !Contains(text, "Draw")
  {
    var rest := " with " + digits + " points.";
    assert phrase + " with " + digits + " points." == phrase + rest;
    NoCapitals(digits, other[0]);
    NoCapitals(digits, 'D');
    PhraseAndWins(phrase, rest);
    LacksOthers(phrase, other, rest);
  }

  lemma PhraseAndWins(phrase: string, rest: string)
    requires phrase == "Player wins" || phrase == "Banker wins"
    ensures Contains(phrase + rest, phrase) && Contains(phrase + rest, "wins")
  {
    ContainsPrefix(phrase, rest);
    var head := phrase[..7];
    assert phrase == head + "wins";
    assert phrase + rest == head + ("wins" + rest);
    assert 'w' !in head;
    ContainsSkip(head, "wins" + rest, "wins");
    ContainsPrefix("wins", rest);
  }

  lemma LacksOthers(phrase: string, other: string, rest: string)
    requires (phrase, other) == ("Player wins", "Banker wins") || (phrase, other) == ("Banker wins", "Player wins")
    requires other[0] !in rest && 'D' !in rest
    ensures !Contains(phrase + rest, other) && !Contains(phrase + rest, "Draw")
  {
    assert other[0] !in phrase && 'D' !in phrase;
    ContainsSkip(phrase, rest, other);
    ContainsFirstChar(rest, other);
    ContainsSkip(phrase, rest, "Draw");
    ContainsFirstChar(rest, "Draw");
  }

  /** The part of a win text after the phrase holds no 'B', 'P' or 'D'. */
  lemma NoCapitals(digits: string, c: char)
    requires c == 'B' || c == 'P' || c == 'D'
    requires forall i :: 0 <= i < |digits| ==> IsDigit(digits[i]) || digits[i] == '-'
    ensures c !in " with " + digits + " points."
  {
    var s := " with " + digits + " points.";
    forall i | 0 <= i < |s|
      ensures s[i] != c
    {
      if i < 6 {
        assert s[i] == " with "[i];
      } else if i < 6 + |digits| {
        assert s[i] == digits[i - 6];
      } else {
        assert s[i] == " points."[i - 6 - |digits|];
      }
    }
  }

  /** The current engine records exactly the outcome's symbol. */
  lemma CurrentEntriesRecordSymbol(o: Outcome)
    ensures CurrentEntries(OutcomeText(o)) == [Symbol(o)]
  {
    OutcomeTextContains(o);
  }

  /** The older copy records `LegacySymbols`: "B" then "D" after a Banker win. */
  lemma LegacyEntriesOfOutcome(o: Outcome)
    ensures LegacyEntries(OutcomeText(o)) == LegacySymbols(o)
  {
    OutcomeTextContains(o);
  }
}
