/**
 * The game history: each deal records outcome symbols in an in-memory
 * buffer, and a full buffer of six is written as one comma-separated line
 * to the shared history file and cleared. The file is modelled as the
 * sequence of its lines.
 */
module History {
  import opened Text
  import opened Scoring

  /** The buffer and the lines of the history file. */
  datatype Journal = Journal(buffer: seq<string>, lines: seq<string>)

  /** A history line that reads back as exactly six outcome symbols. */
  predicate SymbolLine(line: string) {
    var fields := JavaSplit(line, ',');
    |fields| == 6 && forall i :: 0 <= i < 6 ==> IsSymbol(fields[i])
  }

  /** `String.join(",", entries)`: one line of the history file. */
  function CsvLine(entries: seq<string>): string {
    JoinWith(entries, ',')
  }

  function CsvLines(batches: seq<seq<string>>): (lines: seq<string>)
    ensures |lines| == |batches|
    ensures forall i :: 0 <= i < |batches| ==> lines[i] == CsvLine(batches[i])
  {
    if |batches| == 0 then [] else CsvLines(batches[..|batches| - 1]) + [CsvLine(batches[|batches| - 1])]
  }

  /** The consecutive groups of six entries, oldest first; a trailing partial group is not one. */
  function Batches(entries: seq<string>): seq<seq<string>>
  {
    if |entries| < 6 then [] else [entries[..6]] + Batches(entries[6..])
  }

  /** The entries after the last complete group of six. */
  function Leftover(entries: seq<string>): seq<string>
  {
    if |entries| < 6 then entries else Leftover(entries[6..])
  }

  function Flatten(batches: seq<seq<string>>): seq<string> {
    if |batches| == 0 then [] else batches[0] + Flatten(batches[1..])
  }

  /**
   * The current engine's step after a deal: append the recorded symbols,
   * and when the buffer then holds exactly six, write it (if non-empty)
   * as one line and clear it.
   */
  function CurrentStep(j: Journal, entries: seq<string>): (r: Journal)
    ensures j.lines <= r.lines && |r.lines| <= |j.lines| + 1
    ensures |r.lines| == |j.lines| + 1 ==> |j.buffer + entries| == 6 && r.lines[|j.lines|] == CsvLine(j.buffer + entries)
    ensures |j.buffer| + |entries| <= 6 ==> |r.buffer| < 6
  {
    var buffer := j.buffer + entries;
    if |buffer| == 6 then
      Journal([], if |buffer| > 0 then j.lines + [CsvLine(buffer)] else j.lines)
    else Journal(buffer, j.lines)
  }

  /**
   * The older copy's step: the symbols are appended by the deal, and the
   * check for exactly six runs after the command; the line is written
   * without the emptiness guard.
   */
  function LegacyStep(j: Journal, entries: seq<string>): (r: Journal)
    ensures j.lines <= r.lines && |r.lines| <= |j.lines| + 1
    ensures |r.lines| == |j.lines| + 1 ==> |j.buffer + entries| == 6 && r.lines[|j.lines|] == CsvLine(j.buffer + entries)
    ensures |r.buffer| != 6
  {
    var buffer := j.buffer + entries;
    if |buffer| == 6 then Journal([], j.lines + [CsvLine(buffer)]) else Journal(buffer, j.lines)
  }

  // ---------------------------------------------------------------------
  // Properties of the batching

  /** The leftover is shorter than a batch; its length is the entry count modulo 6. */
  lemma {:induction false} LeftoverLength(entries: seq<string>)
    ensures |Leftover(entries)| == |entries| % 6
    ensures |Batches(entries)| == |entries| / 6
  {
    if |entries| >= 6 {
      LeftoverLength(entries[6..]);
    }
  }

  /** The batches, in order, followed by the leftover are exactly the entries; each batch has six. */
  lemma {:induction false} BatchesCover(entries: seq<string>)
    ensures Flatten(Batches(entries)) + Leftover(entries) == entries
    ensures forall i :: 0 <= i < |Batches(entries)| ==> |Batches(entries)[i]| == 6
  {
    if |entries| >= 6 {
      BatchesCover(entries[6..]);
      var b := Batches(entries);
      assert b[1..] == Batches(entries[6..]);
      assert entries == entries[..6] + entries[6..];
    }
  }

  /**
   * Recording one more symbol: the leftover grows by it, unless that
   * completes a group of six, which becomes the newest batch.
   */
  lemma {:induction false} RecordOne(entries: seq<string>, s: string)
    ensures var left := Leftover(entries) + [s];
      && (|left| == 6 ==> Leftover(entries + [s]) == [] && Batches(entries + [s]) == Batches(entries) + [left])
      && (|left| < 6 ==> Leftover(entries + [s]) == left && Batches(entries + [s]) == Batches(entries))
  {
    LeftoverLength(entries);
    if |entries| >= 6 {
      assert (entries + [s])[6..] == entries[6..] + [s];
      assert (entries + [s])[..6] == entries[..6];
      RecordOne(entries[6..], s);
    } else if |entries| == 5 {
      assert (entries + [s])[6..] == [];
      assert (entries + [s])[..6] == entries + [s];
    }
  }

  /**
   * The current engine keeps the buffer equal to the leftover of everything
   * recorded and the file equal to its lines before, plus one line per
   * complete batch: recording one symbol preserves that.
   */
  lemma CurrentStepRecords(j: Journal, before: seq<string>, entries: seq<string>, s: string)
    requires j.buffer == Leftover(entries) && j.lines == before + CsvLines(Batches(entries))
    ensures CurrentStep(j, [s]) == Journal(Leftover(entries + [s]), before + CsvLines(Batches(entries + [s])))
  {
    RecordOne(entries, s);
    LeftoverLength(entries);
    var left := Leftover(entries) + [s];
    if |left| == 6 {
      assert CsvLines(Batches(entries) + [left]) == CsvLines(Batches(entries)) + [CsvLine(left)];
    }
  }

  /** A line made from symbols reads back, with Java's split on ',', as the symbols. */
  lemma CsvLineRoundTrip(entries: seq<string>)
    requires |entries| >= 1
    requires forall i :: 0 <= i < |entries| ==> IsSymbol(entries[i])
    ensures JavaSplit(CsvLine(entries), ',') == entries
  {
    JavaSplitJoin(entries, ',');
  }

  /** The i-th batch is the i-th run of six entries. */
  lemma {:induction false} BatchAt(entries: seq<string>, i: nat)
    requires i < |Batches(entries)|
    ensures 6 * i + 6 <= |entries| && Batches(entries)[i] == entries[6 * i..6 * i + 6]
  {
    if i > 0 {
      BatchAt(entries[6..], i - 1);
      assert entries[6..][6 * (i - 1)..6 * (i - 1) + 6] == entries[6 * i..6 * i + 6];
    }
  }

  /** Every line written for batches of symbols reads back as exactly those six symbols. */
  lemma BatchLinesRead(entries: seq<string>)
    requires forall i :: 0 <= i < |entries| ==> IsSymbol(entries[i])
    ensures forall i :: 0 <= i < |Batches(entries)| ==> JavaSplit(CsvLines(Batches(entries))[i], ',') == Batches(entries)[i]
    ensures forall i :: 0 <= i < |Batches(entries)| ==> |Batches(entries)[i]| == 6
  {
    forall i | 0 <= i < |Batches(entries)|
      ensures JavaSplit(CsvLines(Batches(entries))[i], ',') == Batches(entries)[i]
      ensures |Batches(entries)[i]| == 6
    {
      BatchAt(entries, i);
      CsvLineRoundTrip(Batches(entries)[i]);
    }
  }

  // ---------------------------------------------------------------------
  // The older copy

  /** The older copy's history after a sequence of deal outcomes. */
  function LegacyReplay(j: Journal, outcomes: seq<Outcome>): (r: Journal)
    ensures j.lines <= r.lines
  {
    if |outcomes| == 0 then j
    else LegacyStep(LegacyReplay(j, outcomes[..|outcomes| - 1]), LegacySymbols(outcomes[|outcomes| - 1]))
  }

  /** One more deal outcome is one more step of the older copy. */
  lemma LegacyReplayStep(j: Journal, outcomes: seq<Outcome>, o: Outcome)
    ensures LegacyReplay(j, outcomes + [o]) == LegacyStep(LegacyReplay(j, outcomes), LegacySymbols(o))
  {
    assert (outcomes + [o])[..|outcomes|] == outcomes;
  }

  /** Starting from a buffer that is not exactly six long, the older copy's buffer never is after a step. */
  lemma {:induction false} LegacyReplayNotSix(j: Journal, outcomes: seq<Outcome>)
    requires |j.buffer| != 6
    ensures |LegacyReplay(j, outcomes).buffer| != 6
    ensures LegacyStep(LegacyReplay(j, outcomes), []) == LegacyReplay(j, outcomes)
  {
    if |outcomes| > 0 {
      LegacyReplayNotSix(j, outcomes[..|outcomes| - 1]);
    }
    var k := LegacyReplay(j, outcomes);
    assert k.buffer + [] == k.buffer;
  }

  /**
   * Every line the older copy writes holds exactly six symbols: it writes
   * only a buffer of exactly six, so its defect loses lines rather than
   * writing longer ones.
   */
  lemma {:induction false} LegacyLinesRead(j: Journal, outcomes: seq<Outcome>)
    requires forall i :: 0 <= i < |j.buffer| ==> IsSymbol(j.buffer[i])
    requires forall i :: 0 <= i < |j.lines| ==> SymbolLine(j.lines[i])
    ensures forall i :: 0 <= i < |LegacyReplay(j, outcomes).buffer| ==> IsSymbol(LegacyReplay(j, outcomes).buffer[i])
    ensures forall i :: 0 <= i < |LegacyReplay(j, outcomes).lines| ==> SymbolLine(LegacyReplay(j, outcomes).lines[i])
  {
    if |outcomes| > 0 {
      var prefix := outcomes[..|outcomes| - 1];
      LegacyLinesRead(j, prefix);
      var prev := LegacyReplay(j, prefix);
      var syms := LegacySymbols(outcomes[|outcomes| - 1]);
      var buffer := prev.buffer + syms;
      assert LegacyReplay(j, outcomes) == LegacyStep(prev, syms);
      forall i | 0 <= i < |buffer|
        ensures IsSymbol(buffer[i])
      {
        if i < |prev.buffer| {
          assert buffer[i] == prev.buffer[i];
        } else {
          assert buffer[i] == syms[i - |prev.buffer|];
        }
      }
      if |buffer| == 6 {
        CsvLineRoundTrip(buffer);
        assert SymbolLine(CsvLine(buffer));
        assert LegacyReplay(j, outcomes).lines == prev.lines + [CsvLine(buffer)];
      } else {
        assert LegacyReplay(j, outcomes).lines == prev.lines;
      }
    }
  }

  /**
   * Once the older copy's buffer holds more than six symbols (a Banker win
   * that takes it from five to seven), no later deal writes another line
   * and the buffer only grows.
   */
  lemma {:induction false} LegacyOverflowSticks(j: Journal, outcomes: seq<Outcome>)
    requires |j.buffer| > 6
    ensures LegacyReplay(j, outcomes).lines == j.lines
    ensures |LegacyReplay(j, outcomes).buffer| >= |j.buffer| + |outcomes|
  {
    if |outcomes| > 0 {
      LegacyOverflowSticks(j, outcomes[..|outcomes| - 1]);
    }
  }

  /** Five Player wins and then a Banker win leave seven symbols and no line in the older copy. */
  lemma LegacyBankerOverflow()
    ensures var outcomes := [PlayerWins(1), PlayerWins(1), PlayerWins(1), PlayerWins(1), PlayerWins(1), BankerWins(1)];
      && LegacyReplay(Journal([], []), outcomes) == Journal(["P", "P", "P", "P", "P", "B", "D"], [])
      && CurrentStep(Journal(["P", "P", "P", "P", "P"], []), [Symbol(BankerWins(1))])
         == Journal([], [CsvLine(["P", "P", "P", "P", "P", "B"])])
  {
    var outcomes := [PlayerWins(1), PlayerWins(1), PlayerWins(1), PlayerWins(1), PlayerWins(1), BankerWins(1)];
    var start := Journal([], []);
    assert outcomes[..0] == [];
    var k := 0;
    while k < 5
      invariant 0 <= k <= 5
      invariant LegacyReplay(start, outcomes[..k]) == Journal(seq(k, _ => "P"), [])
    {
      assert outcomes[..k + 1][..k] == outcomes[..k];
      assert seq(k, _ => "P") + ["P"] == seq(k + 1, _ => "P");
      k := k + 1;
    }
    assert outcomes[..6][..5] == outcomes[..5];
    assert outcomes[..6] == outcomes;
    assert seq(5, _ => "P") + ["B", "D"] == ["P", "P", "P", "P", "P", "B", "D"];
    assert ["P", "P", "P", "P", "P"] + ["B"] == ["P", "P", "P", "P", "P", "B"];
  }
}
