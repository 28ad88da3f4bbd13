/** The generator's files read back by the task runner: what
    behavior/makeNbackStim.py writes (lines 56-73), python/nback.py reads
    (lines 46-58) and scores (lines 198-220). */
module StimRoundTrip {
  import opened Text
  import opened Wrappers
  import opened Scoring
  import opened StimGen
  import opened Session

  /** The letters of a block with the case each was written in. */
  function WrittenLetters(block: string, coins: seq<bool>): (letters: string)
    requires |coins| == |block|
    ensures |letters| == |block|
    ensures LowerStr(letters) == LowerStr(block)
  {
    seq(|block|, k requires 0 <= k < |block| => WrittenLetter(block[k], coins[k]))
  }

  lemma CommaPair(w: char)
    requires w != ','
    ensures RemoveCommas([w, ',']) == [w]
  {
    assert [w, ','][1..] == [','];
    assert [','][1..] == [];
  }

  lemma {:induction false} CommasDropFromCells(block: string, coins: seq<bool>)
    requires |coins| == |block|
    requires ',' !in block
    ensures RemoveCommas(WriteCells(block, coins)) == WrittenLetters(block, coins)
    decreases |block|
  {
    if block != [] {
      var w := WrittenLetter(block[0], coins[0]);
      assert block[0] in block;
      var rest := WriteCells(block[1..], coins[1..]);
      calc {
        RemoveCommas(WriteCells(block, coins));
        RemoveCommas([w, ','] + rest);
        { RemoveCommasAppend([w, ','], rest); }
        RemoveCommas([w, ',']) + RemoveCommas(rest);
        { CommaPair(w); }
        [w] + RemoveCommas(rest);
        { CommasDropFromCells(block[1..], coins[1..]); }
        [w] + WrittenLetters(block[1..], coins[1..]);
        WrittenLetters(block, coins);
      }
    }
  }

  /** Parsing a written line gives back the block's letters, each in the case
      it was written in. */
  lemma ParseWrittenLine(block: string, coins: seq<bool>)
    requires |coins| == |block|
    requires ',' !in block
    ensures ParseLine(WriteLine(block, coins)) == WrittenLetters(block, coins)
    ensures LowerStr(ParseLine(WriteLine(block, coins))) == LowerStr(block)
  {
    var cells := WriteCells(block, coins);
    var line := WriteLine(block, coins);
    assert line == cells + "\n";
    assert line[..|cells|] == cells;
    assert RStrip(line) == RStrip(cells);
    if cells != [] {
      WriteCellsAt(block, coins);
      assert cells[|cells| - 1] == cells[2 * (|block| - 1) + 1] == ',';
    }
    assert RStrip(cells) == cells;
    CommasDropFromCells(block, coins);
  }

  /** A block made of lower-case letters. */
  predicate IsLowerBlock(block: string)
  {
    forall k :: 0 <= k < |block| ==> IsLowerLetter(block[k])
  }

  lemma LowerBlockIsPlain(block: string)
    requires IsLowerBlock(block)
    ensures ',' !in block && '\n' !in block
  {
  }

  predicate CoinsFit(blocks: seq<string>, coins: seq<seq<bool>>)
  {
    |coins| == |blocks| && forall k :: 0 <= k < |blocks| ==> |coins[k]| == |blocks[k]|
  }

  /** `readlines` on a written file gives back the written lines. */
  lemma ReadWrittenFile(blocks: seq<string>, coins: seq<seq<bool>>)
    requires CoinsFit(blocks, coins)
    requires forall k :: 0 <= k < |blocks| ==> IsLowerBlock(blocks[k])
    ensures ReadLines(WriteFile(blocks, coins)) == WriteLines(blocks, coins)
  {
    var lines := WriteLines(blocks, coins);
    forall k | 0 <= k < |lines|
      ensures IsClosedLine(lines[k])
    {
      LowerBlockIsPlain(blocks[k]);
    }
    ReadLinesOfJoin(lines);
  }

  /** Reading the file a block kind was written to yields one line per
      block, which parses back to that block up to letter case. */
  lemma ReadBackBlocks(blocks: seq<string>, coins: seq<seq<bool>>)
    requires CoinsFit(blocks, coins)
    requires forall k :: 0 <= k < |blocks| ==> IsLowerBlock(blocks[k])
    ensures var lines := ReadLines(WriteFile(blocks, coins));
      |lines| == |blocks| && forall k :: 0 <= k < |blocks| ==> LowerStr(ParseLine(lines[k])) == blocks[k]
  {
    ReadWrittenFile(blocks, coins);
    var lines := ReadLines(WriteFile(blocks, coins));
    forall k | 0 <= k < |blocks|
      ensures LowerStr(ParseLine(lines[k])) == blocks[k]
    {
      LowerBlockIsPlain(blocks[k]);
      ParseWrittenLine(blocks[k], coins[k]);
      assert LowerStr(blocks[k]) == blocks[k];
    }
  }

  /** The two generated files, loaded by the task runner, give back every
      block in file order, up to letter case: the 1-back file's blocks first,
      then the 2-back file's. */
  lemma GeneratedStimuliLoad(oneBack: seq<string>, coins1: seq<seq<bool>>,
                             twoBack: seq<string>, coins2: seq<seq<bool>>)
    requires |oneBack| == NumOneBackBlocks
    requires CoinsFit(oneBack, coins1) && CoinsFit(twoBack, coins2)
    requires forall k :: 0 <= k < |oneBack| ==> IsLowerBlock(oneBack[k])
    requires forall k :: 0 <= k < |twoBack| ==> IsLowerBlock(twoBack[k])
    ensures var stims := LoadStimuli(ReadLines(WriteFile(oneBack, coins1)), ReadLines(WriteFile(twoBack, coins2)));
      && |stims| == |oneBack| + |twoBack|
      && (forall b :: 0 <= b < |oneBack| ==> LowerStr(stims[b]) == oneBack[b])
      && (forall i :: 0 <= i < |twoBack| ==> LowerStr(stims[|oneBack| + i]) == twoBack[i])
  {
    var lines1 := ReadLines(WriteFile(oneBack, coins1));
    var lines2 := ReadLines(WriteFile(twoBack, coins2));
    ReadBackBlocks(oneBack, coins1);
    ReadBackBlocks(twoBack, coins2);
    LoadFirstUpToCase(lines1, lines2, oneBack);
    LoadSecondUpToCase(lines1, lines2, oneBack, twoBack);
  }

  /** Loading lines that each parse to a block up to case gives those blocks
      in file order: the 1-back file's first, ... */
  lemma LoadFirstUpToCase(lines1: seq<string>, lines2: seq<string>, oneBack: seq<string>)
    requires |lines1| == |oneBack|
    requires forall k :: 0 <= k < |oneBack| ==> LowerStr(ParseLine(lines1[k])) == oneBack[k]
    ensures forall b :: 0 <= b < |oneBack| ==> LowerStr(LoadStimuli(lines1, lines2)[b]) == oneBack[b]
  {
  }

  /** ... then the 2-back file's. */
  lemma LoadSecondUpToCase(lines1: seq<string>, lines2: seq<string>, oneBack: seq<string>, twoBack: seq<string>)
    requires |lines1| == |oneBack| && |lines2| == |twoBack|
    requires forall k :: 0 <= k < |twoBack| ==> LowerStr(ParseLine(lines2[k])) == twoBack[k]
    ensures forall i :: 0 <= i < |twoBack| ==> LowerStr(LoadStimuli(lines1, lines2)[|oneBack| + i]) == twoBack[i]
  {
  }

  /** Block `b` of the stimulus list as the generator made it. */
  function GeneratedBlock(oneBack: seq<string>, twoBack: seq<string>, b: nat): string
    requires b < |oneBack| + |twoBack|
  {
    if b < |oneBack| then oneBack[b] else twoBack[b - |oneBack|]
  }

  /** Every trial of a loaded block scores as it would on the generated
      lower-case letters, whichever case the coins chose. */
  lemma LoadedBlocksScoreAsGenerated(oneBack: seq<string>, coins1: seq<seq<bool>>,
                                     twoBack: seq<string>, coins2: seq<seq<bool>>,
                                     rule: Rule, b: nat, trial: nat, button: Option<char>)
    requires |oneBack| == NumOneBackBlocks
    requires CoinsFit(oneBack, coins1) && CoinsFit(twoBack, coins2)
    requires forall k :: 0 <= k < |oneBack| ==> IsLowerBlock(oneBack[k])
    requires forall k :: 0 <= k < |twoBack| ==> IsLowerBlock(twoBack[k])
    requires b < |oneBack| + |twoBack| && trial < |GeneratedBlock(oneBack, twoBack, b)|
    ensures var stims := LoadStimuli(ReadLines(WriteFile(oneBack, coins1)), ReadLines(WriteFile(twoBack, coins2)));
      && b < |stims| && trial < |stims[b]|
      && Score(rule, Condition(b), trial, stims[b], button) == Score(rule, Condition(b), trial, GeneratedBlock(oneBack, twoBack, b), button)
    ensures Condition(b) == (if b < |oneBack| then 1 else 2)
  {
    var stims := LoadStimuli(ReadLines(WriteFile(oneBack, coins1)), ReadLines(WriteFile(twoBack, coins2)));
    GeneratedStimuliLoad(oneBack, coins1, twoBack, coins2);
    ScoreAsBlockUpToCase(oneBack, twoBack, stims, rule, b, trial, button);
  }

  /** A stimulus list that matches the generated blocks up to case scores
      every trial as the generated blocks do. */
  lemma ScoreAsBlockUpToCase(oneBack: seq<string>, twoBack: seq<string>,
                             stims: seq<string>, rule: Rule, b: nat, trial: nat, button: Option<char>)
    requires forall k :: 0 <= k < |oneBack| ==> IsLowerBlock(oneBack[k])
    requires forall k :: 0 <= k < |twoBack| ==> IsLowerBlock(twoBack[k])
    requires |stims| == |oneBack| + |twoBack|
    requires forall k :: 0 <= k < |oneBack| ==> LowerStr(stims[k]) == oneBack[k]
    requires forall i :: 0 <= i < |twoBack| ==> LowerStr(stims[|oneBack| + i]) == twoBack[i]
    requires b < |stims| && trial < |GeneratedBlock(oneBack, twoBack, b)|
    ensures trial < |stims[b]|
    ensures Score(rule, Condition(b), trial, stims[b], button) == Score(rule, Condition(b), trial, GeneratedBlock(oneBack, twoBack, b), button)
  {
    var block := GeneratedBlock(oneBack, twoBack, b);
    assert LowerStr(stims[b]) == block && IsLowerBlock(block) by {
      if b >= |oneBack| {
        assert stims[|oneBack| + (b - |oneBack|)] == stims[b];
      }
    }
    LowerBlockIsPlain(block);
    ScoreIgnoresCase(rule, Condition(b), trial, block, stims[b], button);
  }

  /** A generated block is lower-case, so it meets what the round-trip
      lemmas above ask of the blocks written. */
  lemma GeneratedBlockIsLower(d: BlockDraw, lag: nat)
    requires lag == 1 || lag == 2
    requires ValidDraw(d, lag)
    ensures IsLowerBlock(MakeBlock(d, lag))
  {
    var block := MakeBlock(d, lag);
    BlockLetters(d, lag);
    ConsonantsAreLower();
    forall p | 0 <= p < |block|
      ensures IsLowerLetter(block[p])
    {
      var k :| 0 <= k < |Consonants| && Consonants[k] == block[p];
    }
  }

  /** Every planted target is a target in the instructions' sense, with the
      block's lag as its condition. */
  lemma PlantedTargetsAreTargets(d: BlockDraw, lag: nat)
    requires lag == 1 || lag == 2
    requires ValidDraw(d, lag)
    ensures var block := MakeBlock(d, lag);
      forall i :: 0 <= i < |d.targets| ==> d.targets[i] + lag < |block| && IsTarget(lag, d.targets[i] + lag, block)
  {
    BlockProperties(d, lag);
  }
}
