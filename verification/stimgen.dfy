/** Generation of the n-back stimulus blocks and their CSV lines
    (behavior/makeNbackStim.py). Every random outcome is an input: the
    permutation of the alphabet, the extra letters, the target positions and
    the case coins. */
module StimGen {
  import opened Seqs
  import opened Text

  /** Parameters of the generator (lines 18-23). */
  const NumStim: nat := 25
  const NumTargets: nat := 8
  const NumOneBackBlocks: nat := 4
  const NumTwoBackBlocks: nat := 4
  const Consonants: string := "bcdfghklmnpqrstvwxyz"
  /** `len(consonants)`. */
  const AlphabetSize: nat := 20

  lemma ConsonantsDistinct()
    ensures |Consonants| == AlphabetSize
    ensures Distinct(Consonants)
    ensures |Elements(Consonants)| == |Consonants|
  {
    assert forall k :: 0 <= k < |Consonants| - 1 ==> Consonants[k] < Consonants[k + 1] by {
      assert Consonants == ['b', 'c', 'd', 'f', 'g', 'h', 'k', 'l', 'm', 'n',
                            'p', 'q', 'r', 's', 't', 'v', 'w', 'x', 'y', 'z'];
    }
    RisingIsDistinct(Consonants);
    DistinctCount(Consonants);
  }

  /** The alphabet is lower-case. */
  lemma ConsonantsAreLower()
    ensures forall k :: 0 <= k < |Consonants| ==> IsLowerLetter(Consonants[k])
  {
    assert Consonants == ['b', 'c', 'd', 'f', 'g', 'h', 'k', 'l', 'm', 'n',
                          'p', 'q', 'r', 's', 't', 'v', 'w', 'x', 'y', 'z'];
  }

  /** The random outcomes behind one block: `random.sample(consonants, 20)`,
      `random.sample(consonants, 5)` and the target positions. */
  datatype BlockDraw = BlockDraw(perm: string, extra: string, targets: seq<nat>)

  /** What the calls to `random.sample` can return for a block of lag `lag`
      (lines 30-33 and 45-48). */
  predicate ValidDraw(d: BlockDraw, lag: nat)
    requires lag <= NumStim
  {
    && IsSample(d.perm, Elements(Consonants), |Consonants|)
    && IsSample(d.extra, Elements(Consonants), NumStim - |Consonants|)
    && IsSample(d.targets, Range(NumStim - lag), NumTargets)
  }

  /** The sizes the draws of a block have, with room after every target
      position for its repeat. This is all building a block needs. */
  predicate DrawFits(d: BlockDraw, lag: nat)
  {
    && |d.perm| == AlphabetSize
    && |d.extra| == NumStim - AlphabetSize
    && forall i :: 0 <= i < |d.targets| ==> d.targets[i] + lag < NumStim
  }

  lemma ValidDrawFits(d: BlockDraw, lag: nat)
    requires lag <= NumStim && ValidDraw(d, lag)
    ensures DrawFits(d, lag) && Distinct(d.targets)
  {
  }

  /** Lines 30-31: the alphabet in random order, then a few more of its letters. */
  function DrawLetters(d: BlockDraw): (letters: string)
    requires |d.perm| == AlphabetSize && |d.extra| == NumStim - AlphabetSize
    ensures |letters| == NumStim
    ensures letters[..AlphabetSize] == d.perm && letters[AlphabetSize..] == d.extra
  {
    d.perm + d.extra
  }

  /** Every drawn letter is a consonant, and before any target is planted
      the first twenty letters are the whole alphabet, each once. */
  lemma DrawnAlphabet(d: BlockDraw)
    requires IsSample(d.perm, Elements(Consonants), |Consonants|)
    requires IsSample(d.extra, Elements(Consonants), NumStim - |Consonants|)
    ensures forall p :: 0 <= p < |DrawLetters(d)| ==> DrawLetters(d)[p] in Consonants
    ensures Distinct(DrawLetters(d)[..|Consonants|])
    ensures Elements(DrawLetters(d)[..|Consonants|]) == Elements(Consonants)
  {
    ConsonantsDistinct();
    FullSampleCovers(d.perm, Elements(Consonants));
    assert DrawLetters(d)[..|Consonants|] == d.perm;
  }

  predicate Sorted(s: seq<nat>)
  {
    forall i, j :: 0 <= i < j < |s| ==> s[i] <= s[j]
  }

  predicate Ascending(s: seq<nat>)
  {
    forall i, j :: 0 <= i < j < |s| ==> s[i] < s[j]
  }

  /** Every element of `rest` is `x` or an element of `s` after its head. */
  lemma HeadBelowRest(x: nat, s: seq<nat>, rest: seq<nat>)
    requires s != [] && Sorted(s) && s[0] < x
    requires multiset(rest) == multiset(s[1..]) + multiset{x}
    ensures forall k :: 0 <= k < |rest| ==> s[0] <= rest[k]
    ensures Ascending(s) ==> forall k :: 0 <= k < |rest| ==> s[0] < rest[k]
  {
    forall k | 0 <= k < |rest|
      ensures rest[k] == x || rest[k] in s[1..]
    {
      assert rest[k] in multiset(rest);
    }
  }

  function Insert(x: nat, s: seq<nat>): (r: seq<nat>)
    requires Sorted(s)
    ensures Sorted(r)
    ensures multiset(r) == multiset(s) + multiset{x}
    decreases |s|
  {
    if s == [] || x <= s[0] then [x] + s
    else
      var rest := Insert(x, s[1..]);
      assert s == [s[0]] + s[1..];
      HeadBelowRest(x, s, rest);
      ConsSorted(s[0], rest);
      [s[0]] + rest
  }

  lemma ConsSorted(h: nat, s: seq<nat>)
    requires Sorted(s) && forall k :: 0 <= k < |s| ==> h <= s[k]
    ensures Sorted([h] + s)
  {
  }

  lemma {:induction false} InsertAscending(x: nat, s: seq<nat>)
    requires Ascending(s) && x !in s
    ensures Ascending(Insert(x, s))
    decreases |s|
  {
    if s != [] && s[0] < x {
      var rest := Insert(x, s[1..]);
      InsertAscending(x, s[1..]);
      assert s == [s[0]] + s[1..];
      HeadBelowRest(x, s, rest);
    }
  }

  /** Line 34, `trgts.sort()`. */
  function SortTargets(ts: seq<nat>): (r: seq<nat>)
    ensures Sorted(r)
    ensures multiset(r) == multiset(ts)
    decreases |ts|
  {
    if ts == [] then []
    else
      assert ts == [ts[0]] + ts[1..];
      Insert(ts[0], SortTargets(ts[1..]))
  }

  /** Distinct target positions come out of the sort strictly ascending. */
  lemma {:induction false} SortAscending(ts: seq<nat>)
    requires Distinct(ts)
    ensures Ascending(SortTargets(ts))
    decreases |ts|
  {
    if ts != [] {
      assert ts == [ts[0]] + ts[1..];
      SortAscending(ts[1..]);
      assert ts[0] !in multiset(ts[1..]);
      InsertAscending(ts[0], SortTargets(ts[1..]));
    }
  }

  /** Lines 35-36 and 50-51: `letters[i+lag] = letters[i]` for each target in turn. */
  function Plant(letters: string, targets: seq<nat>, lag: nat): (r: string)
    requires forall i :: 0 <= i < |targets| ==> targets[i] + lag < |letters|
    ensures |r| == |letters|
    decreases |targets|
  {
    if targets == [] then letters
    else
      var i := targets[0];
      Plant(letters[i + lag := letters[i]], targets[1..], lag)
  }

  /** Planting only copies letters already in the block. */
  lemma {:induction false} PlantCopies(letters: string, targets: seq<nat>, lag: nat)
    requires forall i :: 0 <= i < |targets| ==> targets[i] + lag < |letters|
    ensures forall p :: 0 <= p < |letters| ==> Plant(letters, targets, lag)[p] in letters
    decreases |targets|
  {
    if targets != [] {
      var i := targets[0];
      var next := letters[i + lag := letters[i]];
      PlantCopies(next, targets[1..], lag);
      forall p | 0 <= p < |letters|
        ensures Plant(letters, targets, lag)[p] in letters
      {
        var c := Plant(next, targets[1..], lag)[p];
        var k :| 0 <= k < |next| && next[k] == c;
        assert next[k] in letters by {
          if k == i + lag {
            assert next[k] == letters[i];
          } else {
            assert next[k] == letters[k];
          }
        }
      }
    }
  }

  /** Nothing but the copied-to positions changes. */
  lemma {:induction false} PlantKeepsOthers(letters: string, targets: seq<nat>, lag: nat, p: nat)
    requires forall i :: 0 <= i < |targets| ==> targets[i] + lag < |letters|
    requires p < |letters|
    requires forall i :: 0 <= i < |targets| ==> targets[i] + lag != p
    ensures Plant(letters, targets, lag)[p] == letters[p]
    decreases |targets|
  {
    if targets != [] {
      var i := targets[0];
      PlantKeepsOthers(letters[i + lag := letters[i]], targets[1..], lag, p);
    }
  }

  /** With the targets in ascending order, every target's letter reappears
      `lag` places later in the finished block. */
  lemma {:induction false} PlantRepeatsTargets(letters: string, targets: seq<nat>, lag: nat)
    requires forall i :: 0 <= i < |targets| ==> targets[i] + lag < |letters|
    requires Ascending(targets)
    ensures var r := Plant(letters, targets, lag);
      forall i :: 0 <= i < |targets| ==> r[targets[i] + lag] == r[targets[i]]
    decreases |targets|
  {
    if targets != [] {
      var i := targets[0];
      var next := letters[i + lag := letters[i]];
      var later := targets[1..];
      var r := Plant(letters, targets, lag);
      assert r == Plant(next, later, lag);
      PlantRepeatsTargets(next, later, lag);
      forall j | 0 <= j < |later|
        ensures later[j] + lag != i && later[j] + lag != i + lag
      {
        assert later[j] == targets[j + 1] > i;
      }
      PlantKeepsOthers(next, later, lag, i);
      PlantKeepsOthers(next, later, lag, i + lag);
      forall j | 0 <= j < |targets|
        ensures r[targets[j] + lag] == r[targets[j]]
      {
        if j > 0 {
          assert targets[j] == later[j - 1];
        }
      }
    }
  }

  /** Planting in any other order can break a target: after copying position
      1 to 2 and then 0 to 1, position 2 no longer repeats position 1. */
  lemma UnsortedTargetsBreak()
    ensures var r := Plant("bcd", [1, 0], 1); r[2] != r[1]
  {
  }

  /** No target copies into position `p`. */
  predicate Untouched(targets: seq<nat>, lag: nat, p: nat)
  {
    forall i :: 0 <= i < |targets| ==> targets[i] + lag != p
  }

  lemma PlantKeepsUntouched(letters: string, targets: seq<nat>, lag: nat)
    requires forall i :: 0 <= i < |targets| ==> targets[i] + lag < |letters|
    ensures forall p: nat :: p < |letters| && Untouched(targets, lag, p) ==> Plant(letters, targets, lag)[p] == letters[p]
  {
    forall p: nat | p < |letters| && Untouched(targets, lag, p)
      ensures Plant(letters, targets, lag)[p] == letters[p]
    {
      PlantKeepsOthers(letters, targets, lag, p);
    }
  }

  /** Sorting keeps every target position below the same bound. */
  lemma SortedBelow(ts: seq<nat>, bound: nat)
    requires forall i :: 0 <= i < |ts| ==> ts[i] < bound
    ensures forall j :: 0 <= j < |SortTargets(ts)| ==> SortTargets(ts)[j] < bound
  {
    var sorted := SortTargets(ts);
    forall j | 0 <= j < |sorted|
      ensures sorted[j] < bound
    {
      assert sorted[j] in multiset(ts);
    }
  }

  /** Sorting neither adds nor drops a target position, so it leaves the
      same positions untouched. */
  lemma SortKeepsUntouched(ts: seq<nat>, lag: nat)
    ensures forall p: nat :: Untouched(ts, lag, p) <==> Untouched(SortTargets(ts), lag, p)
  {
    var sorted := SortTargets(ts);
    forall j | 0 <= j < |sorted|
      ensures sorted[j] in ts
    {
      assert sorted[j] in multiset(sorted);
    }
    forall i | 0 <= i < |ts|
      ensures ts[i] in sorted
    {
      assert ts[i] in multiset(ts);
    }
  }

  /** Lines 29-37 (1-back, lag 1) and 44-52 (2-back, lag 2): one block. */
  function MakeBlock(d: BlockDraw, lag: nat): (block: string)
    requires lag == 1 || lag == 2
    requires DrawFits(d, lag)
    ensures |block| == NumStim
  {
    SortedBelow(d.targets, NumStim - lag);
    Plant(DrawLetters(d), SortTargets(d.targets), lag)
  }

  /** Every letter of a generated block comes from the alphabet. */
  lemma BlockLetters(d: BlockDraw, lag: nat)
    requires lag == 1 || lag == 2
    requires ValidDraw(d, lag)
    ensures forall p :: 0 <= p < |MakeBlock(d, lag)| ==> MakeBlock(d, lag)[p] in Consonants
  {
    ValidDrawFits(d, lag);
    DrawnAlphabet(d);
    var letters := DrawLetters(d);
    var block := MakeBlock(d, lag);
    SortedBelow(d.targets, NumStim - lag);
    PlantCopies(letters, SortTargets(d.targets), lag);
    forall p | 0 <= p < |block|
      ensures block[p] in Consonants
    {
      assert block[p] in letters;
    }
  }

  /** Planting the targets in ascending order repeats every one of them. */
  lemma SortedPlantRepeats(letters: string, ts: seq<nat>, sorted: seq<nat>, lag: nat)
    requires Ascending(sorted) && multiset(sorted) == multiset(ts)
    requires forall j :: 0 <= j < |sorted| ==> sorted[j] + lag < |letters|
    ensures var r := Plant(letters, sorted, lag);
      forall i :: 0 <= i < |ts| ==> ts[i] + lag < |r| && r[ts[i] + lag] == r[ts[i]]
  {
    PlantRepeatsTargets(letters, sorted, lag);
    var r := Plant(letters, sorted, lag);
    forall i | 0 <= i < |ts|
      ensures ts[i] + lag < |r| && r[ts[i] + lag] == r[ts[i]]
    {
      var t := ts[i];
      assert t in multiset(sorted);
      var j :| 0 <= j < |sorted| && sorted[j] == t;
      var p := sorted[j];
      assert r[p + lag] == r[p];
      assert p == t;
    }
  }

  /** Each target's letter reappears `lag` places later in the generated block. */
  lemma BlockRepeats(d: BlockDraw, lag: nat)
    requires lag == 1 || lag == 2
    requires DrawFits(d, lag) && Distinct(d.targets)
    ensures forall i :: 0 <= i < |d.targets| ==>
      d.targets[i] + lag < |MakeBlock(d, lag)| && MakeBlock(d, lag)[d.targets[i] + lag] == MakeBlock(d, lag)[d.targets[i]]
  {
    SortedBelow(d.targets, NumStim - lag);
    SortAscending(d.targets);
    SortedPlantRepeats(DrawLetters(d), d.targets, SortTargets(d.targets), lag);
  }

  /** A position no target copies into keeps the letter drawn for it. */
  lemma BlockKeepsDrawn(d: BlockDraw, lag: nat)
    requires lag == 1 || lag == 2
    requires DrawFits(d, lag)
    ensures forall p: nat :: p < |MakeBlock(d, lag)| && Untouched(d.targets, lag, p) ==>
      MakeBlock(d, lag)[p] == DrawLetters(d)[p]
  {
    var letters := DrawLetters(d);
    var sorted := SortTargets(d.targets);
    SortedBelow(d.targets, NumStim - lag);
    SortKeepsUntouched(d.targets, lag);
    PlantKeepsUntouched(letters, sorted, lag);
    assert Plant(letters, sorted, lag) == MakeBlock(d, lag);
  }

  /** A generated block: 25 letters of the alphabet; each target's letter
      reappears `lag` places later; every position no target copies into
      keeps its drawn letter. */
  lemma BlockProperties(d: BlockDraw, lag: nat)
    requires lag == 1 || lag == 2
    requires ValidDraw(d, lag)
    ensures var block := MakeBlock(d, lag);
      && |block| == NumStim
      && (forall p :: 0 <= p < |block| ==> block[p] in Consonants)
      && (forall i :: 0 <= i < |d.targets| ==> d.targets[i] + lag < |block|)
      && (forall i :: 0 <= i < |d.targets| ==> block[d.targets[i] + lag] == block[d.targets[i]])
      && (forall p: nat :: p < |block| && Untouched(d.targets, lag, p) ==> block[p] == DrawLetters(d)[p])
  {
    ValidDrawFits(d, lag);
    BlockLetters(d, lag);
    BlockRepeats(d, lag);
    BlockKeepsDrawn(d, lag);
  }

  /** Lines 25-38 and 40-53: `numn1bs` blocks of one kind. Both loops run up
      to `numn1bs`, the 2-back one included; the two counts are equal. */
  method MakeBlocks(draws: seq<BlockDraw>, lag: nat) returns (blocks: seq<string>)
    requires lag == 1 || lag == 2
    requires |draws| == NumOneBackBlocks
    requires forall k :: 0 <= k < |draws| ==> DrawFits(draws[k], lag)
    ensures |blocks| == NumOneBackBlocks == NumTwoBackBlocks
    ensures forall k :: 0 <= k < |blocks| ==> blocks[k] == MakeBlock(draws[k], lag)
  {
    blocks := [];
    var blck := 1;
    while blck <= NumOneBackBlocks
      invariant 1 <= blck <= NumOneBackBlocks + 1
      invariant |blocks| == blck - 1
      invariant BuiltFrom(blocks, draws, lag)
    {
      var block := MakeBlock(draws[blck - 1], lag);
      BuiltFromAppend(blocks, draws, lag, block);
      blocks := blocks + [block];
      blck := blck + 1;
    }
  }

  /** `blocks` are the blocks of the first `|blocks|` draws, in order. */
  predicate BuiltFrom(blocks: seq<string>, draws: seq<BlockDraw>, lag: nat)
    requires lag == 1 || lag == 2
    requires forall k :: 0 <= k < |draws| ==> DrawFits(draws[k], lag)
  {
    && |blocks| <= |draws|
    && forall k :: 0 <= k < |blocks| ==> blocks[k] == MakeBlock(draws[k], lag)
  }

  /** One more pass of the loop: the next draw's block goes at the end. */
  lemma BuiltFromAppend(blocks: seq<string>, draws: seq<BlockDraw>, lag: nat, block: string)
    requires lag == 1 || lag == 2
    requires forall k :: 0 <= k < |draws| ==> DrawFits(draws[k], lag)
    requires BuiltFrom(blocks, draws, lag) && |blocks| < |draws|
    requires block == MakeBlock(draws[|blocks|], lag)
    ensures BuiltFrom(blocks + [block], draws, lag)
  {
  }

  /** Lines 59-61: a letter as written, upper-cased when its coin came up
      `>= .5`. */
  function WrittenLetter(c: char, upper: bool): (w: char)
    ensures Lower(w) == Lower(c)
  {
    LowerAfterUpper(c);
    if upper then Upper(c) else c
  }

  /** Lines 58-62: each letter followed by a comma. */
  function WriteCells(block: string, coins: seq<bool>): (cells: string)
    requires |coins| == |block|
    ensures |cells| == 2 * |block|
    decreases |block|
  {
    if block == [] then []
    else [WrittenLetter(block[0], coins[0]), ','] + WriteCells(block[1..], coins[1..])
  }

  /** The cells alternate the block's letters, each in its coin's case, with commas. */
  lemma {:induction false} WriteCellsAt(block: string, coins: seq<bool>)
    requires |coins| == |block|
    ensures forall k :: 0 <= k < |block| ==> WriteCells(block, coins)[2 * k] == WrittenLetter(block[k], coins[k])
    ensures forall k :: 0 <= k < |block| ==> WriteCells(block, coins)[2 * k + 1] == ','
    decreases |block|
  {
    if block != [] {
      var rest := WriteCells(block[1..], coins[1..]);
      var cells := WriteCells(block, coins);
      WriteCellsAt(block[1..], coins[1..]);
      forall k | 1 <= k < |block|
        ensures cells[2 * k] == WrittenLetter(block[k], coins[k]) && cells[2 * k + 1] == ','
      {
        var j := k - 1;
        assert cells[2 * j + 2] == rest[2 * j] && cells[2 * j + 3] == rest[2 * j + 1];
        assert block[1..][j] == block[k] && coins[1..][j] == coins[k];
      }
    }
  }

  lemma {:induction false} CellsHaveNoNewline(block: string, coins: seq<bool>)
    requires |coins| == |block|
    ensures '\n' !in block ==> '\n' !in WriteCells(block, coins)
    decreases |block|
  {
    if block != [] && '\n' !in block {
      assert block[0] in block;
      CellsHaveNoNewline(block[1..], coins[1..]);
    }
  }

  /** Lines 57-63: one block as one line of the stimulus file. */
  function WriteLine(block: string, coins: seq<bool>): (line: string)
    requires |coins| == |block|
    ensures |line| == 2 * |block| + 1 && line[|line| - 1] == '\n'
    ensures forall k :: 0 <= k < |block| ==> Lower(line[2 * k]) == Lower(block[k])
    ensures forall k :: 0 <= k < |block| ==> line[2 * k + 1] == ','
    ensures '\n' !in block ==> IsClosedLine(line)
  {
    var cells := WriteCells(block, coins);
    var line := cells + "\n";
    WriteCellsAt(block, coins);
    CellsHaveNoNewline(block, coins);
    assert forall k :: 0 <= k < |block| ==> line[2 * k] == cells[2 * k] && line[2 * k + 1] == cells[2 * k + 1];
    line
  }

  /** Lines 56-64 or 65-73: a whole stimulus file, one line per block. */
  function WriteFile(blocks: seq<string>, coins: seq<seq<bool>>): (text: string)
    requires |coins| == |blocks|
    requires forall k :: 0 <= k < |blocks| ==> |coins[k]| == |blocks[k]|
  {
    Join(WriteLines(blocks, coins))
  }

  function WriteLines(blocks: seq<string>, coins: seq<seq<bool>>): (lines: seq<string>)
    requires |coins| == |blocks|
    requires forall k :: 0 <= k < |blocks| ==> |coins[k]| == |blocks[k]|
    ensures |lines| == |blocks|
    ensures forall k :: 0 <= k < |blocks| ==> lines[k] == WriteLine(blocks[k], coins[k])
  {
    seq(|blocks|, k requires 0 <= k < |blocks| => WriteLine(blocks[k], coins[k]))
  }
}
