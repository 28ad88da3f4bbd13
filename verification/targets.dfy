/** How many targets a generated block holds (behavior/makeNbackStim.py,
    lines 6 and 25-53). The generator plants eight lag-repeats but never
    checks the drawn letters for repeats it did not plant, so a block has at
    least eight targets, not always exactly eight. */
module BlockTargets {
  import opened Seqs
  import opened Wrappers
  import opened Scoring
  import opened StimGen

  /** The trials of `block` that are targets for a task of lag `lag`. */
  function TargetPositions(block: string, lag: nat): set<nat>
  {
    set p: nat | p < |block| && IsTarget(lag, p, block)
  }

  /** The target positions shifted by the lag: where planting copies to. */
  function Shift(ts: seq<nat>, lag: nat): (r: seq<nat>)
    ensures |r| == |ts|
    ensures forall i :: 0 <= i < |ts| ==> r[i] == ts[i] + lag
  {
    seq(|ts|, i requires 0 <= i < |ts| => ts[i] + lag)
  }

  /** The positions the generator plants a repeat at. */
  function PlantedPositions(d: BlockDraw, lag: nat): set<nat>
  {
    Elements(Shift(d.targets, lag))
  }

  /** Distinct target positions give as many planted positions. */
  lemma PlantedCount(d: BlockDraw, lag: nat)
    requires Distinct(d.targets)
    ensures |PlantedPositions(d, lag)| == |d.targets|
  {
    var shifted := Shift(d.targets, lag);
    assert Distinct(shifted) by {
      forall i, j | 0 <= i < j < |shifted|
        ensures shifted[i] != shifted[j]
      {
        assert d.targets[i] != d.targets[j];
      }
    }
    DistinctCount(shifted);
  }

  /** A generated block has a target at every planted position, so at least
      `numtargets` targets. */
  lemma GeneratedBlockTargets(d: BlockDraw, lag: nat)
    requires lag == 1 || lag == 2
    requires ValidDraw(d, lag)
    ensures PlantedPositions(d, lag) <= TargetPositions(MakeBlock(d, lag), lag)
    ensures |TargetPositions(MakeBlock(d, lag), lag)| >= NumTargets
  {
    var block := MakeBlock(d, lag);
    BlockProperties(d, lag);
    ValidDrawFits(d, lag);
    forall p | p in PlantedPositions(d, lag)
      ensures p in TargetPositions(block, lag)
    {
      var i :| 0 <= i < |d.targets| && Shift(d.targets, lag)[i] == p;
      assert block[d.targets[i] + lag] == block[d.targets[i]];
      assert IsTarget(lag, p, block);
    }
    PlantedCount(d, lag);
    SubsetCount(PlantedPositions(d, lag), TargetPositions(block, lag));
  }

  /** A position that no target copies into, nor into the position `lag`
      before it, whose drawn letter repeats the one `lag` places before, is a
      target nobody planted;
      its block then has more than `numtargets` targets. */
  lemma UnplantedTargetAt(d: BlockDraw, lag: nat, p: nat)
    requires lag == 1 || lag == 2
    requires ValidDraw(d, lag)
    requires lag <= p < NumStim
    requires Untouched(d.targets, lag, p) && Untouched(d.targets, lag, p - lag)
    requires DrawLetters(d)[p] == DrawLetters(d)[p - lag]
    ensures p in TargetPositions(MakeBlock(d, lag), lag)
    ensures p !in PlantedPositions(d, lag)
    ensures |TargetPositions(MakeBlock(d, lag), lag)| > NumTargets
  {
    var block := MakeBlock(d, lag);
    var planted := PlantedPositions(d, lag);
    var targets := TargetPositions(block, lag);
    GeneratedBlockTargets(d, lag);
    BlockKeepsDrawn(d, lag);
    assert block[p] == block[p - lag];
    assert IsTarget(lag, p, block);
    assert p !in planted by {
      forall i | 0 <= i < |d.targets|
        ensures Shift(d.targets, lag)[i] != p
      {
      }
    }
    ValidDrawFits(d, lag);
    PlantedCount(d, lag);
    SubsetCount(planted + {p}, targets);
  }

  /** A 1-back draw: the alphabet in order, then 'z', 'b', 'c', 'd', 'f', and
      targets at the even positions 0 to 14. */
  const ExtraTargetDraw: BlockDraw := BlockDraw(Consonants, "zbcdf", [0, 2, 4, 6, 8, 10, 12, 14])

  /** `ExtraTargetDraw` is something the calls to `random.sample` can return. */
  lemma ExtraTargetDrawIsValid()
    ensures ValidDraw(ExtraTargetDraw, 1)
  {
    ConsonantsDistinct();
    ExtraLettersSample();
    TargetsSample();
  }

  lemma ExtraLettersSample()
    ensures IsSample(ExtraTargetDraw.extra, Elements(Consonants), NumStim - |Consonants|)
  {
    var e := ExtraTargetDraw.extra;
    assert e == ['z', 'b', 'c', 'd', 'f'];
    assert e[0] == Consonants[19] && e[1] == Consonants[0] && e[2] == Consonants[1]
      && e[3] == Consonants[2] && e[4] == Consonants[3];
    assert Distinct(e);
  }

  lemma TargetsSample()
    ensures IsSample(ExtraTargetDraw.targets, Range(NumStim - 1), NumTargets)
  {
    var ts := ExtraTargetDraw.targets;
    assert forall i :: 0 <= i < |ts| ==> ts[i] == 2 * i;
    assert Distinct(ts);
    assert forall i :: 0 <= i < |ts| ==> ts[i] in Range(NumStim - 1);
  }

  /** Its 20th and 21st drawn letters are both 'z'. */
  lemma ExtraTargetDrawLetters()
    ensures DrawLetters(ExtraTargetDraw)[19] == DrawLetters(ExtraTargetDraw)[20] == 'z'
  {
    var letters := DrawLetters(ExtraTargetDraw);
    assert letters[19] == letters[..AlphabetSize][19] == Consonants[19] == 'z';
    assert letters[20] == letters[AlphabetSize..][0] == 'z';
  }

  /** A valid 1-back draw whose block has a ninth target: the permutation ends
      in 'z', the extra letters start with 'z', and no target is planted at
      positions 19 or 20, so trial 20 repeats trial 19 unplanned. */
  lemma UnplantedTargetPossible()
    ensures ValidDraw(ExtraTargetDraw, 1)
    ensures 20 in TargetPositions(MakeBlock(ExtraTargetDraw, 1), 1)
    ensures 20 !in PlantedPositions(ExtraTargetDraw, 1)
    ensures |TargetPositions(MakeBlock(ExtraTargetDraw, 1), 1)| > NumTargets
  {
    ExtraTargetDrawIsValid();
    ExtraTargetDrawLetters();
    assert Untouched(ExtraTargetDraw.targets, 1, 19) && Untouched(ExtraTargetDraw.targets, 1, 20);
    UnplantedTargetAt(ExtraTargetDraw, 1, 20);
  }

  /** The generator with the guard its description implies: a draw whose
      block holds any unplanted target is refused (to be drawn again), so every
      block it returns has exactly the planted targets. */
  function ExactBlock(d: BlockDraw, lag: nat): (r: Option<string>)
    requires lag == 1 || lag == 2
    requires ValidDraw(d, lag)
    ensures r.Some? ==> r.value == MakeBlock(d, lag)
    ensures r.Some? ==> TargetPositions(r.value, lag) == PlantedPositions(d, lag)
    ensures r.Some? ==> |TargetPositions(r.value, lag)| == NumTargets
    ensures r.None? <==> exists p :: p in TargetPositions(MakeBlock(d, lag), lag) && p !in PlantedPositions(d, lag)
  {
    var block := MakeBlock(d, lag);
    GeneratedBlockTargets(d, lag);
    ValidDrawFits(d, lag);
    PlantedCount(d, lag);
    var planted := PlantedPositions(d, lag);
    var targets := TargetPositions(block, lag);
    if |targets| == NumTargets then
      SameSizeSubset(planted, targets);
      Some(block)
    else
      LargerHasExtra(planted, targets);
      None
  }

  /** A larger set than a subset of it holds something outside the subset. */
  lemma LargerHasExtra<T>(a: set<T>, b: set<T>)
    requires a <= b && |a| != |b|
    ensures exists x :: x in b && x !in a
  {
    assert b == a + (b - a);
    assert |b - a| != 0;
    var x :| x in b - a;
  }

  /** A subset as large as the finite set that holds it is that set. */
  lemma SameSizeSubset<T>(a: set<T>, b: set<T>)
    requires a <= b && |a| == |b|
    ensures a == b
  {
    assert b == a + (b - a);
    assert |b - a| == 0;
  }
}
