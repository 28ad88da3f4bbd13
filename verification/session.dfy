/** Loading the stimulus files and running the blocks of one session
    (python/nback.py, lines 23-35, 45-58, 137-170 and 222-237). */
module Session {
  import opened Wrappers
  import opened Seqs
  import opened Text
  import opened Scoring
  import opened ResponseWindow

  /** Timing constants of the script, in milliseconds (lines 31-35). */
  const Stimt: nat := 500
  const Iti: nat := 2500
  const IbiMin: nat := 8000
  const IbiMax: nat := 10000
  const Inst: nat := 2000
  const CountdownSeconds: nat := 10

  /** The countdown before the first block waits one second per second shown. */
  const SettleDelay: nat := CountdownSeconds * 1000

  /** The script labels the first four block indices 1-back (line 159). */
  const OneBackCount: nat := 4

  /** Lines 50-51: a line of a stimulus file becomes the block's letters. */
  function ParseLine(line: string): (letters: string)
    ensures ',' !in letters
    ensures |letters| <= |line|
  {
    RemoveCommas(RStrip(line))
  }

  function ParseLines(lines: seq<string>): (blocks: seq<string>)
    ensures |blocks| == |lines|
    ensures forall i :: 0 <= i < |lines| ==> blocks[i] == ParseLine(lines[i])
  {
    seq(|lines|, i requires 0 <= i < |lines| => ParseLine(lines[i]))
  }

  /** Lines 46-58: the 1-back file's blocks, then the 2-back file's. */
  function LoadStimuli(oneBackLines: seq<string>, twoBackLines: seq<string>): (stims: seq<string>)
    ensures |stims| == |oneBackLines| + |twoBackLines|
    ensures forall i :: 0 <= i < |oneBackLines| ==> stims[i] == ParseLine(oneBackLines[i])
    ensures forall i :: 0 <= i < |twoBackLines| ==> stims[|oneBackLines| + i] == ParseLine(twoBackLines[i])
  {
    ParseLines(oneBackLines) + ParseLines(twoBackLines)
  }

  /** Lines 159-164: the condition of a block index. */
  function Condition(blocknum: nat): (cond: int)
    ensures cond == 1 || cond == 2
  {
    if blocknum < OneBackCount then 1 else 2
  }

  /** A block index carries the condition of the file it was read from
      whenever the 1-back file holds exactly four blocks. */
  lemma ConditionMatchesFile(oneBackLines: seq<string>, twoBackLines: seq<string>, blocknum: nat)
    requires |oneBackLines| == OneBackCount
    requires blocknum < |LoadStimuli(oneBackLines, twoBackLines)|
    ensures Condition(blocknum) == 1 <==> blocknum < |oneBackLines|
    ensures Condition(blocknum) == 2 <==> blocknum - |oneBackLines| in Range(|twoBackLines|)
  {
  }

  /** Line 146, `random.sample(range(n), n)`: every block index once, in some order. */
  predicate IsBlockOrder(order: seq<nat>, n: nat)
  {
    IsSample(order, Range(n), n)
  }

  /** Line 151 visits every block exactly once. */
  lemma EveryBlockOnce(order: seq<nat>, n: nat, b: nat)
    requires IsBlockOrder(order, n)
    requires b < n
    ensures exists k :: 0 <= k < |order| && order[k] == b
    ensures forall k, k' :: 0 <= k < |order| && 0 <= k' < |order| && order[k] == b && order[k'] == b ==> k == k'
  {
    FullSampleCovers(order, Range(n));
    assert b in Elements(order);
  }

  /** One line of the data file (line 223). */
  datatype Record = Record(
    block: nat, cond: int, trial: nat, button: Option<char>, rt: Option<nat>,
    correct: nat, blctime: nat, trltime: nat)

  const TrialDuration: nat := Stimt + Iti

  /** Time from the start of a block of `n` trials to its last trial's end. */
  function BlockDuration(n: nat): nat
  {
    Inst + n * TrialDuration
  }

  /** The key events of trial `t` of the `k`-th block shown; none when absent. */
  function TrialEvents(events: seq<seq<seq<KeyEvent>>>, k: nat, t: nat): seq<KeyEvent>
  {
    if k < |events| && t < |events[k]| then events[k][t] else []
  }

  /** What the data file holds for trial `t` of block `blocknum`, shown from `blockStart`. */
  predicate Recorded(r: Record, rule: Rule, stims: seq<string>, blocknum: nat, t: nat,
                     events: seq<KeyEvent>, blockStart: nat)
    requires blocknum < |stims| && t < |stims[blocknum]|
  {
    var response := CollectResponse(events, Stimt, Iti);
    && r.block == blocknum
    && r.cond == Condition(blocknum)
    && r.trial == t
    && r.button == response.button
    && r.rt == response.rt
    && r.correct == Score(rule, Condition(blocknum), t, stims[blocknum], response.button)
    && r.blctime == blockStart
    && r.trltime == blockStart + Inst + t * TrialDuration
  }

  /** The records of a whole block: one per letter, each as `Recorded` says. */
  predicate BlockRecorded(records: seq<Record>, rule: Rule, stims: seq<string>, blocknum: nat, k: nat,
                          events: seq<seq<seq<KeyEvent>>>, blockStart: nat)
    requires blocknum < |stims|
  {
    && |records| == |stims[blocknum]|
    && forall t :: 0 <= t < |records| ==>
      Recorded(records[t], rule, stims, blocknum, t, TrialEvents(events, k, t), blockStart)
  }

  /** Lines 169-227: the trials of one block, the `k`-th shown, whose
      instruction screen appears at `blctime`. Returns its records and the time
      its last trial ends. */
  method RunBlock(rule: Rule, stims: seq<string>, blocknum: nat, k: nat,
                  events: seq<seq<seq<KeyEvent>>>, blctime: nat)
    returns (records: seq<Record>, clock: nat)
    requires blocknum < |stims|
    ensures BlockRecorded(records, rule, stims, blocknum, k, events, blctime)
    ensures clock == blctime + BlockDuration(|stims[blocknum]|)
  {
    var block := stims[blocknum];
    var cond := Condition(blocknum);
    clock := blctime + Inst;
    records := [];
    var trialnum := 0;
    while trialnum < |block|
      invariant 0 <= trialnum <= |block|
      invariant |records| == trialnum
      invariant clock == blctime + Inst + trialnum * TrialDuration
      invariant forall t :: 0 <= t < trialnum ==>
        Recorded(records[t], rule, stims, blocknum, t, TrialEvents(events, k, t), blctime)
    {
      var trltime := clock;
      var response := CollectResponse(TrialEvents(events, k, trialnum), Stimt, Iti);
      clock := clock + response.elapsed;
      var correct := Score(rule, cond, trialnum, block, response.button);
      records := records + [Record(blocknum, cond, trialnum, response.button, response.rt,
                                   correct, blctime, trltime)];
      trialnum := trialnum + 1;
    }
  }

  /** Appending the records of the next block shown keeps every block's
      records as `BlockRecorded` says. */
  lemma BlockRecordedAppend(log: seq<seq<Record>>, starts: seq<nat>, records: seq<Record>, blctime: nat,
                            rule: Rule, stims: seq<string>, order: seq<nat>, events: seq<seq<seq<KeyEvent>>>)
    requires |log| == |starts| < |order|
    requires forall k :: 0 <= k < |order| ==> order[k] < |stims|
    requires forall k :: 0 <= k < |log| ==> BlockRecorded(log[k], rule, stims, order[k], k, events, starts[k])
    requires BlockRecorded(records, rule, stims, order[|log|], |log|, events, blctime)
    ensures forall k :: 0 <= k <= |log| ==>
      BlockRecorded((log + [records])[k], rule, stims, order[k], k, events, (starts + [blctime])[k])
  {
    forall k | 0 <= k <= |log|
      ensures BlockRecorded((log + [records])[k], rule, stims, order[k], k, events, (starts + [blctime])[k])
    {
      if k < |log| {
        assert (log + [records])[k] == log[k] && (starts + [blctime])[k] == starts[k];
      }
    }
  }

  /** Line 236: every rest lies between 8 and 10 seconds. */
  predicate RestsInRange(ibis: seq<nat>)
  {
    forall k :: 0 <= k < |ibis| ==> IbiMin <= ibis[k] <= IbiMax
  }

  lemma RestsOfPrefix(ibis: seq<nat>, n: nat)
    requires RestsInRange(ibis) && n <= |ibis|
    ensures RestsInRange(ibis[..n])
  {
  }

  /** Lines 145-237 with the display left out: blocks in `order`, a rest
      between blocks. `events[k][t]` holds the key presses of trial `t` of the
      `k`-th block shown and `ibis[k]` the rest drawn after it, an outcome of
      `randint(8000, 10000)` (line 236). Times count
      from the end of the scanner trigger. Returns the records of each block
      shown, the start time of each block and the rests taken. */
  method RunSession(rule: Rule, stims: seq<string>, order: seq<nat>,
                    events: seq<seq<seq<KeyEvent>>>, ibis: seq<nat>)
    returns (log: seq<seq<Record>>, blockStarts: seq<nat>, rests: seq<nat>)
    requires IsBlockOrder(order, |stims|)
    requires |ibis| + 1 >= |order|
    requires RestsInRange(ibis)
    ensures |log| == |order| && |blockStarts| == |order|
    ensures forall k :: 0 <= k < |order| ==> |log[k]| == |stims[order[k]]|
    ensures forall k, t :: 0 <= k < |log| && 0 <= t < |log[k]| ==>
      Recorded(log[k][t], rule, stims, order[k], t, TrialEvents(events, k, t), blockStarts[k])
    ensures |order| > 0 ==> blockStarts[0] == SettleDelay
    ensures forall k :: 0 < k < |order| ==>
      blockStarts[k] == blockStarts[k - 1] + BlockDuration(|stims[order[k - 1]]|) + ibis[k - 1]
    ensures |rests| == if |order| == 0 then 0 else |order| - 1
    ensures rests == ibis[..|rests|]
    ensures RestsInRange(rests)
  {
    var clock := SettleDelay;
    log, blockStarts, rests := [], [], [];
    var blckscompleted := 0;
    while blckscompleted < |order|
      invariant 0 <= blckscompleted <= |order|
      invariant |log| == blckscompleted && |blockStarts| == blckscompleted
      invariant forall k :: 0 <= k < blckscompleted ==>
        BlockRecorded(log[k], rule, stims, order[k], k, events, blockStarts[k])
      invariant blckscompleted > 0 ==> blockStarts[0] == SettleDelay
      invariant forall k :: 0 < k < blckscompleted ==>
        blockStarts[k] == blockStarts[k - 1] + BlockDuration(|stims[order[k - 1]]|) + ibis[k - 1]
      invariant blckscompleted == 0 ==> clock == SettleDelay
      invariant 0 < blckscompleted < |order| ==>
        clock == blockStarts[blckscompleted - 1] + BlockDuration(|stims[order[blckscompleted - 1]]|) + ibis[blckscompleted - 1]
      invariant |rests| == if blckscompleted == |order| && blckscompleted > 0 then blckscompleted - 1 else blckscompleted
      invariant rests == ibis[..|rests|]
    {
      var k := blckscompleted;
      var blctime := clock;
      var records;
      records, clock := RunBlock(rule, stims, order[k], k, events, blctime);
      BlockRecordedAppend(log, blockStarts, records, blctime, rule, stims, order, events);
      log := log + [records];
      blockStarts := blockStarts + [blctime];
      blckscompleted := blckscompleted + 1;
      if blckscompleted < |order| {
        rests := rests + [ibis[k]];
        clock := clock + ibis[k];
      }
    }
    RestsOfPrefix(ibis, |rests|);
    forall k | 0 <= k < |order|
      ensures |log[k]| == |stims[order[k]]|
      ensures forall t :: 0 <= t < |log[k]| ==>
        Recorded(log[k][t], rule, stims, order[k], t, TrialEvents(events, k, t), blockStarts[k])
    {
      assert BlockRecorded(log[k], rule, stims, order[k], k, events, blockStarts[k]);
    }
  }
}
