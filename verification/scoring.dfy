/** Scoring of one n-back trial (python/nback.py, lines 198-220).

    The script decides whether a trial may be a target with the guards
    `cond == 1 & trialnum >= 1` and `cond == 2 & trialnum >= 2`. In Python `&`
    binds tighter than `==` and `>=`, and comparisons chain, so the first guard
    reads `cond == (1 & trialnum) and (1 & trialnum) >= 1`. `ScoreAsWritten`
    models that; `ScoreIntended` applies the lag rule the task instructions
    describe (lines 87-98). */
module Scoring {
  import opened Wrappers
  import opened Text

  /** Button codes of the two responses (lines 24-25). */
  const NonTargetButton: char := '2'
  const TargetButton: char := '3'

  /** Which of the two scorers a session applies. */
  datatype Rule = AsWritten | Intended

  /** Python's `a & b` on non-negative integers. */
  function BitAnd(a: nat, b: nat): (r: nat)
    ensures r <= a && r <= b
    decreases a
  {
    if a == 0 || b == 0 then 0
    else 2 * BitAnd(a / 2, b / 2) + (if a % 2 == 1 && b % 2 == 1 then 1 else 0)
  }

  /** Line 202, `cond == 1 & trialnum >= 1`, read the way Python parses it. */
  function OneBackGuard(cond: int, trial: nat): (g: bool)
    ensures g <==> cond == 1 && trial % 2 == 1
  {
    var masked := BitAnd(1, trial);
    cond == masked && masked >= 1
  }

  /** Line 206, `cond == 2 & trialnum >= 2`, read the way Python parses it. */
  function TwoBackGuard(cond: int, trial: nat): (g: bool)
    ensures g <==> cond == 2 && trial % 4 >= 2
  {
    var masked := BitAnd(2, trial);
    assert masked == 2 * ((trial / 2) % 2);
    cond == masked && masked >= 2
  }

  /** The instructions' notion of a target: the letter equals, ignoring case,
      the one `cond` trials back in the same block. */
  predicate IsTarget(cond: int, trial: nat, block: string)
    requires trial < |block|
  {
    (cond == 1 || cond == 2) && trial >= cond
    && Lower(block[trial]) == Lower(block[trial - cond])
  }

  /** A response judged against the letter `lag` trials back: a target press on
      a repeat, or a non-target press on a different letter. */
  predicate AnswersLag(block: string, trial: nat, lag: nat, button: Option<char>)
    requires lag <= trial < |block|
  {
    var same := Lower(block[trial]) == Lower(block[trial - lag]);
    (same && button == Some(TargetButton)) || (!same && button == Some(NonTargetButton))
  }

  /** The `if maybtarget:` step (lines 216-220), on already lower-cased letters. */
  function Revise(stimLetter: char, backLetter: char, button: Option<char>): nat
  {
    if stimLetter == backLetter && button == Some(TargetButton) then 1
    else if stimLetter != backLetter && button == Some(NonTargetButton) then 1
    else 0
  }

  /** The trial score exactly as the script computes it. */
  function ScoreAsWritten(cond: int, trial: nat, block: string, button: Option<char>): (correct: nat)
    requires trial < |block|
    ensures correct <= 1
    ensures correct == 1 <==>
      if cond == 1 && trial % 2 == 1 then AnswersLag(block, trial, 1, button)
      else if cond == 2 && trial % 4 >= 2 then AnswersLag(block, trial, 2, button)
      else button == Some(NonTargetButton)
  {
    var stimLetter := Lower(block[trial]);
    if OneBackGuard(cond, trial) then Revise(stimLetter, Lower(block[trial - 1]), button)
    else if TwoBackGuard(cond, trial) then Revise(stimLetter, Lower(block[trial - 2]), button)
    else if button == Some(NonTargetButton) then 1
    else 0
  }

  /** The trial score with the guards the instructions call for,
      `cond == 1 and trialnum >= 1` and `cond == 2 and trialnum >= 2`. */
  function ScoreIntended(cond: int, trial: nat, block: string, button: Option<char>): (correct: nat)
    requires trial < |block|
    ensures correct <= 1
    ensures (cond == 1 || cond == 2) && trial < cond ==> (correct == 1 <==> button == Some(NonTargetButton))
    ensures (cond == 1 || cond == 2) && trial >= cond ==> (correct == 1 <==> AnswersLag(block, trial, cond, button))
    ensures IsTarget(cond, trial, block) ==> (correct == 1 <==> button == Some(TargetButton))
  {
    var stimLetter := Lower(block[trial]);
    if cond == 1 && trial >= 1 then Revise(stimLetter, Lower(block[trial - 1]), button)
    else if cond == 2 && trial >= 2 then Revise(stimLetter, Lower(block[trial - 2]), button)
    else if button == Some(NonTargetButton) then 1
    else 0
  }

  function Score(rule: Rule, cond: int, trial: nat, block: string, button: Option<char>): (correct: nat)
    requires trial < |block|
    ensures correct <= 1
  {
    match rule
    case AsWritten => ScoreAsWritten(cond, trial, block, button)
    case Intended => ScoreIntended(cond, trial, block, button)
  }

  /** The trial positions whose targets the script never looks for: even
      positions from 2 on in 1-back blocks, positions 4k and 4k+1 from 4 on in
      2-back blocks. */
  predicate Overlooked(cond: int, trial: nat)
  {
    (cond == 1 && trial >= 2 && trial % 2 == 0) || (cond == 2 && trial >= 4 && trial % 4 < 2)
  }

  /** The two scorers disagree exactly on a real target at an overlooked
      position that was answered with one of the two buttons. */
  lemma ScorersDisagreeExactly(cond: int, trial: nat, block: string, button: Option<char>)
    requires trial < |block|
    ensures ScoreAsWritten(cond, trial, block, button) != ScoreIntended(cond, trial, block, button)
      <==> Overlooked(cond, trial) && IsTarget(cond, trial, block)
           && (button == Some(TargetButton) || button == Some(NonTargetButton))
  {
  }

  /** Case never matters: blocks that agree once lower-cased get the same score. */
  lemma ScoreIgnoresCase(rule: Rule, cond: int, trial: nat, a: string, b: string, button: Option<char>)
    requires trial < |a| && LowerStr(a) == LowerStr(b)
    ensures trial < |b|
    ensures Score(rule, cond, trial, a, button) == Score(rule, cond, trial, b, button)
  {
    assert Lower(a[trial]) == LowerStr(a)[trial] == LowerStr(b)[trial] == Lower(b[trial]);
    if trial >= 1 {
      assert Lower(a[trial - 1]) == LowerStr(a)[trial - 1] == LowerStr(b)[trial - 1] == Lower(b[trial - 1]);
    }
    if trial >= 2 {
      assert Lower(a[trial - 2]) == LowerStr(a)[trial - 2] == LowerStr(b)[trial - 2] == Lower(b[trial - 2]);
    }
  }

  /** The instructions' examples: in the 1-back stream 'b T t' and the 2-back
      stream 'T b t' the third letter is a target. The script scores the
      2-back example as the instructions say and the 1-back one wrongly. */
  lemma InstructionExamples()
    ensures IsTarget(1, 2, "bTt") && IsTarget(2, 2, "Tbt")
    ensures ScoreIntended(1, 2, "bTt", Some(TargetButton)) == 1
    ensures ScoreAsWritten(1, 2, "bTt", Some(TargetButton)) == 0
    ensures ScoreAsWritten(1, 2, "bTt", Some(NonTargetButton)) == 1
    ensures ScoreAsWritten(2, 2, "Tbt", Some(TargetButton)) == 1
    ensures ScoreIntended(2, 2, "Tbt", Some(TargetButton)) == 1
  {
  }

  /** The 2-back guard misses targets too: in 'bcdfd' the fifth letter
      repeats the third, but trial 4 is never compared with trial 2. */
  lemma TwoBackTargetOverlooked()
    ensures IsTarget(2, 4, "bcdfd")
    ensures ScoreIntended(2, 4, "bcdfd", Some(TargetButton)) == 1
    ensures ScoreAsWritten(2, 4, "bcdfd", Some(TargetButton)) == 0
  {
  }

  /** The script's scores on the 1-back stream 'bTtf' answered correctly
      (non-target, non-target, target, non-target): the third answer is
      marked wrong. */
  lemma OneBackStreamScores()
    ensures ScoreAsWritten(1, 0, "bTtf", Some(NonTargetButton)) == 1
    ensures ScoreAsWritten(1, 1, "bTtf", Some(NonTargetButton)) == 1
    ensures ScoreAsWritten(1, 2, "bTtf", Some(TargetButton)) == 0
    ensures ScoreAsWritten(1, 3, "bTtf", Some(NonTargetButton)) == 1
    ensures ScoreIntended(1, 2, "bTtf", Some(TargetButton)) == 1
  {
  }

  /** No response is never correct, under either rule. */
  lemma SilenceIsIncorrect(rule: Rule, cond: int, trial: nat, block: string)
    requires trial < |block|
    ensures Score(rule, cond, trial, block, None) == 0
  {
  }
}
