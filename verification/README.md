# N-back task and payment lottery, modelled in Dafny

This project models three scripts of a working-memory / intertemporal-choice
experiment:

- `python/nback.py`, the n-back task runner. It reads two stimulus files:
  one line per block, one letter per trial. It shows the blocks in a random
  order, takes one button press per letter and scores each trial. Blocks with
  index below 4 are 1-back (a letter is a target when it repeats the previous
  one). The others are 2-back (the letter from two trials back). The modules
  `Scoring`, `ResponseWindow` and `Session` cover it.
- `behavior/makeNbackStim.py`, the stimulus generator (module `StimGen`). It
  builds each 25-letter block from a random permutation of a 20-consonant
  alphabet plus five extra letters. It plants 8 lag-repeats by copying
  `letters[i]` to `letters[i+lag]` for sorted target positions. It then
  writes each block as a comma-terminated line with random letter case.
  Module `StimRoundTrip` connects the generator's files to the runner's
  reader and scorer.
- `python/WMITClottery.py`, the payment lottery (module `Lottery`). It draws
  a data file and a trial until the trial has a recorded choice. It then pays
  the chosen offer on the day that lies the offer's delay after today.

Every random outcome is an input: the block order, the alphabet permutation,
the extra letters, the target positions, the case coins, the inter-block
rests and the lottery draws. Key presses are inputs too: for each trial, a
list of key events stamped in milliseconds since the letter appeared.

The model has two scorers. `Scoring.ScoreAsWritten` is the script's scorer
as Python evaluates it. `Scoring.ScoreIntended` follows the lag rule the task
instructions give the subject. The script's guard `cond == 1 & trialnum >= 1`
parses as `cond == (1 & trialnum) and (1 & trialnum) >= 1`. So in 1-back
blocks only odd trials are compared with the previous letter. In 2-back
blocks only trials whose index mod 4 is 2 or 3 are compared with the letter
two back. The model follows the code. The instructions' rule is stated
separately, and the two are proved to disagree exactly on the overlooked
targets (see Findings). `Session.RunSession` takes the rule as a parameter.
Run with `AsWritten` it reproduces the recorded data; with `Intended` it
scores as the instructions describe.

## Model

| member | source | states |
|---|---|---|
| Scoring.BitAnd | python/nback.py:202 | Python's `&` on non-negative integers never exceeds either operand |
| Scoring.OneBackGuard | python/nback.py:202 | the 1-back guard, parsed as Python parses it, holds iff the condition is 1 and the trial index is odd; it never holds for condition 2 |
| Scoring.TwoBackGuard | python/nback.py:206 | the 2-back guard holds iff the condition is 2 and the trial index mod 4 is 2 or 3; then the index is at least 2, so `trialnum-2` is in range |
| Scoring.ScoreAsWritten | python/nback.py:198-220 | the score is 0 or 1. When a guard holds, 1 iff (the letters match ignoring case and the target button was pressed) or (they differ and the non-target button was pressed). Otherwise 1 iff the non-target button was pressed; no response scores 0 |
| Scoring.ScoreIntended | python/nback.py:87-98 | the instructions' rule: before `lag` trials only a non-target press is correct; from then on correct iff the press matches whether the letter repeats the one `lag` back; on a real target only the target press is correct |
| Scoring.ScorersDisagreeExactly | python/nback.py:202-220 | the script and the instructions disagree exactly on a real target at an overlooked position (even trials from 2 in 1-back, trials 4k and 4k+1 from 4 in 2-back) answered with either button |
| Scoring.ScoreIgnoresCase | python/nback.py:199-204 | blocks equal after lower-casing score the same under both rules |
| Scoring.InstructionExamples | python/nback.py:87-98 | the third letters of 'b T t' (1-back) and 'T b t' (2-back) are targets. The script scores the 2-back one as the instructions say. It marks a target press on the 1-back one wrong and a non-target press right |
| Scoring.TwoBackTargetOverlooked | python/nback.py:206 | in the 2-back block 'bcdfd', trial 4 repeats trial 2, yet the script scores a target press there as wrong |
| Scoring.OneBackStreamScores | python/nback.py:198-220 | a fully correct answer sequence to the 1-back stream 'bTtf' is scored 1, 1, 0, 1 by the script |
| Scoring.SilenceIsIncorrect | python/nback.py:200-220 | a trial without a response always scores 0, under either rule |
| ResponseWindow.WaitChar | python/nback.py:182-183 | `wait_char` returns a button and a reaction time together or neither; the button is one of the two codes and the reaction time is below the wait's duration |
| ResponseWindow.CollectResponse | python/nback.py:181-196 | a trial records at most one button with its reaction time. The trial always waits stimt + iti in total, whether the press came while the letter was shown, during the fixation cross, or never |
| ResponseWindow.ResponseIsFirstPress | python/nback.py:181-196 | for key events in time order, the recorded button is the first valid key of the whole trial window. Its reaction time counts from letter onset if it came while the letter was shown, and from fixation onset otherwise |
| Text.RStrip | python/nback.py:50 | Python 2's `str.rstrip()` keeps the longest prefix that does not end in whitespace (space, tab, newline, vertical tab, form feed, carriage return) and drops only such whitespace |
| Text.RemoveCommas | python/nback.py:51 | `replace(',', '')` leaves no comma and never lengthens the text |
| Text.RemoveCommasCounts | python/nback.py:51 | `replace(',', '')` shortens the text by exactly its number of commas and keeps every other character with its multiplicity |
| Text.RemoveCommasAppend | python/nback.py:51 | removing commas distributes over concatenation |
| Text.ReadLines | python/nback.py:48 | `readlines()` cuts a text into lines that join back to the text; every line but the last ends in its only newline |
| Text.ReadLinesOfJoin | python/nback.py:54 | reading a text made of newline-terminated lines gives back exactly those lines |
| Session.ParseLine | python/nback.py:49-52 | a parsed stimulus line contains no comma and is no longer than the line |
| Session.LoadStimuli | python/nback.py:46-58 | the block list holds one parsed block per line, the 1-back file's lines first, in file order, then the 2-back file's |
| Session.Condition | python/nback.py:159-164 | every block gets condition 1 or 2 |
| Session.ConditionMatchesFile | python/nback.py:159-164 | when the 1-back file has four lines, a block index gets condition 1 exactly when it came from the 1-back file and 2 exactly when it came from the 2-back file |
| Session.EveryBlockOnce | python/nback.py:146-151 | the sampled order visits every block index exactly once |
| Session.RunBlock | python/nback.py:169-227 | one record per letter of the block, trial numbers 0 to len-1 in order, each with the block's condition, its response and its score. Trial t starts inst + t*(stimt+iti) after the block, and the block ends inst + len*(stimt+iti) after its start |
| Session.RunSession | python/nback.py:145-237 | one record list per block in sampled order. The first block starts after the 10-second countdown. Each later block starts after the previous block's trials plus the rest drawn after it. A rest follows every block except the last, so there are len-1 rests, each between 8000 and 10000 ms as `randint(8000, 10000)` draws it |
| StimGen.ConsonantsDistinct | behavior/makeNbackStim.py:23 | the consonant alphabet has 20 letters, all different |
| StimGen.ConsonantsAreLower | behavior/makeNbackStim.py:23 | every letter of the alphabet is a lower-case letter |
| StimGen.DrawLetters | behavior/makeNbackStim.py:30-31 | a block draws len(consonants) + (numstim - len(consonants)) = 25 letters: the permutation of the alphabet first, then the extra letters |
| StimGen.DrawnAlphabet | behavior/makeNbackStim.py:30-31 | every drawn letter is a consonant; before planting, the first 20 letters are the whole alphabet, each exactly once |
| StimGen.SortTargets | behavior/makeNbackStim.py:34 | `sort()` returns the same target positions, as a multiset, in non-decreasing order |
| StimGen.SortAscending | behavior/makeNbackStim.py:33-34 | positions drawn without repetition come out of the sort strictly ascending |
| StimGen.Plant | behavior/makeNbackStim.py:35-36 | planting keeps the block's length |
| StimGen.PlantCopies | behavior/makeNbackStim.py:35-36 | every letter of a planted block was already a letter of the block before planting |
| StimGen.PlantKeepsOthers | behavior/makeNbackStim.py:35-36 | a position that is not `i+lag` for any target `i` keeps its original letter |
| StimGen.PlantRepeatsTargets | behavior/makeNbackStim.py:33-36 | with ascending targets, every target's letter equals the letter `lag` places later once planting is done |
| StimGen.UnsortedTargetsBreak | behavior/makeNbackStim.py:34 | without the sort the invariant fails: targets [1, 0] on 'bcd' leave position 2 different from position 1 |
| StimGen.BlockLetters | behavior/makeNbackStim.py:29-36 | every letter of a generated block is a consonant |
| StimGen.BlockRepeats | behavior/makeNbackStim.py:33-36 | in a generated block every target `i` has `i+lag` in range and `block[i+lag] == block[i]` |
| StimGen.BlockKeepsDrawn | behavior/makeNbackStim.py:29-36 | every position no target copies into keeps the letter drawn for it |
| StimGen.BlockProperties | behavior/makeNbackStim.py:29-52 | a generated block has 25 alphabet letters. Every target `i` satisfies `i+lag < 25` and `block[i+lag] == block[i]`. Every position no target copies into keeps its drawn letter |
| StimGen.MakeBlocks | behavior/makeNbackStim.py:25-53 | each kind gets exactly four blocks, the k-th built from the k-th draw; the 2-back loop's bound `numn1bs` equals `numn2bs` |
| StimGen.WrittenLetter | behavior/makeNbackStim.py:59-61 | a letter written upper- or lower-case lower-cases back to the original |
| StimGen.WriteCells | behavior/makeNbackStim.py:58-62 | a block of n letters is written as 2n cells |
| StimGen.WriteCellsAt | behavior/makeNbackStim.py:58-62 | the written cells alternate the block's letters, each in its coin's case, with commas |
| StimGen.WriteLine | behavior/makeNbackStim.py:57-63 | a written line has 2n+1 characters: letters that lower-case back to the block, each followed by a comma, then a newline; it is a single closed line when the block has no newline |
| StimGen.WriteLines | behavior/makeNbackStim.py:56-64 | a written file holds one line per block, in block order |
| StimRoundTrip.ParseWrittenLine | behavior/makeNbackStim.py:57-63 | parsing a written line gives back the block's letters in their written case, so lower-casing recovers the block |
| StimRoundTrip.ReadWrittenFile | behavior/makeNbackStim.py:56-64 | `readlines` on a written file of lower-case blocks gives back exactly the written lines |
| StimRoundTrip.ReadBackBlocks | behavior/makeNbackStim.py:56-73 | reading a written file gives one line per block, and each line parses to a string whose lower-case form is the block |
| StimRoundTrip.GeneratedStimuliLoad | python/nback.py:46-58 | loading the two generated files gives every block in file order, up to case: the 1-back file's blocks first, then the 2-back file's |
| StimRoundTrip.LoadedBlocksScoreAsGenerated | python/nback.py:199-220 | every trial of a loaded block scores as on the generated lower-case block it came from, whatever the case coins were; blocks from the 1-back file are scored with condition 1 and blocks from the 2-back file with condition 2 |
| StimRoundTrip.GeneratedBlockIsLower | behavior/makeNbackStim.py:29-53 | every generated block is lower-case, so the file round trip applies to the blocks the generator builds |
| StimRoundTrip.PlantedTargetsAreTargets | behavior/makeNbackStim.py:33-51 | every planted repeat is a target in the instructions' sense, with the block's lag as condition |
| BlockTargets.GeneratedBlockTargets | behavior/makeNbackStim.py:6 | every planted position of a generated block is a target, so a block has at least `numtargets` = 8 distinct targets |
| BlockTargets.UnplantedTargetAt | behavior/makeNbackStim.py:29-36 | a position that no target copies into, nor into the position `lag` before it, whose drawn letter repeats the one `lag` back, is a target that was not planted, and its block has more than 8 targets |
| BlockTargets.UnplantedTargetPossible | behavior/makeNbackStim.py:6 | a draw that `random.sample` can return (alphabet in order, extra letters 'zbcdf', targets 0, 2, ..., 14) gives a 1-back block whose trial 20 is an unplanted target, so that block has more than 8 targets |
| BlockTargets.ExactBlock | behavior/makeNbackStim.py:6 | the generator with the missing guard: it returns the block iff the block has no unplanted target, and then the block's targets are exactly the 8 planted positions |
| Lottery.TryDraw | python/WMITClottery.py:28-41 | loading a file whose rows differ in length raises, whichever row is drawn. Otherwise a draw is accepted iff the file has more than one row and the trial's choice column exists and is not NaN. A file with one row or none is skipped. The draw crashes on a short row iff the file loads, is eligible and the row has no choice column, and then every row of the file is short |
| Lottery.RunLottery | python/WMITClottery.py:27-41 | the loop has four outcomes. With no files it fails. Otherwise it stops at the first accepted draw, or crashes at the first draw of a file that does not load or of a row too short to have a choice column; every draw before either only retries |
| Lottery.RaggedFileRaises | python/WMITClottery.py:32 | a file whose first data row has eight cells and whose second has five fails to load, even when its full first row is drawn |
| Lottery.Payout | python/WMITClottery.py:53-56 | the paid offer is one of the row's two offers: the second (columns 5, 6) when the choice is nonzero, the first (columns 3, 4) when it is zero |
| Lottery.PayDay | python/WMITClottery.py:59 | the pay day's ordinal is today's plus the chosen delay, and exists iff the delay is a number and the result is a valid date ordinal |
| Lottery.ReportNumbers | python/WMITClottery.py:44 | the reported block and trial numbers are the drawn 0-based indices plus one, within 1..files and 1..rows |

## Findings

| source | as written | input that shows it | evidently intended | confidence | as-written member | corrected member |
|---|---|---|---|---|---|---|
| python/nback.py:202 | `cond == 1 & trialnum >= 1` means `cond == (1 & trialnum) and (1 & trialnum) >= 1`: only odd trials of 1-back blocks are compared with the previous letter | 1-back stream 'b T t' (the instructions' own example), trial 2 answered with the target button: scored 0 | `cond == 1 and trialnum >= 1` | high; not executed | Scoring.InstructionExamples | Scoring.ScoreIntended |
| python/nback.py:206 | `cond == 2 & trialnum >= 2` means `cond == (2 & trialnum) and (2 & trialnum) >= 2`: 2-back trials whose index mod 4 is 0 or 1 are never compared with the letter two back | 2-back block 'bcdfd', trial 4 answered with the target button: scored 0 | `cond == 2 and trialnum >= 2` | high; not executed | Scoring.TwoBackTargetOverlooked | Scoring.ScoreIntended |
| behavior/makeNbackStim.py:6, 29-36 | the letters are drawn at random and only the 8 planted repeats are controlled; nothing rejects a block in which a drawn letter repeats the one `lag` back by chance | 1-back draw: alphabet in order, extra letters 'zbcdf', targets 0, 2, ..., 14. Trials 19 and 20 are both 'z', a ninth target | each block has exactly 8 targets, as the header says | medium; not executed | BlockTargets.UnplantedTargetPossible | BlockTargets.ExactBlock |

On these overlooked trials the script scores a real target as if no target
were possible. A non-target press is marked correct and a target press wrong.
On every other trial the two scorers agree (`Scoring.ScorersDisagreeExactly`).
The session model takes the scorer as a parameter. The script's data
correspond to `AsWritten`; the corrected scoring is `Intended`.

A generated block has at least 8 targets (`BlockTargets.GeneratedBlockTargets`),
and may have more. `BlockTargets.ExactBlock` refuses such a draw, so that it can
be drawn again. The session and the round trip keep the generator as written,
because the stimulus files the script reads came from it.

## Left out

- The display and the input device are left out: instruction screens, the
  countdown text, fixation cross and letter rendering (python/nback.py:60-143).
  Presentation calls take no time in the model; the clock moves only by the
  script's waits.
- The serial-port scanner trigger (python/nback.py:128-131) is a hardware
  write and is left out; the session clock starts after it, as `strtt` does.
- Random sources are left out; their outcomes are inputs. These are
  `random.sample`, `randint` and `random.random`. A case coin is the boolean
  `coin >= .5`.
- File opening, reading and writing are left out; files are strings, and
  reading stops at `readlines`. Universal-newline translation of `\r` and
  `\r\n` is not modelled; the generator writes only `\n`.
- Text.Lower and Text.Upper change only ASCII letters, as Python 2's
  `str.lower()` and `str.upper()` do in the C locale. Text.IsSpace is the same
  locale's whitespace set, the one Python 2's `str.rstrip()` removes. Unicode
  strings are not modelled; the scripts read byte strings.
- The data file format (`exp.data`, its header and float times in seconds) is
  left out. Records hold times as whole milliseconds.
- `numfoils` (behavior/makeNbackStim.py:22) is declared but never used, so it
  has no counterpart.
- Lottery.RunLottery: the script's loop has no bound and may never end; the
  model runs it on a finite list of draws and reports when that list runs out.
- Lottery.TryDraw: a file is eligible when it has more than one row. How
  `numpy.genfromtxt` shapes a single-column file is not modelled; the data
  files have at least eight columns. Its load failure is modelled only for
  rows of different lengths. Header skipping, comments, blank lines and
  number parsing are not modelled.
- Lottery.Payout: the choice, amounts and delays are whole numbers. A
  fractional non-zero choice, which `if details[7]:` would also treat as
  choosing the second offer, is not modelled. `round(x, 1)`, money
  formatting, date formatting and the printed messages are left out. So is
  the truncating `int()` on a fractional day count.
- `behavior/wmitcbehavior.py` and `behavior/rerunFitK.py` are left out. They
  are floating-point statistics, model fits and plots done by library calls.
