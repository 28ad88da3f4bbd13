/** The payment lottery (python/WMITClottery.py): draw a data file and a trial
    until the trial has a recorded choice, then pay the offer chosen on it.
    Random draws and today's date are inputs; amounts are whole numbers and
    dates are proleptic Gregorian day ordinals (`date.toordinal()`). */
module Lottery {
  import opened Wrappers

  /** One field as `numpy.genfromtxt` reads it: a number, or NaN when empty. */
  datatype Cell = Num(value: int) | NaN

  type Row = seq<Cell>

  /** The rows of one data file below its header line. */
  type Table = seq<Row>

  /** Columns of a row: the two offers (amount, delay) and the choice. */
  const FirstAmountColumn: nat := 3
  const FirstDelayColumn: nat := 4
  const SecondAmountColumn: nat := 5
  const SecondDelayColumn: nat := 6
  const ChoiceColumn: nat := 7

  /** `date(9999, 12, 31).toordinal()`, the last day `date.fromordinal` accepts. */
  const MaxOrdinal: int := 3652059

  /** One pass of the loop: the file index from line 31, the trial index from line 36. */
  datatype Draw = Draw(file: nat, trial: nat)

  /** Line 32: `genfromtxt` takes the column count from the first row below
      the header and, with its default `invalid_raise`, raises ValueError on
      loading a file any other row of which has a different count. */
  predicate Rectangular(t: Table)
  {
    forall i :: 0 <= i < |t| ==> |t[i]| == |t[0]|
  }

  /** Line 35: `genfromtxt` returns a one-dimensional array for an empty or
      one-row file, and those files are skipped. */
  predicate Eligible(t: Table)
  {
    |t| > 1
  }

  /** What `randint` can return: a file index in range and, for an eligible
      file, a row index in range. */
  predicate ValidDraw(files: seq<Table>, d: Draw)
  {
    d.file < |files| && (Eligible(files[d.file]) ==> d.trial < |files[d.file]|)
  }

  /** What one pass of the loop (lines 28-41) does with a draw. A ragged file
      makes the load raise; a row too short to have a choice column makes
      `details[7]` raise. */
  datatype Attempt = LoadFailed | FileSkipped | TrialRejected | RowTooShort | Accepted(row: Row)

  /** The attempts that end the script with an exception. */
  predicate Raises(a: Attempt)
  {
    a.LoadFailed? || a.RowTooShort?
  }

  predicate Retries(a: Attempt)
  {
    a.FileSkipped? || a.TrialRejected?
  }

  function TryDraw(files: seq<Table>, d: Draw): (a: Attempt)
    requires ValidDraw(files, d)
    ensures a.LoadFailed? <==> !Rectangular(files[d.file])
    ensures a.Accepted? <==>
      && Rectangular(files[d.file]) && Eligible(files[d.file])
      && |files[d.file][d.trial]| > ChoiceColumn && files[d.file][d.trial][ChoiceColumn] != NaN
    ensures a.Accepted? ==> a.row == files[d.file][d.trial] && a.row[ChoiceColumn].Num?
    ensures a.FileSkipped? <==> Rectangular(files[d.file]) && !Eligible(files[d.file])
    ensures a == RowTooShort <==>
      Rectangular(files[d.file]) && Eligible(files[d.file]) && |files[d.file][d.trial]| <= ChoiceColumn
    ensures a == RowTooShort ==> forall i :: 0 <= i < |files[d.file]| ==> |files[d.file][i]| <= ChoiceColumn
  {
    var data := files[d.file];
    if !Rectangular(data) then LoadFailed
    else if !Eligible(data) then FileSkipped
    else
      var details := data[d.trial];
      if |details| <= ChoiceColumn then RowTooShort
      else if details[ChoiceColumn].NaN? then TrialRejected
      else Accepted(details)
  }

  /** A file whose first data row has eight cells and whose second has five
      fails to load, so even a draw of its full first row raises. */
  lemma RaggedFileRaises()
    ensures var row0 := seq(8, _ => Num(1));
      TryDraw([[row0, row0[..5]]], Draw(0, 0)) == LoadFailed
  {
    var row0: Row := seq(8, _ => Num(1));
    assert |[row0, row0[..5]][1]| != |[row0, row0[..5]][0]|;
  }

  /** How the loop ends on a finite supply of draws: no files at all
      (`randint(0, -1)` raises), a crash on a ragged file or a short row, a
      winning draw, or
      still looking when the supply runs out. */
  datatype Outcome = NoFiles | Crashed(at: nat) | Won(at: nat, row: Row) | StillLooking

  /** Lines 27-41 on the draws `draws`, in order. */
  function RunLottery(files: seq<Table>, draws: seq<Draw>): (o: Outcome)
    requires forall i :: 0 <= i < |draws| ==> ValidDraw(files, draws[i])
    ensures o.NoFiles? <==> |files| == 0
    ensures o.Won? ==> o.at < |draws| && TryDraw(files, draws[o.at]) == Accepted(o.row)
    ensures o.Crashed? ==> o.at < |draws| && Raises(TryDraw(files, draws[o.at]))
    ensures o.Won? || o.Crashed? ==> forall j :: 0 <= j < o.at ==> Retries(TryDraw(files, draws[j]))
    ensures o.StillLooking? ==> forall j :: 0 <= j < |draws| ==> Retries(TryDraw(files, draws[j]))
    decreases |draws|
  {
    if |files| == 0 then NoFiles
    else if draws == [] then StillLooking
    else
      var first := TryDraw(files, draws[0]);
      if first.Accepted? then Won(0, first.row)
      else if Raises(first) then Crashed(0)
      else
        var later := RunLottery(files, draws[1..]);
        if later.Won? then Won(later.at + 1, later.row)
        else if later.Crashed? then Crashed(later.at + 1)
        else later
  }

  /** An amount and its delay in days. */
  datatype Offer = Offer(amount: Cell, delay: Cell)

  function FirstOffer(row: Row): Offer
    requires |row| > ChoiceColumn
  {
    Offer(row[FirstAmountColumn], row[FirstDelayColumn])
  }

  function SecondOffer(row: Row): Offer
    requires |row| > ChoiceColumn
  {
    Offer(row[SecondAmountColumn], row[SecondDelayColumn])
  }

  /** Lines 53-56: the offer the subject chose on an accepted row. */
  function Payout(row: Row): (paid: Offer)
    requires |row| > ChoiceColumn && row[ChoiceColumn].Num?
    ensures paid == FirstOffer(row) || paid == SecondOffer(row)
    ensures row[ChoiceColumn].value != 0 ==> paid == SecondOffer(row)
    ensures row[ChoiceColumn].value == 0 ==> paid == FirstOffer(row)
  {
    var choice := row[ChoiceColumn].value;
    if choice != 0 then Offer(row[SecondAmountColumn], row[SecondDelayColumn])
    else Offer(row[FirstAmountColumn], row[FirstDelayColumn])
  }

  /** Line 59: the ordinal of the payment day, `None` where `int(nan)` or
      `date.fromordinal` raises. */
  function PayDay(today: int, delay: Cell): (day: Option<int>)
    ensures day.Some? <==> delay.Num? && 1 <= today + delay.value <= MaxOrdinal
    ensures day.Some? ==> day.value - today == delay.value
  {
    match delay
    case NaN => None
    case Num(days) =>
      var ordinal := today + days;
      if 1 <= ordinal <= MaxOrdinal then Some(ordinal) else None
  }

  /** Line 44: the block and trial numbers shown, counted from one. */
  function ReportNumbers(files: seq<Table>, d: Draw): (numbers: (nat, nat))
    requires ValidDraw(files, d) && Eligible(files[d.file])
    ensures 1 <= numbers.0 <= |files| && numbers.0 - 1 == d.file
    ensures 1 <= numbers.1 <= |files[d.file]| && numbers.1 - 1 == d.trial
  {
    (d.file + 1, d.trial + 1)
  }
}
