/** The response window of one trial (python/nback.py, lines 181-196).

    The keyboard is a list of key events, each stamped with milliseconds since
    the letter appeared. `wait_char(keys, duration)` returns the first valid key
    pressed before `duration` has passed, with its time measured from the start
    of the wait, or nothing after waiting the whole duration. */
module ResponseWindow {
  import opened Wrappers
  import Scoring

  datatype KeyEvent = KeyEvent(key: char, time: nat)

  /** What one trial records: the button and reaction time, both absent when
      no valid key came, and how long the trial waited in total. */
  datatype Response = Response(button: Option<char>, rt: Option<nat>, elapsed: nat)

  /** The keys `wait_char` listens for. */
  function ValidKeys(): set<char>
  {
    {Scoring.NonTargetButton, Scoring.TargetButton}
  }

  predicate Catches(e: KeyEvent, from: nat, until: nat)
  {
    e.key in ValidKeys() && from <= e.time < until
  }

  /** Key events arrive in the order they happen. */
  predicate Chronological(events: seq<KeyEvent>)
  {
    forall i, j :: 0 <= i < j < |events| ==> events[i].time <= events[j].time
  }

  /** The position of the first event a wait from `from` to `until` catches. */
  function FirstCaught(events: seq<KeyEvent>, from: nat, until: nat): (r: Option<nat>)
    ensures r.Some? ==> r.value < |events| && Catches(events[r.value], from, until)
    ensures r.Some? ==> forall j :: 0 <= j < r.value ==> !Catches(events[j], from, until)
    ensures r.None? ==> forall j :: 0 <= j < |events| ==> !Catches(events[j], from, until)
    decreases |events|
  {
    if events == [] then None
    else if Catches(events[0], from, until) then Some(0)
    else
      match FirstCaught(events[1..], from, until)
      case None => None
      case Some(i) => Some(i + 1)
  }

  /** `response_device.wait_char([ntbutton, tbutton], duration)` started at
      time `from`: the key and its time since `from`. */
  function WaitChar(events: seq<KeyEvent>, from: nat, duration: nat): (r: (Option<char>, Option<nat>))
    ensures r.0.Some? <==> r.1.Some?
    ensures r.0.Some? ==> r.0.value in ValidKeys() && r.1.value < duration
  {
    match FirstCaught(events, from, from + duration)
    case None => (None, None)
    case Some(i) => (Some(events[i].key), Some(events[i].time - from))
  }

  /** Lines 182-196: listen while the letter is shown; if nothing came, listen
      again while the fixation cross is shown. Every wait is padded to its full
      length. */
  function CollectResponse(events: seq<KeyEvent>, stimt: nat, iti: nat): (r: Response)
    ensures r.elapsed == stimt + iti
    ensures r.button.Some? <==> r.rt.Some?
    ensures r.button.Some? ==> r.button.value in ValidKeys()
    ensures r.rt.Some? ==> r.rt.value < stimt || r.rt.value < iti
  {
    var (button, rt) := WaitChar(events, 0, stimt);
    var shown := if rt.Some? then rt.value + (stimt - rt.value) else stimt;
    if rt.Some? then
      Response(button, rt, shown + iti)
    else
      var (button', rt') := WaitChar(events, stimt, iti);
      var fixation := if rt'.Some? then rt'.value + (iti - rt'.value) else iti;
      Response(button', rt', shown + fixation)
  }

  lemma FirstCaughtUnique(events: seq<KeyEvent>, from: nat, until: nat, i: nat)
    requires i < |events| && Catches(events[i], from, until)
    requires forall j :: 0 <= j < i ==> !Catches(events[j], from, until)
    ensures FirstCaught(events, from, until) == Some(i)
  {
  }

  /** The recorded response is the first valid key of the whole trial: its
      reaction time counts from the letter's onset when it came while the
      letter was shown, and from the fixation cross's onset otherwise. */
  lemma ResponseIsFirstPress(events: seq<KeyEvent>, stimt: nat, iti: nat)
    requires Chronological(events)
    ensures var r := CollectResponse(events, stimt, iti);
      match FirstCaught(events, 0, stimt + iti)
      case None => r.button == None && r.rt == None
      case Some(i) =>
        && r.button == Some(events[i].key)
        && r.rt == Some(if events[i].time < stimt then events[i].time else events[i].time - stimt)
  {
    var whole := FirstCaught(events, 0, stimt + iti);
    var early := FirstCaught(events, 0, stimt);
    var late := FirstCaught(events, stimt, stimt + iti);
    match early
    case Some(i) =>
      assert Catches(events[i], 0, stimt + iti);
      forall j | 0 <= j < i
        ensures !Catches(events[j], 0, stimt + iti)
      {
        assert events[j].time <= events[i].time;
      }
      FirstCaughtUnique(events, 0, stimt + iti, i);
    case None =>
      match late
      case Some(i) =>
        FirstCaughtUnique(events, 0, stimt + iti, i);
      case None =>
        assert whole == None;
  }
}
