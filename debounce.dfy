/**
  The debounce state machine of the drowsiness detector, as pure functions.

  The machine has two pieces of state, the count of consecutive closed-eye
  faces (FRAME_COUNTER) and whether the alarm is armed (ALARM_ON). It is fed
  one combined EAR per processed face. A face below the threshold extends the
  run; once the run reaches the frame limit the alarm is armed, and the
  arming (the "trigger") happens once per episode. A face at or above the
  threshold ends the episode.

  Step is one face; Run and TriggerCount fold Step over a sequence of EARs.
  The lemmas below state the detector's guarantees about whole runs.
 */
module Debounce {
  import opened EyeGeometry

  /** EYE_AR_THRESH: a combined EAR below this counts as closed eyes. */
  const EyeArThresh: real := 0.25

  /** EYE_AR_CONSEC_FRAMES: closed-eye faces in a row that arm the alarm. */
  const EyeArConsecFrames: nat := 30

  /** FRAME_COUNTER and ALARM_ON. */
  datatype State = State(frameCounter: nat, alarmOn: bool)

  /** The state at start-up (and after every open-eye face). */
  const Initial: State := State(0, false)

  /** The effect of one face: the new state, whether the alarm was triggered
      (the moment the detector may start its playback thread), and whether
      the "DROWSINESS ALERT!" text is drawn for this face. */
  datatype Outcome = Outcome(next: State, trigger: bool, alert: bool)

  /** Reachable states: the alarm is armed exactly when the run of closed-eye
      faces has reached the frame limit. */
  ghost predicate Inv(s: State) {
    s.alarmOn <==> s.frameCounter >= EyeArConsecFrames
  }

  /** Whether a face's combined EAR counts as closed eyes. */
  predicate Low(ear: Ear) {
    Below(ear, EyeArThresh)
  }

  /** One processed face. */
  function Step(s: State, ear: Ear): (o: Outcome)
    ensures Low(ear) ==> o.next.frameCounter == s.frameCounter + 1
    ensures Low(ear) ==>
              o.next.alarmOn == (s.alarmOn || s.frameCounter + 1 >= EyeArConsecFrames)
    ensures !Low(ear) ==> o.next == Initial && !o.trigger
    ensures o.trigger <==> !s.alarmOn && o.next.alarmOn
    ensures o.alert <==> Low(ear) && s.frameCounter + 1 >= EyeArConsecFrames
  {
    if Low(ear) then
      var counter := s.frameCounter + 1;
      if counter >= EyeArConsecFrames then
        Outcome(State(counter, true), !s.alarmOn, true)
      else
        Outcome(State(counter, s.alarmOn), false, false)
    else
      Outcome(State(0, false), false, false)
  }

  /** The playback thread is started exactly when the alarm is triggered and
      an alarm sound was configured; arming itself does not depend on it. */
  predicate Playback(o: Outcome, alarmPath: string) {
    o.trigger && alarmPath != ""
  }

  /** The playback threads started for `triggers` triggers: one each, or
      none when no alarm sound is configured. */
  function Threads(alarmPath: string, triggers: nat): nat {
    if alarmPath == "" then 0 else triggers
  }

  /** Every step keeps the machine in a reachable state. */
  lemma StepPreservesInv(s: State, ear: Ear)
    requires Inv(s)
    ensures Inv(Step(s, ear).next)
  {
  }

  /** From a reachable state, a face triggers the alarm exactly when it is the
      N-th closed-eye face in a row. */
  lemma TriggerOnNthLowFace(s: State, ear: Ear)
    requires Inv(s)
    ensures Step(s, ear).trigger <==> Low(ear) && s.frameCounter + 1 == EyeArConsecFrames
  {
  }

  /** From a reachable state, the playback thread is started exactly for
      the N-th closed-eye face in a row, and only with an alarm sound. */
  lemma PlaybackOnNthLowFace(s: State, ear: Ear, alarmPath: string)
    requires Inv(s)
    ensures Playback(Step(s, ear), alarmPath) <==>
              alarmPath != "" && Low(ear) && s.frameCounter + 1 == EyeArConsecFrames
  {
  }

  /** From a reachable state, the alert text is drawn exactly for the faces
      after which the alarm is armed. */
  lemma AlertIffArmed(s: State, ear: Ear)
    requires Inv(s)
    ensures Step(s, ear).alert <==> Step(s, ear).next.alarmOn
  {
  }

  /** An open-eye face from the reset state changes nothing: resetting is
      idempotent. */
  lemma ResetIdempotent(s: State, ear: Ear, ear': Ear)
    requires !Low(ear) && !Low(ear')
    ensures Step(Step(s, ear).next, ear').next == Step(s, ear).next == Initial
    ensures !Step(Step(s, ear).next, ear').trigger
  {
  }

  /** The state after feeding a sequence of faces in order. */
  function Run(s: State, ears: seq<Ear>): (r: State)
    ensures Inv(s) ==> Inv(r)
    ensures |ears| > 0 && !Low(ears[|ears| - 1]) ==> r == Initial
    decreases |ears|
  {
    if ears == [] then s else Run(Step(s, ears[0]).next, ears[1..])
  }

  /** The number of triggers while feeding a sequence of faces in order.
      Each trigger needs the alarm to be disarmed, and only an open-eye face
      disarms it: triggers plus the final disarmed flag never exceed the
      initial one plus the resets, so two triggers always have a reset
      between them. */
  function TriggerCount(s: State, ears: seq<Ear>): (n: nat)
    ensures n + Disarmed(Run(s, ears)) <= Disarmed(s) + Resets(ears)
    decreases |ears|
  {
    if ears == [] then 0
    else
      var o := Step(s, ears[0]);
      (if o.trigger then 1 else 0) + TriggerCount(o.next, ears[1..])
  }

  /** The playback threads started while feeding a sequence of faces, one
      decision per face. */
  function PlaybackCount(s: State, ears: seq<Ear>, alarmPath: string): nat
    decreases |ears|
  {
    if ears == [] then 0
    else
      var o := Step(s, ears[0]);
      (if Playback(o, alarmPath) then 1 else 0) + PlaybackCount(o.next, ears[1..], alarmPath)
  }

  /** The per-face playback decisions add up to one thread per trigger, or
      to none at all without an alarm sound. */
  lemma {:induction false} PlaybacksFollowTriggers(s: State, ears: seq<Ear>, alarmPath: string)
    ensures PlaybackCount(s, ears, alarmPath) == Threads(alarmPath, TriggerCount(s, ears))
    decreases |ears|
  {
    if ears != [] {
      PlaybacksFollowTriggers(Step(s, ears[0]).next, ears[1..], alarmPath);
    }
  }

  /** Number of open-eye faces in a sequence, i.e. of episode resets. */
  function Resets(ears: seq<Ear>): (n: nat)
    ensures n <= |ears|
    ensures n == 0 <==> AllLow(ears)
  {
    if ears == [] then 0
    else (if Low(ears[0]) then 0 else 1) + Resets(ears[1..])
  }

  /** Every face in the sequence has closed eyes. */
  predicate AllLow(ears: seq<Ear>) {
    forall i :: 0 <= i < |ears| ==> Low(ears[i])
  }

  /** 1 when a trigger is still possible without a reset, 0 once armed. */
  function Disarmed(s: State): nat {
    if s.alarmOn then 0 else 1
  }

  /** Feeding two sequences one after the other is feeding their
      concatenation: states compose and triggers add up. */
  lemma {:induction false} RunAppend(s: State, xs: seq<Ear>, ys: seq<Ear>)
    ensures Run(s, xs + ys) == Run(Run(s, xs), ys)
    ensures TriggerCount(s, xs + ys) == TriggerCount(s, xs) + TriggerCount(Run(s, xs), ys)
    decreases |xs|
  {
    if xs == [] {
      assert xs + ys == ys;
    } else {
      assert (xs + ys)[0] == xs[0];
      assert (xs + ys)[1..] == xs[1..] + ys;
      RunAppend(Step(s, xs[0]).next, xs[1..], ys);
    }
  }

  /** Within one episode (no open-eye face) there is at most one trigger, and
      none at all if the alarm is already armed. */
  lemma AtMostOneTriggerPerEpisode(s: State, ears: seq<Ear>)
    requires AllLow(ears)
    ensures TriggerCount(s, ears) <= Disarmed(s)
    ensures s.alarmOn ==> TriggerCount(s, ears) == 0
  {
  }

  /** Within one episode the alarm sound is started at most once, and not
      at all if the alarm is already armed. */
  lemma AtMostOnePlaybackPerEpisode(s: State, ears: seq<Ear>, alarmPath: string)
    requires AllLow(ears)
    ensures PlaybackCount(s, ears, alarmPath) <= Disarmed(s)
  {
    PlaybacksFollowTriggers(s, ears, alarmPath);
  }

  /** Two triggers always have an open-eye face between them: the first
      arms the alarm, and only a reset disarms it again. */
  lemma TriggersSeparatedByReset(s: State, xs: seq<Ear>, y: Ear, ys: seq<Ear>, z: Ear)
    requires Step(Run(s, xs), y).trigger
    requires Step(Run(s, xs + [y] + ys), z).trigger
    ensures Resets(ys) >= 1
  {
    RunAppend(s, xs, [y]);
    RunAppend(s, xs + [y], ys);
  }

  /** A run of k closed-eye faces from a reachable state adds k to the
      counter, arms the alarm once the limit is reached, and triggers exactly
      once if the run crosses the limit. */
  lemma {:induction false} LowRun(s: State, ears: seq<Ear>)
    requires Inv(s) && AllLow(ears)
    ensures Run(s, ears).frameCounter == s.frameCounter + |ears|
    ensures Run(s, ears).alarmOn == (s.frameCounter + |ears| >= EyeArConsecFrames)
    ensures TriggerCount(s, ears) ==
              if s.frameCounter < EyeArConsecFrames <= s.frameCounter + |ears| then 1 else 0
    decreases |ears|
  {
    if ears != [] {
      assert Low(ears[0]);
      LowRun(Step(s, ears[0]).next, ears[1..]);
    }
  }

  /** Every face in the sequence has open eyes. */
  predicate AllOpen(ears: seq<Ear>) {
    forall i :: 0 <= i < |ears| ==> !Low(ears[i])
  }

  /** A run of open-eye faces never triggers, and any non-empty one leaves
      the machine in its initial state, whatever state it started from. */
  lemma {:induction false} OpenRunResets(s: State, ears: seq<Ear>)
    requires AllOpen(ears)
    ensures TriggerCount(s, ears) == 0
    ensures ears != [] ==> Run(s, ears) == Initial
    decreases |ears|
  {
    if ears != [] {
      assert !Low(ears[0]);
      OpenRunResets(Initial, ears[1..]);
    }
  }

  /** Boundary just below: fewer than N closed-eye faces from start-up never
      trigger and leave the alarm off; one open-eye face after them returns
      the machine to its initial state, still without a trigger. */
  lemma BelowLimitNeverTriggers(ears: seq<Ear>, open: Ear)
    requires AllLow(ears) && |ears| < EyeArConsecFrames
    requires !Low(open)
    ensures TriggerCount(Initial, ears) == 0
    ensures Run(Initial, ears) == State(|ears|, false)
    ensures Run(Initial, ears + [open]) == Initial
    ensures TriggerCount(Initial, ears + [open]) == 0
  {
    LowRun(Initial, ears);
    RunAppend(Initial, ears, [open]);
  }

  /** Boundary exact: N closed-eye faces from start-up trigger exactly once,
      and the trigger comes from the N-th face. */
  lemma LimitTriggersOnce(ears: seq<Ear>)
    requires AllLow(ears) && |ears| == EyeArConsecFrames
    ensures TriggerCount(Initial, ears) == 1
    ensures Run(Initial, ears) == State(EyeArConsecFrames, true)
    ensures TriggerCount(Initial, ears[..|ears| - 1]) == 0
    ensures Step(Run(Initial, ears[..|ears| - 1]), ears[|ears| - 1]).trigger
  {
    var front := ears[..|ears| - 1];
    LowRun(Initial, ears);
    LowRun(Initial, front);
    assert front + [ears[|ears| - 1]] == ears;
    RunAppend(Initial, front, [ears[|ears| - 1]]);
  }

  /** After an open-eye face, from any reachable state, N closed-eye faces
      start a new episode with exactly one new trigger. */
  lemma NewEpisodeAfterReset(s: State, open: Ear, ears: seq<Ear>)
    requires Inv(s) && !Low(open)
    requires AllLow(ears) && |ears| == EyeArConsecFrames
    ensures TriggerCount(s, [open] + ears) == 1
    ensures Run(s, [open] + ears) == State(EyeArConsecFrames, true)
  {
    RunAppend(s, [open], ears);
    LowRun(Initial, ears);
  }

  /** The end-to-end scenario: 5 open, 30 closed, 5 open faces. The alarm is
      armed at index 34 (the 30th closed face) with one trigger, held there,
      and cleared by the following open faces. */
  lemma EndToEndScenario()
    ensures var ears := seq(5, _ => Finite(0.30)) + seq(30, _ => Finite(0.10)) + seq(5, _ => Finite(0.30));
            && TriggerCount(Initial, ears) == 1
            && Run(Initial, ears[..34]) == State(29, false)
            && Step(Run(Initial, ears[..34]), ears[34]).trigger
            && Run(Initial, ears[..35]) == State(30, true)
            && Run(Initial, ears) == Initial
  {
    var opens: seq<Ear> := seq(5, _ => Finite(0.30));
    var closed: seq<Ear> := seq(30, _ => Finite(0.10));
    var ears := opens + closed + opens;
    assert AllLow(closed);
    // The opening faces leave the machine where it started.
    assert AllOpen(opens);
    OpenRunResets(Initial, opens);
    // The closed run, with and without its last face.
    LowRun(Initial, closed);
    LowRun(Initial, closed[..29]);
    assert ears[..34] == opens + closed[..29];
    assert ears[..35] == opens + closed;
    assert ears[34] == closed[29];
    RunAppend(Initial, opens, closed[..29]);
    RunAppend(Initial, opens, closed);
    // The closing faces reset the machine without triggering.
    RunAppend(Initial, opens + closed, opens);
    OpenRunResets(State(30, true), opens);
  }
}
