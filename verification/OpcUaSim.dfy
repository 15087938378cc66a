/** The batch cycle of the OPC UA simulator, `bin/opcua_sim.rs`, and what the batch tracker makes of it. */
module OpcUaSim {
  import opened Batches

  datatype Sim = Sim(tickCount: nat, batchState: nat, batchProgress: nat, agitatorRpm: nat)

  const DEFAULT := Sim(0, 0, 0, 0)

  function AtMost(a: nat, cap: nat): nat {
    if a <= cap then a else cap
  }

  function Rpm(batchState: nat): nat {
    match batchState
    case 1 => 150
    case 2 => 300
    case 3 => 100
    case _ => 0
  }

  function Ticked(s: Sim): Sim {
    var t := s.tickCount + 1;
    var (state, progress) :=
      match s.batchState
      case 0 => if t % 60 == 10 then (1, 0) else (0, s.batchProgress)
      case 1 => var p := AtMost(s.batchProgress + 2, 30); (if p >= 30 then 2 else 1, p)
      case 2 => var p := AtMost(s.batchProgress + 1, 90); (if p >= 90 then 3 else 2, p)
      case 3 => var p := AtMost(s.batchProgress + 1, 100); (if p >= 100 then 4 else 3, p)
      case 4 => if t % 60 == 0 then (0, 0) else (4, s.batchProgress)
      case _ => (0, s.batchProgress);
    Sim(t, state, progress, Rpm(state))
  }

  class SimState {
    var tickCount: nat
    var batchState: nat
    var batchProgress: nat
    var agitatorRpm: nat

    function View(): Sim
      reads this
    {
      Sim(tickCount, batchState, batchProgress, agitatorRpm)
    }

    constructor Default()
      ensures View() == DEFAULT
    {
      tickCount, batchState, batchProgress, agitatorRpm := 0, 0, 0, 0;
    }

    method Tick()
      modifies this
      ensures View() == Ticked(old(View()))
      ensures OnCycle(old(View())) ==> OnCycle(View())
    {
      CycleStep(View());
      tickCount := tickCount + 1;
      match batchState {
        case 0 =>
          if tickCount % 60 == 10 {
            batchState := 1;
            batchProgress := 0;
          }
        case 1 =>
          batchProgress := AtMost(batchProgress + 2, 30);
          if batchProgress >= 30 {
            batchState := 2;
          }
        case 2 =>
          batchProgress := AtMost(batchProgress + 1, 90);
          if batchProgress >= 90 {
            batchState := 3;
          }
        case 3 =>
          batchProgress := AtMost(batchProgress + 1, 100);
          if batchProgress >= 100 {
            batchState := 4;
          }
        case 4 =>
          if tickCount % 60 == 0 {
            batchState := 0;
            batchProgress := 0;
          }
        case _ =>
          batchState := 0;
      }
      agitatorRpm := match batchState { case 1 => 150 case 2 => 300 case 3 => 100 case _ => 0 };
    }
  }

  // ---- The cycle in closed form ----

  /** The cycle by the position m in it. */
  function StateIn(m: nat): nat {
    if m < 10 then 0 else if m < 25 then 1 else if m < 85 then 2 else if m < 95 then 3 else 4
  }

  function ProgressIn(m: nat): nat {
    if m < 10 then 0
    else if m < 25 then 2 * (m - 10)
    else if m < 95 then m + 5
    else 100
  }

  function StateAt(t: nat): nat {
    StateIn(t % 120)
  }

  function ProgressAt(t: nat): nat {
    ProgressIn(t % 120)
  }

  predicate OnCycle(s: Sim) {
    s == Sim(s.tickCount, StateAt(s.tickCount), ProgressAt(s.tickCount), Rpm(StateAt(s.tickCount)))
  }

  lemma Mod60(t: nat, k: nat, m: nat)
    requires t == 60 * k + m && m < 60
    ensures t % 60 == m
  {}

  lemma Mod120(t: nat, k: nat, m: nat)
    requires t == 120 * k + m && m < 120
    ensures t % 120 == m
  {}

  lemma NextMinute(t: nat)
    ensures var m := t % 120;
            && (t + 1) % 120 == (if m == 119 then 0 else m + 1)
            && (t + 1) % 60 == (if m == 119 || m == 59 then 0 else if m < 59 then m + 1 else m - 59)
  {
    var q, m := t / 120, t % 120;
    assert t == 120 * q + m;
    if m == 119 {
      Mod120(t + 1, q + 1, 0);
      Mod60(t + 1, 2 * q + 2, 0);
    } else {
      Mod120(t + 1, q, m + 1);
      if m < 59 {
        Mod60(t + 1, 2 * q, m + 1);
      } else {
        Mod60(t + 1, 2 * q + 1, m - 59);
      }
    }
  }

  lemma CycleStep(s: Sim)
    ensures OnCycle(s) ==> OnCycle(Ticked(s))
  {
    NextMinute(s.tickCount);
    hide Rpm;
  }

  /** A code that is no phase becomes idle. */
  lemma UnknownStateResets(s: Sim)
    requires s.batchState > 4
    ensures Ticked(s).batchState == 0 && Ticked(s).batchProgress == s.batchProgress && Ticked(s).agitatorRpm == 0
  {}

  function AfterTicks(n: nat): Sim {
    if n == 0 then DEFAULT else Ticked(AfterTicks(n - 1))
  }

  /** The simulator repeats itself every 120 ticks: state and progress depend on the tick alone. */
  lemma {:induction false} ClosedForm(n: nat)
    ensures AfterTicks(n) == Sim(n, StateAt(n), ProgressAt(n), Rpm(StateAt(n)))
  {
    if n > 0 {
      ClosedForm(n - 1);
      hide StateAt, ProgressAt, Rpm;
      CycleStep(AfterTicks(n - 1));
      assert Ticked(AfterTicks(n - 1)).tickCount == n;
    }
  }

  /** The cycle as a table: ticks since the start of the cycle, state, progress, and agitator speed. */
  lemma {:induction false} CycleTable(n: nat)
    ensures var (s, m) := (AfterTicks(n), n % 120);
            && s.tickCount == n
            && (m < 10 ==> s.batchState == 0 && s.batchProgress == 0 && s.agitatorRpm == 0)
            && (10 <= m < 25 ==> s.batchState == 1 && s.batchProgress == 2 * (m - 10) && s.agitatorRpm == 150)
            && (25 <= m < 85 ==> s.batchState == 2 && s.batchProgress == m + 5 && s.agitatorRpm == 300)
            && (85 <= m < 95 ==> s.batchState == 3 && s.batchProgress == m + 5 && s.agitatorRpm == 100)
            && (95 <= m ==> s.batchState == 4 && s.batchProgress == 100 && s.agitatorRpm == 0)
  {
    ClosedForm(n);
    hide AfterTicks;
  }

  // ---- Sampling the cycle with the tracker ----

  /** Sampled from the start, at increasing ticks that are at most `gap` apart. */
  predicate SampledWithin(ticks: seq<nat>, gap: nat) {
    ticks != [] && ticks[0] == 0 &&
    forall i :: 0 < i < |ticks| ==> ticks[i - 1] < ticks[i] <= ticks[i - 1] + gap
  }

  predicate Sampled(ticks: seq<nat>) {
    SampledWithin(ticks, 10)
  }

  /** The observations made at those ticks; the clock is arbitrary. */
  predicate ObservedAt(obs: seq<Observation>, ticks: seq<nat>) {
    |obs| == |ticks| && forall i :: 0 <= i < |obs| ==> obs[i].code == AfterTicks(ticks[i]).batchState
  }

  lemma LastOpenStep(obs: seq<Observation>, o: Observation)
    ensures LastOpen(obs + [o]) <==> StartsAt(obs + [o], |obs|) || (LastOpen(obs) && !Ends(o))
  {
    var more := obs + [o];
    StartsStep(obs, o);
    StartsInRange(obs);
    if !StartsAt(more, |obs|) && Starts(obs) != [] {
      var p := Starts(obs)[|Starts(obs)| - 1];
      assert StartsAt(obs, p);
      assert IsOpen(more, p) <==> IsOpen(obs, p) && !Ends(o) by {
        assert more[|obs|] == o;
        assert forall q :: p < q < |obs| ==> more[q] == obs[q];
      }
    }
  }

  /** How the counts move with one observation. */
  lemma CountsStep(device: string, obs: seq<Observation>, o: Observation)
    ensures var before, after := Expected(device, obs), Expected(device, obs + [o]);
            var closes := LastOpen(obs) && Ends(o);
            && |after| == |before| + (if StartsAt(obs + [o], |obs|) then 1 else 0)
            && Count(after, Completed) == Count(before, Completed) + (if closes && o.code == COMPLETE then 1 else 0)
            && Count(after, Aborted) == Count(before, Aborted) + (if closes && o.code == IDLE then 1 else 0)
  {
    var before, after, n := Expected(device, obs), Expected(device, obs + [o]), |Starts(obs)|;
    ExpectedStep(device, obs, o);
    ExpectedPointwise(device, obs, o);
    ExpectedShape(device, obs);
    hide Expected, Starts, BatchId, IsOpen;
    if StartsAt(obs + [o], |obs|) {
      assert after[..n] == before;
    } else if LastOpen(obs) && Ends(o) {
      assert after[..n - 1] == before[..n - 1];
    }
  }

  /** Batches started and completed by tick t. */
  function StartedBy(t: nat): nat {
    (t + 110) / 120
  }

  function CompletedBy(t: nat): nat {
    (t + 25) / 120
  }

  predicate InProgress(t: nat) {
    1 <= StateAt(t) <= 3
  }

  lemma CycleArithmetic(s: nat, t: nat)
    requires s < t <= s + 10
    ensures StartedBy(t) == StartedBy(s) + (if StateAt(s) == 0 && StateAt(t) == 1 then 1 else 0)
    ensures CompletedBy(t) == CompletedBy(s) + (if InProgress(s) && StateAt(t) == 4 then 1 else 0)
    ensures InProgress(s) ==> StateAt(t) != 0
    ensures InProgress(t) <==> (StateAt(s) == 0 && StateAt(t) == 1) || (InProgress(s) && StateAt(t) != 4)
  {
    var q, m := s / 120, s % 120;
    var n := m + (t - s);
    assert s == 120 * q + m && t == 120 * q + n;
    CyclePosition(s, q, m);
    if n < 120 {
      CyclePosition(t, q, n);
    } else {
      assert t == 120 * (q + 1) + (n - 120);
      CyclePosition(t, q + 1, n - 120);
    }
    hide StartedBy, CompletedBy, StateAt;
  }

  lemma CyclePosition(t: nat, q: nat, m: nat)
    requires t == 120 * q + m && m < 120
    ensures StateAt(t) == StateIn(m)
    ensures StartedBy(t) == q + (if m >= 10 then 1 else 0)
    ensures CompletedBy(t) == q + (if m >= 95 then 1 else 0)
  {
    hide StateIn;
    Mod120(t, q, m);
  }

  ghost predicate CountsAt(device: string, obs: seq<Observation>, t: nat) {
    var rows := Expected(device, obs);
    && |rows| == StartedBy(t) && Count(rows, Completed) == CompletedBy(t) && Count(rows, Aborted) == 0
    && (LastOpen(obs) <==> InProgress(t))
  }

  lemma FirstSample(device: string, obs: seq<Observation>, o: Observation)
    requires obs == [] && o.code == AfterTicks(0).batchState
    ensures CountsAt(device, obs + [o], 0)
  {
    CountsStep(device, obs, o);
    LastOpenStep(obs, o);
  }

  lemma NextSample(device: string, obs: seq<Observation>, s: nat, o: Observation, t: nat)
    requires CountsAt(device, obs, s) && obs != [] && obs[|obs| - 1].code == StateAt(s)
    requires o.code == StateAt(t) && s < t <= s + 10
    ensures CountsAt(device, obs + [o], t)
  {
    hide Expected, Starts, LastOpen, Count, StateAt, StartedBy, CompletedBy;
    CountsStep(device, obs, o);
    LastOpenStep(obs, o);
    CycleArithmetic(s, t);
  }

  lemma SampledPrefix(ticks: seq<nat>, obs: seq<Observation>)
    requires Sampled(ticks) && ObservedAt(obs, ticks) && |ticks| > 1
    ensures var n := |ticks| - 1;
            Sampled(ticks[..n]) && ObservedAt(obs[..n], ticks[..n]) && ticks[n - 1] < ticks[n] <= ticks[n - 1] + 10
  {
    hide AfterTicks;
  }

  /** The code observed at a tick. */
  lemma ObservedCode(ticks: seq<nat>, obs: seq<Observation>, i: nat)
    requires ObservedAt(obs, ticks) && i < |ticks|
    ensures i < |obs| && obs[i].code == StateAt(ticks[i]) == AfterTicks(ticks[i]).batchState
  {
    hide StateAt, AfterTicks;
    ClosedForm(ticks[i]);
  }

  /** The counts depend on the tick of the last sample alone. */
  lemma {:induction false} SamplingCounts(device: string, ticks: seq<nat>, obs: seq<Observation>)
    requires Sampled(ticks) && ObservedAt(obs, ticks)
    ensures CountsAt(device, obs, ticks[|ticks| - 1])
  {
    var n := |ticks| - 1;
    assert |obs| == n + 1 && (n == 0 ==> ticks[0] == 0);
    hide Sampled, SampledWithin, ObservedAt, CountsAt, AfterTicks, StateAt;
    var o := obs[n];
    assert obs == obs[..n] + [o];
    ObservedCode(ticks, obs, n);
    if n == 0 {
      FirstSample(device, obs[..n], o);
    } else {
      SampledPrefix(ticks, obs);
      ObservedCode(ticks, obs, n - 1);
      SamplingCounts(device, ticks[..n], obs[..n]);
      NextSample(device, obs[..n], ticks[n - 1], o, ticks[n]);
    }
  }

  /** The stored records count every batch of the simulator up to tick t, and none is aborted. */
  ghost predicate CountsRight(polls: seq<Poll>, device: string, t: nat) {
    var rows := RowsOf(After(polls).rows, device);
    |rows| == (t + 110) / 120 && Count(rows, Completed) == (t + 25) / 120 && Count(rows, Aborted) == 0
  }

  /** End to end: the simulator, sampled by the polling loop, next to any other devices. */
  lemma SamplingTheorem(polls: seq<Poll>, device: string, ticks: seq<nat>)
    requires Sampled(ticks) && ObservedAt(SeenBy(polls, device), ticks)
    ensures CountsRight(polls, device, ticks[|ticks| - 1])
  {
    RecordsAsExpected(polls, device);
    SamplingCounts(device, ticks, SeenBy(polls, device));
  }

  // ---- Ten is the most that works ----

  lemma ElevenLater(t: nat)
    requires t % 120 == 119
    ensures StartedBy(t + 11) == StartedBy(t) + 1
  {
    assert t == 120 * (t / 120) + 119;
  }

  /** A gap of 11 across the idle phase sees COMPLETE and then HEATING, but no start. */
  lemma GapOfElevenMissesTheStart(device: string, ticks: seq<nat>, obs: seq<Observation>, o: Observation)
    requires Sampled(ticks) && ObservedAt(obs, ticks) && ticks[|ticks| - 1] % 120 == 119
    requires o.code == AfterTicks(ticks[|ticks| - 1] + 11).batchState
    ensures |Expected(device, obs + [o])| == StartedBy(ticks[|ticks| - 1] + 11) - 1
  {
    var t := ticks[|ticks| - 1];
    SamplingCounts(device, ticks, obs);
    ClosedForm(t);
    ClosedForm(t + 11);
    ElevenLater(t);
    assert obs[|obs| - 1].code == StateAt(t) == 4 by {
      assert obs[|obs| - 1].code == AfterTicks(t).batchState;
    }
    hide Expected, Starts, LastOpen, Count, AfterTicks, ProgressAt;
    CountsStep(device, obs, o);
  }

  /** After any properly sampled cycles, one gap of 11 from the last tick of a cycle leaves a batch unrecorded. */
  lemma GapOfElevenLosesABatch(polls: seq<Poll>, device: string, ticks: seq<nat>)
    requires Sampled(ticks) && ticks[|ticks| - 1] % 120 == 119
    requires ObservedAt(SeenBy(polls, device), ticks + [ticks[|ticks| - 1] + 11])
    ensures |RowsOf(After(polls).rows, device)| == (ticks[|ticks| - 1] + 11 + 110) / 120 - 1
  {
    var obs := SeenBy(polls, device);
    var n := |ticks|;
    assert obs == obs[..n] + [obs[n]];
    RecordsAsExpected(polls, device);
    hide After, AfterTicks, Expected, SeenBy, RowsOf;
    GapOfElevenMissesTheStart(device, ticks, obs[..n], obs[n]);
  }

  /** The polls of one device at the given ticks. */
  function PollsAt(device: string, ticks: seq<nat>): seq<Poll> {
    seq(|ticks|, i requires 0 <= i < |ticks| => Poll(device, AfterTicks(ticks[i]).batchState, 0))
  }

  lemma {:induction false} PollsObserve(device: string, ticks: seq<nat>)
    ensures ObservedAt(SeenBy(PollsAt(device, ticks), device), ticks)
  {
    hide AfterTicks;
    if ticks != [] {
      var n := |ticks| - 1;
      PollsObserve(device, ticks[..n]);
      assert PollsAt(device, ticks)[..n] == PollsAt(device, ticks[..n]);
    }
  }

  /** Every tick of the first cycle. */
  function FirstCycle(): seq<nat> {
    seq(120, i => i)
  }

  /** However the polls of other devices fall, and whatever the run, sampling with such gaps counts right. */
  ghost predicate SamplingWorks(device: string, gap: nat) {
    forall polls: seq<Poll>, ticks: seq<nat> | SampledWithin(ticks, gap) && ObservedAt(SeenBy(polls, device), ticks) ::
      CountsRight(polls, device, ticks[|ticks| - 1])
  }

  lemma FirstCycleAndEleven(gap: nat)
    requires gap > 10
    ensures Sampled(FirstCycle()) && FirstCycle()[|FirstCycle()| - 1] == 119
    ensures SampledWithin(FirstCycle() + [130], gap)
  {}

  lemma WiderGapsFail(device: string, gap: nat) returns (polls: seq<Poll>, ticks: seq<nat>)
    requires gap > 10
    ensures SampledWithin(ticks, gap) && ObservedAt(SeenBy(polls, device), ticks)
    ensures !CountsRight(polls, device, ticks[|ticks| - 1])
  {
    ticks := FirstCycle() + [130];
    polls := PollsAt(device, ticks);
    PollsObserve(device, ticks);
    FirstCycleAndEleven(gap);
    hide SeenBy, ObservedAt, After, RowsOf, PollsAt, FirstCycle, Sampled, SampledWithin;
    GapOfElevenLosesABatch(polls, device, FirstCycle());
  }

  /** Sampling with gaps of at most `gap` ticks always counts right if and only if `gap` is at most 10. */
  lemma SamplingWorksIff(device: string, gap: nat)
    ensures SamplingWorks(device, gap) <==> gap <= 10
  {
    if gap <= 10 {
      hide ObservedAt, SeenBy, CountsRight;
      forall polls: seq<Poll>, ticks: seq<nat> | SampledWithin(ticks, gap) && ObservedAt(SeenBy(polls, device), ticks)
        ensures CountsRight(polls, device, ticks[|ticks| - 1])
      {
        SamplingTheorem(polls, device, ticks);
      }
    } else {
      hide ObservedAt, SeenBy, CountsRight;
      var polls, ticks := WiderGapsFail(device, gap);
    }
  }

  // ---- Arbitrary gaps: what becomes of each cycle ----

  predicate Rising(ticks: seq<nat>) {
    forall i, j :: 0 <= i < j < |ticks| ==> ticks[i] < ticks[j]
  }

  function Cycle(t: nat): nat {
    t / 120
  }

  /** Consecutive samples in an idle phase and in the heating phase that the p-th one falls into. */
  predicate SeesStart(ticks: seq<nat>, p: nat) {
    1 <= p < |ticks| && StateAt(ticks[p - 1]) == 0 && StateAt(ticks[p]) == 1
  }

  /** The n-th stored record of the device is that of the batch which sample p saw starting. */
  ghost predicate IsRecordOf(polls: seq<Poll>, device: string, n: nat, p: nat) {
    var (rows, obs) := (RowsOf(After(polls).rows, device), SeenBy(polls, device));
    && n < |rows| && n < |Starts(obs)| && Starts(obs)[n] == p < |obs|
    && rows[n] == Outcome(device, n + 1, obs, p, p + 1)
  }

  ghost predicate CycleRecorded(polls: seq<Poll>, device: string, ticks: seq<nat>, cycle: nat) {
    exists n: nat, p: nat :: IsRecordOf(polls, device, n, p) && p < |ticks| && Cycle(ticks[p]) == cycle
  }

  lemma StartsAreSeen(ticks: seq<nat>, obs: seq<Observation>, p: nat)
    requires ObservedAt(obs, ticks)
    ensures StartsAt(obs, p) <==> SeesStart(ticks, p)
  {
    if 1 <= p < |ticks| {
      ObservedCode(ticks, obs, p - 1);
      ObservedCode(ticks, obs, p);
    }
    hide AfterTicks, StateAt;
  }

  lemma RecordSeesStart(polls: seq<Poll>, device: string, ticks: seq<nat>, n: nat, p: nat)
    requires ObservedAt(SeenBy(polls, device), ticks) && IsRecordOf(polls, device, n, p)
    ensures p < |ticks| && SeesStart(ticks, p)
  {
    var obs := SeenBy(polls, device);
    StartsInRange(obs);
    hide SeenBy, After, RowsOf, Outcome, Starts;
    StartsAreSeen(ticks, obs, p);
  }

  /**
   * However the samples fall: a cycle's batch is recorded if and only if a sample in its heating phase comes right
   * after one in an idle phase, its own or an earlier one.
   */
  lemma CycleRecordedIff(polls: seq<Poll>, device: string, ticks: seq<nat>, cycle: nat)
    requires ObservedAt(SeenBy(polls, device), ticks)
    ensures CycleRecorded(polls, device, ticks, cycle) <==>
            exists p: nat :: SeesStart(ticks, p) && Cycle(ticks[p]) == cycle
  {
    hide IsRecordOf, Cycle, ObservedAt, SeenBy, StateAt;
    if CycleRecorded(polls, device, ticks, cycle) {
      var n: nat, p: nat :| IsRecordOf(polls, device, n, p) && p < |ticks| && Cycle(ticks[p]) == cycle;
      RecordSeesStart(polls, device, ticks, n, p);
    }
    if p: nat :| SeesStart(ticks, p) && Cycle(ticks[p]) == cycle {
      var n := SeenStartIsRecorded(polls, device, ticks, p);
    }
  }

  lemma SeenStartIsRecorded(polls: seq<Poll>, device: string, ticks: seq<nat>, p: nat) returns (n: nat)
    requires ObservedAt(SeenBy(polls, device), ticks) && SeesStart(ticks, p)
    ensures IsRecordOf(polls, device, n, p)
  {
    StartsAreSeen(ticks, SeenBy(polls, device), p);
    hide After, SeenBy, RowsOf, Starts, Outcome;
    n := EveryStartIsRecorded(polls, device, p);
  }

  lemma PhaseTimes(t: nat)
    ensures StateAt(t) == 0 ==> t < 120 * Cycle(t) + 10
    ensures StateAt(t) == 1 ==> t >= 120 * Cycle(t) + 10
    ensures 120 * Cycle(t) <= t < 120 * Cycle(t) + 120
  {}

  /** The sample that a start is seen with, and the idle one before it. */
  lemma StartPhases(polls: seq<Poll>, device: string, ticks: seq<nat>, n: nat, p: nat)
    requires ObservedAt(SeenBy(polls, device), ticks) && IsRecordOf(polls, device, n, p)
    ensures 1 <= p < |ticks| && StateAt(ticks[p - 1]) == 0 && StateAt(ticks[p]) == 1
  {
    RecordSeesStart(polls, device, ticks, n, p);
    hide IsRecordOf, ObservedAt, SeenBy, StateAt;
  }

  lemma SampleBefore(ticks: seq<nat>, p: nat, q: nat)
    requires Rising(ticks) && p < q < |ticks|
    ensures ticks[p] <= ticks[q - 1] < ticks[q]
  {}

  lemma OneRecordEach(polls: seq<Poll>, device: string, n: nat, m: nat, p: nat)
    requires IsRecordOf(polls, device, n, p) && IsRecordOf(polls, device, m, p)
    ensures n == m
  {
    StartsInRange(SeenBy(polls, device));
    hide SeenBy, After, RowsOf, Starts, StartsAt, Outcome;
  }

  /** No cycle has two records. */
  lemma {:induction false} CycleRecordedOnce(polls: seq<Poll>, device: string, ticks: seq<nat>, n: nat, p: nat,
                                             m: nat, q: nat)
    requires Rising(ticks) && ObservedAt(SeenBy(polls, device), ticks)
    requires IsRecordOf(polls, device, n, p) && IsRecordOf(polls, device, m, q)
    requires p < |ticks| && q < |ticks| && Cycle(ticks[p]) == Cycle(ticks[q])
    ensures n == m && p == q
  {
    hide *;
    StartPhases(polls, device, ticks, n, p);
    StartPhases(polls, device, ticks, m, q);
    if p < q {
      SampleBefore(ticks, p, q);
      LaterStartIsLater(ticks[p], ticks[q - 1], ticks[q]);
    } else if q < p {
      SampleBefore(ticks, q, p);
      LaterStartIsLater(ticks[q], ticks[p - 1], ticks[p]);
    } else {
      OneRecordEach(polls, device, n, m, p);
    }
  }

  /** A start, an idle sample, and another start lie in two cycles at least. */
  lemma LaterStartIsLater(t: nat, u: nat, v: nat)
    requires t <= u < v && StateAt(t) == 1 && StateAt(u) == 0 && StateAt(v) == 1
    ensures Cycle(t) < Cycle(v)
  {
    PhaseTimes(t);
    PhaseTimes(u);
    PhaseTimes(v);
    hide StateAt, Cycle;
  }

  /** The first sample after p in a phase that ends a batch. */
  predicate FirstEnd(ticks: seq<nat>, p: nat, r: int) {
    p < r < |ticks| && StateAt(ticks[r]) in {0, 4} && forall m :: p < m < r ==> StateAt(ticks[m]) !in {0, 4}
  }

  lemma FirstEndIsSeen(ticks: seq<nat>, obs: seq<Observation>, p: nat, r: int)
    requires ObservedAt(obs, ticks)
    ensures FirstEnd(ticks, p, r) ==> EndsFirst(obs, p, r) && (obs[r].code == COMPLETE <==> StateAt(ticks[r]) == 4)
    ensures (forall m :: p < m < |ticks| ==> StateAt(ticks[m]) !in {0, 4}) ==>
              forall m :: p < m < |obs| ==> !Ends(obs[m])
  {
    assert |obs| == |ticks|;
    hide StateAt, AfterTicks, ObservedAt;
    forall m: nat | m < |ticks|
      ensures Ends(obs[m]) <==> StateAt(ticks[m]) in {0, 4}
    {
      ObservedCode(ticks, obs, m);
    }
    if 0 <= r < |ticks| {
      ObservedCode(ticks, obs, r);
    }
  }

  /**
   * A record is completed or aborted by the first later sample in COMPLETE or in an idle phase, according to which of
   * the two it is; without such a sample (r is -1) it is still running.
   */
  lemma {:induction false} RecordEndsAs(polls: seq<Poll>, device: string, ticks: seq<nat>, n: nat, p: nat, r: int)
    requires ObservedAt(SeenBy(polls, device), ticks) && IsRecordOf(polls, device, n, p)
    requires FirstEnd(ticks, p, r) || (r == -1 && forall m :: p < m < |ticks| ==> StateAt(ticks[m]) !in {0, 4})
    ensures RowsOf(After(polls).rows, device)[n].status
         == if r == -1 then Running else if StateAt(ticks[r]) == 4 then Completed else Aborted
  {
    hide ObservedAt, SeenBy, After, RowsOf, Outcome, Ends, StateAt, Starts;
    FirstEndIsSeen(ticks, SeenBy(polls, device), p, r);
    OutcomeStatus(device, n + 1, SeenBy(polls, device), p, p + 1, r);
  }
}
