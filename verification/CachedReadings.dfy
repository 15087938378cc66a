/**
 * What an answer from the OPC UA cache does to alarms and batches: a register that was not delivered reads 0, which
 * the poller takes for IDLE and for a safe value.
 */
module CachedReadings {
  import opened Wrappers
  import OpcUaCache
  import Alarms
  import AlarmRuns
  import Batches
  import OpcUaSim
  import Polling

  /** The k-th answer of a run covers the register with its i-th value. */
  predicate Covers(steps: seq<OpcUaCache.Step>, k: nat, i: nat, register: nat) {
    var answers := OpcUaCache.Run(OpcUaCache.INIT, steps).answers;
    k < |answers| && i < |answers[k].values| && answers[k].start + i == register
  }

  function AnswerOf(steps: seq<OpcUaCache.Step>, k: nat): OpcUaCache.Answer
    requires k < |OpcUaCache.Run(OpcUaCache.INIT, steps).answers|
  {
    OpcUaCache.Run(OpcUaCache.INIT, steps).answers[k]
  }

  /** The poller finds that value under the register, unless the addresses of the answer run past 16 bits. */
  lemma PollerReads(a: OpcUaCache.Answer, i: nat)
    requires i < |a.values| && a.start + |a.values| <= 65536
    ensures var regs := Polling.RegMap(a.start, a.values);
            a.start + i in regs && regs[a.start + i] == a.values[i]
  {
    Polling.RegMapIsExact(a.start, a.values);
    assert Polling.Address(a.start, i) == a.start + i;
  }

  /** Some delivery since the connect mentions the register, and the latest that does came from a late callback. */
  ghost predicate LastWasLate(a: OpcUaCache.Answer, register: nat, source: int) {
    OpcUaCache.IsSource(a.seen, register, source) && source >= 0 && a.seen[source].late
  }

  lemma {:induction false} RunIsTruthful(steps: seq<OpcUaCache.Step>, k: nat)
    requires k < |OpcUaCache.Run(OpcUaCache.INIT, steps).answers|
    ensures OpcUaCache.Truthful(AnswerOf(steps, k))
  {
    OpcUaCache.CacheAgrees(steps);
    hide OpcUaCache.Run, OpcUaCache.Truthful;
  }

  // ---- Batches ----

  /** The poll of the device marks a batch as aborted. */
  ghost predicate Aborts(polls: seq<Batches.Poll>, poll: Batches.Poll) {
    Batches.Count(Batches.RowsOf(Batches.After(polls + [poll]).rows, poll.device), Batches.Aborted)
    > Batches.Count(Batches.RowsOf(Batches.After(polls).rows, poll.device), Batches.Aborted)
  }

  /** A poll aborts a batch exactly if one is running and the code is IDLE. */
  lemma AbortsIff(polls: seq<Batches.Poll>, poll: Batches.Poll)
    ensures Aborts(polls, poll) <==>
            Batches.LastOpen(Batches.SeenBy(polls, poll.device)) && poll.code == Batches.IDLE
  {
    var obs, o := Batches.SeenBy(polls, poll.device), Batches.Observation(poll.code, poll.now);
    assert (polls + [poll])[..|polls|] == polls;
    assert Batches.SeenBy(polls + [poll], poll.device) == obs + [o];
    Batches.RecordsAsExpected(polls, poll.device);
    Batches.RecordsAsExpected(polls + [poll], poll.device);
    hide Batches.After, Batches.SeenBy, Batches.RowsOf, Batches.Expected, Batches.Count, Batches.LastOpen;
    OpcUaSim.CountsStep(poll.device, obs, o);
  }

  predicate IsIdle(code: nat) {
    code == Batches.IDLE
  }

  lemma MentionedSome(a: OpcUaCache.Answer, register: nat, source: int)
    requires OpcUaCache.IsSource(a.seen, register, source) && source >= 0
    ensures OpcUaCache.LastIn(a.seen[source].items, register).Some?
  {
    OpcUaCache.LastInMentions(a.seen[source].items, register);
  }

  /** The latest delivery to mention the batch state was a late IDLE, and the session reported none. */
  ghost predicate LateIdle(a: OpcUaCache.Answer, i: nat, source: int) {
    && LastWasLate(a, Polling.BATCH_STATE, source) && OpcUaCache.OwnValue(a, i) != Some(Batches.IDLE)
    && OpcUaCache.LastIn(a.seen[source].items, Polling.BATCH_STATE) == Some(Batches.IDLE)
  }

  lemma ReadsIdleIff(a: OpcUaCache.Answer, i: nat, source: int)
    requires OpcUaCache.Truthful(a) && i < |a.values| && a.start + i == Polling.BATCH_STATE
    requires OpcUaCache.IsSource(a.seen, Polling.BATCH_STATE, source)
    ensures a.values[i] == Batches.IDLE && OpcUaCache.OwnValue(a, i) != Some(Batches.IDLE) <==>
            source == -1 || LateIdle(a, i, source)
  {
    OpcUaCache.UnreportedIff(a, i, source, IsIdle);
    if source >= 0 {
      MentionedSome(a, Polling.BATCH_STATE, source);
    }
    hide OpcUaCache.Truthful, OpcUaCache.IsSource, OpcUaCache.OwnValue, OpcUaCache.LastIn;
  }

  /**
   * A cached answer makes the tracker abort a batch that the session did not report as IDLE, if and only if a batch is
   * running and either no delivery since the connect mentions the batch state, or the last that does was a late IDLE.
   */
  lemma FalseAbortIff(polls: seq<Batches.Poll>, device: string, now: int, steps: seq<OpcUaCache.Step>, k: nat, i: nat,
                      source: int)
    requires Covers(steps, k, i, Polling.BATCH_STATE)
    requires OpcUaCache.IsSource(AnswerOf(steps, k).seen, Polling.BATCH_STATE, source)
    ensures var a := AnswerOf(steps, k);
            var poll := Batches.Poll(device, a.values[i], now);
            Aborts(polls, poll) && OpcUaCache.OwnValue(a, i) != Some(Batches.IDLE) <==>
            Batches.LastOpen(Batches.SeenBy(polls, device)) && (source == -1 || LateIdle(a, i, source))
  {
    var a := AnswerOf(steps, k);
    RunIsTruthful(steps, k);
    AbortsIff(polls, Batches.Poll(device, a.values[i], now));
    hide OpcUaCache.Run, OpcUaCache.Truthful, OpcUaCache.IsSource, OpcUaCache.OwnValue, LateIdle, Aborts,
         Batches.LastOpen, Batches.SeenBy;
    ReadsIdleIff(a, i, source);
  }

  lemma OnTimeAnswer(steps: seq<OpcUaCache.Step>, k: nat)
    requires OpcUaCache.NoLateCallbacks(steps) && k < |OpcUaCache.Run(OpcUaCache.INIT, steps).answers|
    ensures forall d :: 0 <= d < |AnswerOf(steps, k).seen| ==> !AnswerOf(steps, k).seen[d].late
  {
    OpcUaCache.OnTimeRun(steps);
    hide OpcUaCache.Run;
    assert AnswerOf(steps, k) in OpcUaCache.Run(OpcUaCache.INIT, steps).answers;
  }

  /** Without late callbacks: if and only if a batch is running and nothing delivered since the connect mentions it. */
  lemma {:induction false} FalseAbortOnTimeIff(polls: seq<Batches.Poll>, device: string, now: int,
                                               steps: seq<OpcUaCache.Step>, k: nat, i: nat)
    requires OpcUaCache.NoLateCallbacks(steps) && Covers(steps, k, i, Polling.BATCH_STATE)
    ensures var a := AnswerOf(steps, k);
            var poll := Batches.Poll(device, a.values[i], now);
            Aborts(polls, poll) && OpcUaCache.OwnValue(a, i) != Some(Batches.IDLE) <==>
            && Batches.LastOpen(Batches.SeenBy(polls, device))
            && forall d :: 0 <= d < |a.seen| ==> !OpcUaCache.Mentions(a.seen[d].items, Polling.BATCH_STATE)
  {
    var a := AnswerOf(steps, k);
    OnTimeAnswer(steps, k);
    var source := OpcUaCache.LatestSource(a.seen, Polling.BATCH_STATE);
    FalseAbortIff(polls, device, now, steps, k, i, source);
    hide OpcUaCache.Run, OpcUaCache.OwnValue, OpcUaCache.Mentions, OpcUaCache.LastIn, OpcUaCache.Latest, Aborts,
         Batches.LastOpen, Batches.SeenBy;
  }

  // ---- Alarms ----

  /** The poll of the threshold closes an alarm. */
  predicate Closes(rows: Alarms.Table, device: string, th: Alarms.Threshold, value: nat, now: int) {
    var key := Alarms.Key(device, th.register);
    |Alarms.OpenIds(Alarms.Polled(rows, device, th, value, now), key)| < |Alarms.OpenIds(rows, key)|
  }

  lemma {:induction false} ClosesIff(rows: Alarms.Table, device: string, th: Alarms.Threshold, value: nat, now: int)
    ensures Closes(rows, device, th, value, now) <==>
            Alarms.OpenIds(rows, Alarms.Key(device, th.register)) != [] && Alarms.Safe(th, value)
  {
    var key := Alarms.Key(device, th.register);
    if Alarms.OpenIds(rows, key) != [] {
      AlarmRuns.ClearingNewest(rows, key, now);
    }
    hide Alarms.OpenIds, Alarms.Safe, Alarms.ClearedRows, Alarms.ToRaise;
  }

  lemma ZeroIsSafe(th: Alarms.Threshold)
    requires th in Alarms.THRESHOLDS
    ensures Alarms.Safe(th, 0)
  {}

  /**
   * A cached answer closes an alarm although the session's last value was not safe, or there was none, if and only if
   * an alarm is open and either no delivery since the connect mentions the register, or the last that does was late,
   * with a safe value.
   */
  lemma FalseClearIff(rows: Alarms.Table, device: string, th: Alarms.Threshold, now: int,
                      steps: seq<OpcUaCache.Step>, k: nat, i: nat, source: int)
    requires th in Alarms.THRESHOLDS && Covers(steps, k, i, th.register)
    requires OpcUaCache.IsSource(AnswerOf(steps, k).seen, th.register, source)
    ensures var a := AnswerOf(steps, k);
            var own := OpcUaCache.OwnValue(a, i);
            var ownSafe := own.Some? && Alarms.Safe(th, own.value);
            Closes(rows, device, th, a.values[i], now) && !ownSafe <==>
            && Alarms.OpenIds(rows, Alarms.Key(device, th.register)) != []
            && (source == -1 ||
                (LastWasLate(a, th.register, source) && !ownSafe &&
                 Alarms.Safe(th, OpcUaCache.LastIn(a.seen[source].items, th.register).GetOr(0))))
  {
    var a := AnswerOf(steps, k);
    RunIsTruthful(steps, k);
    ClosesIff(rows, device, th, a.values[i], now);
    ZeroIsSafe(th);
    OpcUaCache.UnreportedIff(a, i, source, (v: nat) => Alarms.Safe(th, v));
    hide OpcUaCache.Run, OpcUaCache.Truthful, OpcUaCache.IsSource, OpcUaCache.OwnValue, OpcUaCache.LastIn,
         Alarms.OpenIds, Alarms.Safe, Closes;
  }

  // ---- A run: the first delivery brings the temperature alone ----

  const TEMPERATURE := OpcUaCache.Item(1028, 70)

  lemma AnswersWithZero()
    ensures OpcUaCache.Inserted(map[], [TEMPERATURE]) == map[1028 := 70]
    ensures |OpcUaCache.FromCache(map[1028 := 70], 1028, 8)| == 8
    ensures OpcUaCache.FromCache(map[1028 := 70], 1028, 8)[4] == 0
    ensures !OpcUaCache.Mentions([TEMPERATURE], Polling.BATCH_STATE)
  {
    assert [TEMPERATURE][..0] == [];
  }

  /** A session that has just come up delivers the temperature and counts it. */
  lemma DeliversTemperature(s: OpcUaCache.System)
    requires s.client == OpcUaCache.Client(true, map[], 0, 0, true, 0) && s.pc == OpcUaCache.Ready && !s.bumpDue
    requires s.deliveries == []
    ensures var t := OpcUaCache.Next(OpcUaCache.Next(s, OpcUaCache.Insert([TEMPERATURE])), OpcUaCache.Bump);
            && t.client == OpcUaCache.Client(true, map[1028 := 70], 1, 0, true, 0) && t.pc == OpcUaCache.Ready
            && t.deliveries == [OpcUaCache.Delivery([TEMPERATURE], false)] && t.answers == s.answers
  {
    AnswersWithZero();
    hide OpcUaCache.Inserted, OpcUaCache.FromCache;
    assert [] + [OpcUaCache.Delivery([TEMPERATURE], false)] == [OpcUaCache.Delivery([TEMPERATURE], false)];
  }

  lemma ReadsFromCache(s: OpcUaCache.System)
    requires s.client == OpcUaCache.Client(true, map[1028 := 70], 1, 0, true, 0) && s.pc == OpcUaCache.Ready
    requires s.answers == []
    ensures var t := OpcUaCache.Next(OpcUaCache.Next(s, OpcUaCache.BeginRead(1028, 8)), OpcUaCache.UseCache);
            && |t.answers| == 1 && t.answers[0].start == 1028 && t.answers[0].seen == s.deliveries
            && t.answers[0].values == OpcUaCache.FromCache(map[1028 := 70], 1028, 8)
  {
    hide OpcUaCache.FromCache;
  }

  /** A session delivers the temperature, and the next read takes all eight registers from the cache. */
  lemma TemperatureFirst() returns (steps: seq<OpcUaCache.Step>)
    ensures OpcUaCache.NoLateCallbacks(steps) && Covers(steps, 0, 4, Polling.BATCH_STATE)
    ensures AnswerOf(steps, 0).values[4] == 0
    ensures AnswerOf(steps, 0).seen == [OpcUaCache.Delivery([TEMPERATURE], false)]
  {
    steps := [OpcUaCache.Clear, OpcUaCache.ResetCounters, OpcUaCache.Establish(true, true)];
    ComesUp(steps);
    AnswersWithZero();
    DeliversTemperature(OpcUaCache.Run(OpcUaCache.INIT, steps));
    hide OpcUaCache.Run, OpcUaCache.Next, OpcUaCache.FromCache, OpcUaCache.Inserted;
    steps := OpcUaCache.Append(steps, OpcUaCache.Insert([TEMPERATURE]));
    steps := OpcUaCache.Append(steps, OpcUaCache.Bump);
    ReadsFromCache(OpcUaCache.Run(OpcUaCache.INIT, steps));
    steps := OpcUaCache.Append(steps, OpcUaCache.BeginRead(1028, 8));
    steps := OpcUaCache.Append(steps, OpcUaCache.UseCache);
  }

  lemma ComesUp(steps: seq<OpcUaCache.Step>)
    requires steps == [OpcUaCache.Clear, OpcUaCache.ResetCounters, OpcUaCache.Establish(true, true)]
    ensures var s := OpcUaCache.Run(OpcUaCache.INIT, steps);
            && s.client == OpcUaCache.Client(true, map[], 0, 0, true, 0) && s.pc == OpcUaCache.Ready && !s.bumpDue
            && s.deliveries == [] && s.answers == []
  {
    assert |steps[..0]| == 0 && steps[..1][..0] == steps[..0] && steps[..2][..1] == steps[..1];
    assert OpcUaCache.Run(OpcUaCache.INIT, steps[..0]) == OpcUaCache.INIT;
    assert OpcUaCache.Run(OpcUaCache.INIT, steps[..1]) == OpcUaCache.Next(OpcUaCache.INIT, OpcUaCache.Clear);
    assert OpcUaCache.Run(OpcUaCache.INIT, steps[..2])
        == OpcUaCache.Next(OpcUaCache.Run(OpcUaCache.INIT, steps[..1]), OpcUaCache.ResetCounters);
  }

  /** A batch was seen to start; that answer aborts it, with no late callback and no IDLE from the plant. */
  lemma PartialDeliveryAborts(device: string) returns (polls: seq<Batches.Poll>, steps: seq<OpcUaCache.Step>)
    ensures OpcUaCache.NoLateCallbacks(steps) && Covers(steps, 0, 4, Polling.BATCH_STATE)
    ensures OpcUaCache.OwnValue(AnswerOf(steps, 0), 4) == None
    ensures Aborts(polls, Batches.Poll(device, AnswerOf(steps, 0).values[4], 2))
  {
    polls := [Batches.Poll(device, Batches.IDLE, 0), Batches.Poll(device, Batches.HEATING, 1)];
    steps := TemperatureFirst();
    var a := AnswerOf(steps, 0);
    StartedOpen(device, polls);
    AnswersWithZero();
    OpcUaCache.NeverMentioned(a.seen, Polling.BATCH_STATE);
    hide OpcUaCache.Run, OpcUaCache.Mentions, Batches.LastOpen, Batches.SeenBy, Aborts;
    AbortsIff(polls, Batches.Poll(device, 0, 2));
  }

  lemma {:induction false} StartedOpen(device: string, polls: seq<Batches.Poll>)
    requires polls == [Batches.Poll(device, Batches.IDLE, 0), Batches.Poll(device, Batches.HEATING, 1)]
    ensures Batches.LastOpen(Batches.SeenBy(polls, device))
  {
    var obs := Batches.SeenBy(polls, device);
    assert polls[..1] == [polls[0]] && polls[..1][..0] == [];
    assert Batches.SeenBy(polls[..1], device) == [Batches.Observation(Batches.IDLE, 0)];
    var first, second := Batches.Observation(Batches.IDLE, 0), Batches.Observation(Batches.HEATING, 1);
    assert obs == [first] + [second];
    OpcUaSim.LastOpenStep([first], second);
  }
}
