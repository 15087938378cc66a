/**
 * The alarms in numbers and in states: which readings raise and clear, how long a shelved alarm rests, and which row
 * an acknowledgement changes.
 */
module AlarmLimits {
  import opened Wrappers
  import opened Alarms
  import opened AlarmRuns

  predicate IsOpenFor(a: Alarm, device: string, register: nat) {
    (a.state == Active || a.state == Acknowledged) && a.device == device && a.register == register
  }

  ghost predicate AnyOpen(rows: Table, device: string, register: nat) {
    exists id :: 0 <= id < |rows| && IsOpenFor(rows[id], device, register)
  }

  lemma AnyOpenIds(rows: Table, device: string, register: nat)
    ensures AnyOpen(rows, device, register) <==> OpenIds(rows, Key(device, register)) != []
  {
    var key := Key(device, register);
    NoneOpen(rows, key);
    hide OpenIds;
    assert forall id :: ValidId(rows, id) ==> (IsOpenFor(rows[id], device, register) <==> OpenFor(rows[id], key));
  }

  // ---- The limits ----

  /** Each monitored register, the greatest reading that clears its alarm, and the least that raises one. */
  predicate Limits(th: nat, register: nat, clears: nat, raises: nat) {
    || (th == 0 && register == 1028 && clears == 80 && raises == 100)
    || (th == 1 && register == 1029 && clears == 1139 && raises == 1400)
  }

  lemma LimitsAreExact(th: nat, register: nat, clears: nat, raises: nat, value: nat)
    requires Limits(th, register, clears, raises)
    ensures th < |THRESHOLDS| == 2 && THRESHOLDS[th].register == register
    ensures Safe(THRESHOLDS[th], value) <==> value <= clears
    ensures ToRaise(THRESHOLDS[th], value) == if value >= raises then Some((Critical, raises)) else None
  {}

  /**
   * For any threshold: an alarm is cleared below 95 % of the high warning and above 105 % of the low one, and a warning
   * is raised only without a critical limit.
   */
  lemma ThresholdsInGeneral(th: Threshold, value: nat)
    ensures Safe(th, value) <==>
            && (th.warnHigh.Some? ==> value as real < th.warnHigh.value as real * 0.95)
            && (th.warnLow.Some? ==> value as real > th.warnLow.value as real * 1.05)
    ensures ToRaise(th, value) ==
            if th.critHigh.Some? && value >= th.critHigh.value then Some((Critical, th.critHigh.value))
            else if th.critHigh.None? && th.warnHigh.Some? && value >= th.warnHigh.value
              then Some((High, th.warnHigh.value))
            else None
  {}

  /**
   * Without shelving, an alarm is open exactly when the latest reading outside (clears, raises) was at least `raises`.
   */
  lemma HysteresisInNumbers(steps: seq<Step>, device: string, th: nat, register: nat, clears: nat, raises: nat)
    requires NoShelving(steps) && Limits(th, register, clears, raises)
    ensures var samples := SamplesOf(Run(INIT, steps), Key(device, register));
            AnyOpen(Run(INIT, steps).rows, device, register) <==>
            exists i :: 0 <= i < |samples| && samples[i] >= raises &&
                        forall j :: i < j < |samples| ==> clears < samples[j] < raises
  {
    var samples := SamplesOf(Run(INIT, steps), Key(device, register));
    AnyOpenIds(Run(INIT, steps).rows, device, register);
    LimitsAreExact(th, register, clears, raises, 0);
    Hysteresis(steps, device, th);
    assert KeyOf(device, th) == Key(device, register);
    hide Run, SamplesOf, OpenIds;
    LatchedInNumbers(th, register, clears, raises, samples);
  }

  lemma LatchedInNumbers(th: nat, register: nat, clears: nat, raises: nat, samples: seq<nat>)
    requires Limits(th, register, clears, raises)
    ensures th < |THRESHOLDS|
    ensures Latched(THRESHOLDS[th], samples) <==>
            exists i :: 0 <= i < |samples| && samples[i] >= raises &&
                        forall j :: i < j < |samples| ==> clears < samples[j] < raises
  {
    LimitsAreExact(th, register, clears, raises, 0);
    hide Limits, Safe, ToRaise;
    forall i | 0 <= i < |samples|
      ensures ToRaise(THRESHOLDS[th], samples[i]).Some? <==> samples[i] >= raises
      ensures InBand(THRESHOLDS[th], samples[i]) <==> clears < samples[i] < raises
    {
      LimitsAreExact(th, register, clears, raises, samples[i]);
    }
  }

  // ---- What a poll does to one register ----

  /** Rows of other registers than the one polled stay, and so do their open ids. */
  lemma PolledOther(rows: Table, device: string, th: Threshold, value: nat, now: int, key: Key)
    requires th.register != key.register
    ensures var after := Polled(rows, device, th, value, now);
            && |after| >= |rows| && OpenIds(after, key) == OpenIds(rows, key)
            && forall id :: 0 <= id < |rows| && rows[id].register == key.register ==> after[id] == rows[id]
  {
    var after, mine := Polled(rows, device, th, value, now), Key(device, th.register);
    OpenIdsAreOpen(rows, mine);
    hide ToRaise, Safe;
    if |after| > |rows| {
      assert after[..|rows|] == rows;
    } else {
      SameOpenIds(rows, after, key);
    }
  }

  /** What a reading of the register does to its alarms. */
  ghost predicate Reacts(rows: Table, after: Table, device: string, register: nat, value: nat, now: int,
                         clears: nat, raises: nat) {
    var key := Key(device, register);
    var ids := OpenIds(rows, key);
    if ids != [] && value <= clears then
      var id := ids[|ids| - 1];
      && OpenIds(after, key) == ids[..|ids| - 1]
      && ValidId(rows, id) && ValidId(after, id)
      && after[id] == rows[id].(state := Cleared, clearedAt := Some(now))
    else if ids == [] && value >= raises then
      && |OpenIds(after, key)| == 1 && ValidId(after, OpenIds(after, key)[0]) && OpenIds(after, key)[0] >= |rows|
      && after[OpenIds(after, key)[0]]
         == Alarm(device, register, Critical, Active, value, raises, None, None, None, None, None)
    else OpenIds(after, key) == ids
  }

  lemma PolledReacts(rows: Table, device: string, th: nat, register: nat, clears: nat, raises: nat, value: nat,
                     now: int)
    requires Limits(th, register, clears, raises)
    ensures th < |THRESHOLDS|
    ensures Reacts(rows, Polled(rows, device, THRESHOLDS[th], value, now), device, register, value, now, clears, raises)
  {
    var key := Key(device, register);
    LimitsAreExact(th, register, clears, raises, value);
    hide Safe, ToRaise, Limits;
    OpenIdsAreOpen(rows, key);
    if OpenIds(rows, key) != [] {
      ClearingNewest(rows, key, now);
    } else if value >= raises {
      Raised(rows, key, Critical, value, raises);
    }
    hide OpenIds;
  }

  lemma TwoThresholds(rows: Table, device: string, regs: map<nat, nat>, now: int)
    ensures |THRESHOLDS| == 2
    ensures PolledAll(rows, device, regs, now, 2)
         == PolledOne(PolledOne(rows, device, regs, 0, now), device, regs, 1, now)
  {
    hide Polled;
    assert PolledAll(rows, device, regs, now, 0) == rows;
    assert PolledAll(rows, device, regs, now, 1) == PolledOne(rows, device, regs, 0, now);
  }

  /** Reacting is the same whether the other register was handled before, or is afterwards. */
  lemma {:induction false} ReactsStill(rows: Table, mid: Table, after: Table, device: string, register: nat,
                                       value: nat, now: int, clears: nat, raises: nat)
    requires OpenIds(mid, Key(device, register)) == OpenIds(rows, Key(device, register)) && |mid| >= |rows|
    requires forall id :: 0 <= id < |rows| && rows[id].register == register ==> mid[id] == rows[id]
    requires Reacts(mid, after, device, register, value, now, clears, raises)
    ensures Reacts(rows, after, device, register, value, now, clears, raises)
  {
    OpenIdsAreOpen(rows, Key(device, register));
    hide OpenIds;
  }

  lemma {:induction false} ReactsThen(rows: Table, mid: Table, after: Table, device: string, register: nat,
                                       value: nat, now: int, clears: nat, raises: nat)
    requires Reacts(rows, mid, device, register, value, now, clears, raises)
    requires OpenIds(after, Key(device, register)) == OpenIds(mid, Key(device, register)) && |after| >= |mid|
    requires forall id :: 0 <= id < |mid| && mid[id].register == register ==> after[id] == mid[id]
    ensures Reacts(rows, after, device, register, value, now, clears, raises)
  {
    OpenIdsAreOpen(rows, Key(device, register));
    hide OpenIds;
  }

  lemma {:induction false} PolledOneOther(rows: Table, device: string, regs: map<nat, nat>, th: nat, now: int,
                                          register: nat)
    requires th < |THRESHOLDS| && THRESHOLDS[th].register != register
    ensures var (after, key) := (PolledOne(rows, device, regs, th, now), Key(device, register));
            && |after| >= |rows| && OpenIds(after, key) == OpenIds(rows, key)
            && forall id :: 0 <= id < |rows| && rows[id].register == register ==> after[id] == rows[id]
  {
    hide Polled, OpenIds;
    var t := THRESHOLDS[th];
    if t.register in regs {
      PolledOther(rows, device, t, regs[t.register], now, Key(device, register));
    }
  }

  /**
   * A whole poll, register by register: an open alarm is cleared exactly by a reading of at most `clears`, the newest
   * first; one is raised exactly if none is open and the reading is at least `raises`; nothing happens without one.
   */
  lemma PollReacts(rows: Table, device: string, regs: map<nat, nat>, now: int,
                   th: nat, register: nat, clears: nat, raises: nat)
    requires Limits(th, register, clears, raises)
    ensures var after := PolledAll(rows, device, regs, now, |THRESHOLDS|);
            if register in regs then Reacts(rows, after, device, register, regs[register], now, clears, raises)
            else OpenIds(after, Key(device, register)) == OpenIds(rows, Key(device, register))
  {
    var mid := PolledOne(rows, device, regs, 0, now);
    var after := PolledOne(mid, device, regs, 1, now);
    TwoThresholds(rows, device, regs, now);
    LimitsAreExact(th, register, clears, raises, 0);
    hide PolledAll, Polled, OpenIds, Reacts, Safe, ToRaise;
    if th == 0 {
      PolledOneOther(mid, device, regs, 1, now, register);
      if register in regs {
        PolledReacts(rows, device, th, register, clears, raises, regs[register], now);
        ReactsThen(rows, mid, after, device, register, regs[register], now, clears, raises);
      }
    } else {
      PolledOneOther(rows, device, regs, 0, now, register);
      if register in regs {
        PolledReacts(mid, device, th, register, clears, raises, regs[register], now);
        ReactsStill(rows, mid, after, device, register, regs[register], now, clears, raises);
      }
    }
  }

  // ---- Acknowledging ----

  /** An acknowledgement changes exactly the row it names, if that is active, and says by whom and when. */
  lemma AckChangesOne(s: System, id: int, user: string, now: int)
    ensures var after := Next(s, Ack(id, user, now)).rows;
            && |after| == |s.rows|
            && (forall j :: 0 <= j < |s.rows| && !(j == id && s.rows[j].state == Active) ==> after[j] == s.rows[j])
            && (0 <= id < |s.rows| && s.rows[id].state == Active ==>
                  && after[id].state == Acknowledged
                  && after[id].ackedBy == Some(user) && after[id].ackedAt == Some(now)
                  && after[id].device == s.rows[id].device && after[id].register == s.rows[id].register)
  {}

  /** It neither opens nor closes an alarm. */
  lemma AckKeepsOpen(rows: Table, id: int, user: string, now: int, key: Key)
    ensures OpenIds(Acked(rows, id, user, now), key) == OpenIds(rows, key)
  {
    SameOpenIds(rows, Acked(rows, id, user, now), key);
  }

  ghost predicate WasAcked(steps: seq<Step>, id: int, a: Alarm) {
    exists i, user, now :: 0 <= i < |steps| && steps[i] == Ack(id, user, now)
                           && a.ackedBy == Some(user) && a.ackedAt == Some(now)
  }

  lemma WasAckedStep(steps: seq<Step>, step: Step, id: int, a: Alarm, b: Alarm)
    requires a.ackedBy.Some? ==> WasAcked(steps, id, a)
    requires RowStep(id, a, b, step)
    ensures b.ackedBy.Some? ==> WasAcked(steps + [step], id, b)
  {
    var more := steps + [step];
    if step.Ack? && step.id == id && a.state == Active {
      assert more[|steps|] == Ack(id, step.user, step.now);
    } else if b.ackedBy.Some? {
      var i, user, now :| 0 <= i < |steps| && steps[i] == Ack(id, user, now)
                          && a.ackedBy == Some(user) && a.ackedAt == Some(now);
      assert more[i] == Ack(id, user, now);
    }
  }

  /** A row names an acknowledger only if that user acknowledged that row at that time. */
  lemma {:induction false} AcknowledgedByWhom(steps: seq<Step>, id: nat)
    requires id < |Run(INIT, steps).rows| && Run(INIT, steps).rows[id].ackedBy.Some?
    ensures WasAcked(steps, id, Run(INIT, steps).rows[id])
  {
    if steps != [] {
      var n := |steps| - 1;
      var s := Run(INIT, steps[..n]);
      NextRowsStep(s, steps[n]);
      RunNext(INIT, steps);
      assert steps == steps[..n] + [steps[n]];
      hide Run, Next, RowStep, WasAcked;
      if id < |s.rows| {
        if s.rows[id].ackedBy.Some? {
          AcknowledgedByWhom(steps[..n], id);
        }
        WasAckedStep(steps[..n], steps[n], id, s.rows[id], Next(s, steps[n]).rows[id]);
      } else {
        NewRowsAreActive(Next(s, steps[n]).rows[id], steps[n]);
      }
    }
  }

  lemma NewRowsAreActive(b: Alarm, step: Step)
    requires NewRow(b, step)
    ensures b.state == Active && b.ackedBy.None? && b.shelvedUntil.None? && b.clearedAt.None?
  {}

  // ---- Shelving ----

  /** No step shelves the row again, and nobody lists the alarms after `until`. */
  predicate LeavesShelved(steps: seq<Step>, id: int, until: int) {
    forall i :: 0 <= i < |steps| ==>
      (steps[i].Shelve? ==> steps[i].id != id) && (steps[i].Unshelve? ==> steps[i].now <= until)
  }

  lemma {:induction false} RestsUntil(s: System, id: nat, until: int, steps: seq<Step>)
    requires id < |s.rows| && s.rows[id].state == Shelved && s.rows[id].shelvedUntil == Some(until)
    requires LeavesShelved(steps, id, until)
    ensures id < |Run(s, steps).rows|
    ensures var a := Run(s, steps).rows[id];
            a.state == Cleared || (a.state == Shelved && a.shelvedUntil == Some(until))
  {
    if steps == [] {
      assert Run(s, steps) == s;
    } else {
      var n := |steps| - 1;
      RestsUntil(s, id, until, steps[..n]);
      NextRowsStep(Run(s, steps[..n]), steps[n]);
      RunNext(s, steps);
      hide Run, Next, NewRow;
    }
  }

  /** What shelving does: the row rests for the minutes asked for, at most 480, whatever happens to the others. */
  lemma {:induction false} StaysShelved(s: System, id: nat, user: string, minutes: nat, at: int, steps: seq<Step>)
    requires id < |s.rows| && s.rows[id].state != Cleared
    requires LeavesShelved(steps, id, at + 60 * (if minutes < 480 then minutes else 480))
    ensures var t := Run(Next(s, Shelve(id, user, minutes, at)), steps);
            && id < |t.rows|
            && (t.rows[id].state == Shelved || t.rows[id].state == Cleared)
            && (t.rows[id].state == Shelved ==>
                  t.rows[id].shelvedUntil == Some(at + 60 * (if minutes < 480 then minutes else 480)))
  {
    var shelved := Next(s, Shelve(id, user, minutes, at));
    hide Run;
    RestsUntil(shelved, id, at + 60 * (if minutes < 480 then minutes else 480), steps);
  }

  /** And after that the next listing of the alarms makes it active again. */
  lemma WakesAfter(s: System, id: nat, until: int, now: int)
    requires id < |s.rows| && s.rows[id].state == Shelved && s.rows[id].shelvedUntil == Some(until)
    ensures var a := Next(s, Unshelve(now)).rows[id];
            if now > until then a == s.rows[id].(state := Active, shelvedUntil := None, shelvedBy := None)
            else a == s.rows[id]
  {}
}
