/**
 * Runs in which the pollers of many devices, the operators and the un-shelving of expired alarms interleave.
 * Every database call is one atomic step; a poll is several of them.
 */
module AlarmRuns {
  import opened Wrappers
  import opened Alarms

  /** Where a poller stands inside its loop over the thresholds. */
  datatype Pc =
    | Idle
    | At(regs: map<nat, nat>, th: nat)
    | Checked(regs: map<nat, nat>, th: nat, has: bool)
    | Found(regs: map<nat, nat>, th: nat, id: Option<nat>)

  /** `everShelved` and `samples` record history: which rows were ever shelved, and the readings fully handled. */
  datatype System = System(rows: Table, pollers: map<string, Pc>, everShelved: set<nat>, samples: map<Key, seq<nat>>)

  datatype Step =
    | Begin(device: string, regs: map<nat, nat>)
    | Advance(device: string, now: int)
    | Ack(id: int, user: string, now: int)
    | Shelve(id: int, user: string, minutes: nat, now: int)
    | Unshelve(now: int)

  const INIT := System([], map[], {}, map[])

  function PcOf(s: System, device: string): Pc {
    if device in s.pollers then s.pollers[device] else Idle
  }

  function SamplesOf(s: System, key: Key): seq<nat> {
    if key in s.samples then s.samples[key] else []
  }

  function KeyOf(device: string, th: nat): Key
    requires th < |THRESHOLDS|
  {
    Key(device, THRESHOLDS[th].register)
  }

  predicate Monitors(regs: map<nat, nat>, th: nat) {
    th < |THRESHOLDS| && THRESHOLDS[th].register in regs
  }

  function MoveTo(s: System, device: string, pc: Pc): System {
    s.(pollers := s.pollers[device := pc])
  }

  /** The poller is done with a threshold: the reading counts as handled. */
  function Handled(s: System, rows: Table, device: string, regs: map<nat, nat>, th: nat): System
    requires Monitors(regs, th)
  {
    var key := KeyOf(device, th);
    MoveTo(s, device, At(regs, th + 1))
    .(rows := rows, samples := s.samples[key := SamplesOf(s, key) + [regs[key.register]]])
  }

  function Advanced(s: System, device: string, now: int): System {
    match PcOf(s, device)
    case Idle => s
    case At(regs, th) =>
      if th >= |THRESHOLDS| then MoveTo(s, device, Idle)
      else if !Monitors(regs, th) then MoveTo(s, device, At(regs, th + 1))
      else MoveTo(s, device, Checked(regs, th, OpenIds(s.rows, KeyOf(device, th)) != []))
    case Checked(regs, th, has) =>
      if !Monitors(regs, th) then s else
      var key := KeyOf(device, th);
      var value := regs[key.register];
      if !has then
        match ToRaise(THRESHOLDS[th], value)
        case Some((priority, limit)) => Handled(s, s.rows + [RaisedRow(key, priority, value, limit)], device, regs, th)
        case None => Handled(s, s.rows, device, regs, th)
      else if Safe(THRESHOLDS[th], value) then
        MoveTo(s, device, Found(regs, th, Newest(OpenIds(s.rows, key))))
      else Handled(s, s.rows, device, regs, th)
    case Found(regs, th, id) =>
      if !Monitors(regs, th) then s
      else Handled(s, if id.Some? then ClearedRows(s.rows, id.value, now) else s.rows, device, regs, th)
  }

  function Next(s: System, step: Step): System {
    match step
    case Begin(device, regs) => if PcOf(s, device) == Idle then MoveTo(s, device, At(regs, 0)) else s
    case Advance(device, now) => Advanced(s, device, now)
    case Ack(id, user, now) => s.(rows := Acked(s.rows, id, user, now))
    case Shelve(id, user, minutes, now) =>
      s.(rows := ShelvedRows(s.rows, id, user, ShelveEnd(now, minutes)),
         everShelved := s.everShelved + (if ValidId(s.rows, id) then {id} else {}))
    case Unshelve(now) => s.(rows := Unshelved(s.rows, now))
  }

  function Run(s: System, steps: seq<Step>): System {
    if steps == [] then s else Next(Run(s, steps[..|steps| - 1]), steps[|steps| - 1])
  }

  // ---- How a step changes a row ----

  /** From a to b, for the row with the id. A poller may clear a row or not; everything else is determined. */
  predicate RowStep(id: int, a: Alarm, b: Alarm, step: Step) {
    match step
    case Begin(_, _) => b == a
    case Advance(_, now) =>
      b == a || (a.state != Cleared && b == a.(state := Cleared, clearedAt := Some(now)))
    case Ack(target, user, now) =>
      b == if target == id && a.state == Active
           then a.(state := Acknowledged, ackedBy := Some(user), ackedAt := Some(now)) else a
    case Shelve(target, user, minutes, now) =>
      b == if target == id && a.state != Cleared
           then a.(state := Shelved, shelvedUntil := Some(ShelveEnd(now, minutes)), shelvedBy := Some(user)) else a
    case Unshelve(now) =>
      b == if Expired(a, now) then a.(state := Active, shelvedUntil := None, shelvedBy := None) else a
  }

  /** A poll of a threshold with this value raises this row. */
  predicate RaisedBy(b: Alarm, device: string, th: nat, value: nat) {
    th < |THRESHOLDS| &&
    var raise := ToRaise(THRESHOLDS[th], value);
    raise.Some? && b == RaisedRow(KeyOf(device, th), raise.value.0, value, raise.value.1)
  }

  ghost predicate NewRow(b: Alarm, step: Step) {
    step.Advance? && exists th, value :: RaisedBy(b, step.device, th, value)
  }

  ghost predicate RowsStep(rows: Table, after: Table, step: Step) {
    && |rows| <= |after| <= |rows| + 1
    && (forall id :: 0 <= id < |rows| ==> RowStep(id, rows[id], after[id], step))
    && (|after| > |rows| ==> NewRow(after[|rows|], step))
  }

  lemma RaiseRowsStep(s: System, device: string, now: int)
    requires PcOf(s, device).Checked?
    ensures RowsStep(s.rows, Advanced(s, device, now).rows, Advance(device, now))
  {
    hide OpenIds, Newest, Safe;
    var t, pc := Advanced(s, device, now), PcOf(s, device);
    if |t.rows| > |s.rows| {
      assert RaisedBy(t.rows[|s.rows|], device, pc.th, pc.regs[THRESHOLDS[pc.th].register]);
    }
  }

  lemma AdvanceRowsStep(s: System, device: string, now: int)
    ensures RowsStep(s.rows, Advanced(s, device, now).rows, Advance(device, now))
  {
    if PcOf(s, device).Checked? {
      RaiseRowsStep(s, device, now);
    } else {
      hide OpenIds, Newest, Safe, ToRaise;
    }
  }

  lemma NextRowsStep(s: System, step: Step)
    ensures RowsStep(s.rows, Next(s, step).rows, step)
  {
    if step.Advance? {
      AdvanceRowsStep(s, step.device, step.now);
      hide RowsStep, Advanced;
    }
  }

  lemma RunNext(s: System, steps: seq<Step>)
    requires steps != []
    ensures var n := |steps| - 1; Run(s, steps) == Next(Run(s, steps[..n]), steps[n])
  {}

  // ---- Cleared is final, and rows never change what they are about ----

  ghost predicate Extends(before: Table, after: Table) {
    && |before| <= |after|
    && forall id :: 0 <= id < |before| ==>
         && after[id].device == before[id].device && after[id].register == before[id].register
         && after[id].priority == before[id].priority
         && (before[id].state == Cleared ==> after[id] == before[id])
  }

  lemma NextExtends(s: System, step: Step)
    ensures Extends(s.rows, Next(s, step).rows)
  {
    NextRowsStep(s, step);
    hide Next, NewRow;
  }

  lemma {:induction false} ClearedIsFinal(s: System, steps: seq<Step>)
    ensures Extends(s.rows, Run(s, steps).rows)
  {
    if steps != [] {
      ClearedIsFinal(s, steps[..|steps| - 1]);
      hide Next;
      NextExtends(Run(s, steps[..|steps| - 1]), steps[|steps| - 1]);
    }
  }

  /** The row is critical, with a value at or above the critical limit of its register. */
  predicate IsCritical(a: Alarm) {
    a.priority == Critical && a.value >= a.limit &&
    exists th :: 0 <= th < |THRESHOLDS| && THRESHOLDS[th].register == a.register &&
                 THRESHOLDS[th].critHigh == Some(a.limit)
  }

  lemma RaisedIsCritical(a: Alarm, device: string, th: nat, value: nat)
    requires RaisedBy(a, device, th, value)
    ensures IsCritical(a)
  {
    assert THRESHOLDS[th].critHigh.Some?;
    assert THRESHOLDS[th].register == a.register && THRESHOLDS[th].critHigh == Some(a.limit);
  }

  lemma StaysCritical(id: int, a: Alarm, b: Alarm, step: Step)
    requires IsCritical(a) && RowStep(id, a, b, step)
    ensures IsCritical(b)
  {
    assert b.register == a.register && b.limit == a.limit && b.value == a.value && b.priority == a.priority;
  }

  /** Both thresholds have a critical limit, so the warning branch never fires. */
  lemma {:induction false} OnlyCriticalAlarms(steps: seq<Step>)
    ensures forall id :: 0 <= id < |Run(INIT, steps).rows| ==> IsCritical(Run(INIT, steps).rows[id])
  {
    if steps != [] {
      var s, step := Run(INIT, steps[..|steps| - 1]), steps[|steps| - 1];
      OnlyCriticalAlarms(steps[..|steps| - 1]);
      NextRowsStep(s, step);
      RunNext(INIT, steps);
      hide Run, Next, IsCritical, RowStep, RaisedBy;
      var after := Next(s, step).rows;
      forall id | 0 <= id < |after| ensures IsCritical(after[id]) {
        if id < |s.rows| {
          StaysCritical(id, s.rows[id], after[id], step);
        } else {
          var th, value :| RaisedBy(after[id], step.device, th, value);
          RaisedIsCritical(after[id], step.device, th, value);
        }
      }
    }
  }

  // ---- What a row's state says about its other fields ----

  predicate WellFormed(a: Alarm) {
    && (a.state == Acknowledged ==> a.ackedBy.Some?)
    && (a.ackedBy.Some? <==> a.ackedAt.Some?)
    && (a.state == Shelved ==> a.shelvedUntil.Some?)
    && (IsOpen(a) ==> a.shelvedUntil.None?)
    && (a.shelvedBy.Some? <==> a.shelvedUntil.Some?)
    && (a.state == Cleared <==> a.clearedAt.Some?)
  }

  lemma StaysWellFormed(id: int, a: Alarm, b: Alarm, step: Step)
    requires WellFormed(a) && RowStep(id, a, b, step)
    ensures WellFormed(b)
  {}

  /** Acknowledged, shelved and cleared rows say by whom, until when and since when; open rows have no shelving left. */
  lemma {:induction false} RowsAreWellFormed(steps: seq<Step>)
    ensures forall id :: ValidId(Run(INIT, steps).rows, id) ==> WellFormed(Run(INIT, steps).rows[id])
  {
    if steps != [] {
      var s, step := Run(INIT, steps[..|steps| - 1]), steps[|steps| - 1];
      RowsAreWellFormed(steps[..|steps| - 1]);
      NextRowsStep(s, step);
      RunNext(INIT, steps);
      hide Run, Next, RowStep;
      var after := Next(s, step).rows;
      forall id | 0 <= id < |s.rows| ensures WellFormed(after[id]) {
        hide WellFormed;
        StaysWellFormed(id, s.rows[id], after[id], step);
      }
    }
  }

  /** The longest that an operator can shelve an alarm, in seconds. */
  const LONGEST := 8 * 60 * 60

  predicate ShelvedBy(steps: seq<Step>, latest: int) {
    forall i :: 0 <= i < |steps| && steps[i].Shelve? ==> steps[i].now <= latest
  }

  predicate EndsInTime(a: Alarm, latest: int) {
    a.state == Shelved ==> a.shelvedUntil.Some? && a.shelvedUntil.value <= latest + LONGEST
  }

  lemma StillEndsInTime(id: int, a: Alarm, b: Alarm, step: Step, latest: int)
    requires EndsInTime(a, latest) && RowStep(id, a, b, step) && (step.Shelve? ==> step.now <= latest)
    ensures EndsInTime(b, latest)
  {}

  lemma {:induction false} ShelvingEndsInTime(steps: seq<Step>, latest: int)
    requires ShelvedBy(steps, latest)
    ensures forall id :: ValidId(Run(INIT, steps).rows, id) ==> EndsInTime(Run(INIT, steps).rows[id], latest)
  {
    if steps != [] {
      var s, step := Run(INIT, steps[..|steps| - 1]), steps[|steps| - 1];
      ShelvingEndsInTime(steps[..|steps| - 1], latest);
      NextRowsStep(s, step);
      RunNext(INIT, steps);
      hide Run, Next, RowStep;
      var after := Next(s, step).rows;
      forall id | 0 <= id < |s.rows| ensures EndsInTime(after[id], latest) {
        hide EndsInTime;
        StillEndsInTime(id, s.rows[id], after[id], step, latest);
      }
    }
  }

  /** Whatever durations operators ask for: listing the alarms 8 hours after the last shelving leaves none shelved. */
  lemma NoAlarmStaysShelved(steps: seq<Step>, latest: int, now: int)
    requires ShelvedBy(steps, latest) && now > latest + LONGEST
    ensures forall id :: ValidId(Run(INIT, steps + [Unshelve(now)]).rows, id) ==>
              Run(INIT, steps + [Unshelve(now)]).rows[id].state != Shelved
  {
    ShelvingEndsInTime(steps, latest);
    RunNext(INIT, steps + [Unshelve(now)]);
    assert (steps + [Unshelve(now)])[..|steps|] == steps;
    hide Run;
  }

  // ---- At most one open alarm per key that was never shelved ----

  predicate Fresh(s: System, key: Key, id: int) {
    ValidId(s.rows, id) && OpenFor(s.rows[id], key) && id !in s.everShelved
  }

  /** Every row that is shelved, and no row that does not exist, is on record as shelved. */
  ghost predicate ShelvingRecorded(s: System) {
    && (forall id :: id in s.everShelved ==> ValidId(s.rows, id))
    && (forall id :: ValidId(s.rows, id) && s.rows[id].state == Shelved ==> id in s.everShelved)
  }

  ghost predicate OneFresh(s: System) {
    forall key, i, j :: Fresh(s, key, i) && Fresh(s, key, j) ==> i == j
  }

  /** The poller is about to act on having seen no open alarm for the key. */
  predicate SawNone(s: System, device: string, key: Key) {
    var pc := PcOf(s, device);
    pc.Checked? && !pc.has && pc.th < |THRESHOLDS| && KeyOf(device, pc.th) == key
  }

  ghost predicate StillNone(s: System) {
    forall device, key, id :: SawNone(s, device, key) && ValidId(s.rows, id) ==> !Fresh(s, key, id)
  }

  /** Shelving is recorded when it happens. */
  lemma StepRecordsShelving(s: System, step: Step)
    ensures Next(s, step).everShelved
         == s.everShelved + if step.Shelve? && ValidId(s.rows, step.id) then {step.id} else {}
    ensures step.Shelve? ==>
              Next(s, step).rows == ShelvedRows(s.rows, step.id, step.user, ShelveEnd(step.now, step.minutes))
  {
    hide OpenIds, Newest, Safe, ToRaise, Acked, ShelvedRows, ClearedRows, Unshelved;
  }

  lemma ShelvingRecordedStep(s: System, step: Step)
    requires ShelvingRecorded(s)
    ensures ShelvingRecorded(Next(s, step))
  {
    NextRowsStep(s, step);
    StepRecordsShelving(s, step);
    hide Next;
  }

  /** Only raising makes a fresh open alarm, and only a poller that saw none raises. */
  lemma FreshOrigin(s: System, step: Step, key: Key, id: int)
    requires ShelvingRecorded(s) && Fresh(Next(s, step), key, id) && !Fresh(s, key, id)
    ensures id == |s.rows| && step.Advance? && SawNone(s, step.device, key)
  {
    NextRowsStep(s, step);
    StepRecordsShelving(s, step);
    if step.Advance? && |Next(s, step).rows| > |s.rows| {
      GrowsAfterSeeingNone(s, step.device, step.now);
    }
    hide Next, NewRow;
  }

  lemma GrowsAfterSeeingNone(s: System, device: string, now: int)
    requires |Advanced(s, device, now).rows| > |s.rows|
    ensures var row := Advanced(s, device, now).rows[|s.rows|]; SawNone(s, device, Key(row.device, row.register))
  {
    hide OpenIds, Newest, Safe;
  }

  lemma OneFreshStep(s: System, step: Step)
    requires ShelvingRecorded(s) && OneFresh(s) && StillNone(s)
    ensures OneFresh(Next(s, step))
  {
    var t := Next(s, step);
    forall key, i, j | Fresh(t, key, i) && Fresh(t, key, j)
      ensures i == j
    {
      if !Fresh(s, key, i) { FreshOrigin(s, step, key, i); }
      if !Fresh(s, key, j) { FreshOrigin(s, step, key, j); }
    }
  }

  /** Only its own steps move a poller. */
  lemma PcStays(s: System, step: Step, device: string)
    requires (step.Begin? || step.Advance?) ==> step.device != device
    ensures PcOf(Next(s, step), device) == PcOf(s, device)
  {
    hide OpenIds, Newest, Safe, ToRaise, Acked, ShelvedRows, ClearedRows, Unshelved;
  }

  lemma LooksAndSeesNone(s: System, device: string, now: int, key: Key)
    requires SawNone(Advanced(s, device, now), device, key)
    ensures SawNone(s, device, key) || OpenIds(s.rows, key) == []
    ensures SawNone(s, device, key) ==> Advanced(s, device, now) == s
  {
    hide OpenIds, Newest, Safe, ToRaise, ClearedRows;
  }

  lemma SeeingNone(s: System, step: Step, device: string, key: Key)
    requires SawNone(Next(s, step), device, key)
    ensures SawNone(s, device, key) || OpenIds(s.rows, key) == []
    ensures step.Advance? && SawNone(s, step.device, key) ==> Next(s, step) == s || step.device != device
  {
    if step.Advance? && step.device == device {
      LooksAndSeesNone(s, device, step.now, key);
      hide Advanced;
    } else if !step.Begin? || step.device != device {
      PcStays(s, step, device);
      hide Next;
    }
  }

  lemma StillNoneStep(s: System, step: Step)
    requires ShelvingRecorded(s) && StillNone(s)
    ensures StillNone(Next(s, step))
  {
    var t := Next(s, step);
    hide Next, OpenIds, ShelvingRecorded;
    forall device, key, id | SawNone(t, device, key) && ValidId(t.rows, id)
      ensures !Fresh(t, key, id)
    {
      SeeingNone(s, step, device, key);
      NoneOpen(s.rows, key);
      if Fresh(t, key, id) && !Fresh(s, key, id) {
        FreshOrigin(s, step, key, id);
      }
    }
  }

  /** Whatever the interleaving, a key has at most one open alarm that no operator ever shelved. */
  lemma {:induction false} AtMostOneFreshAlarm(steps: seq<Step>)
    ensures OneFresh(Run(INIT, steps))
    ensures ShelvingRecorded(Run(INIT, steps)) && StillNone(Run(INIT, steps))
  {
    if steps != [] {
      var s, step := Run(INIT, steps[..|steps| - 1]), steps[|steps| - 1];
      AtMostOneFreshAlarm(steps[..|steps| - 1]);
      RunNext(INIT, steps);
      hide Run, Next, OneFresh, ShelvingRecorded, StillNone;
      ShelvingRecordedStep(s, step);
      OneFreshStep(s, step);
      StillNoneStep(s, step);
    }
  }

  predicate NoShelving(steps: seq<Step>) {
    forall i :: 0 <= i < |steps| ==> !steps[i].Shelve?
  }

  lemma {:induction false} NothingShelved(steps: seq<Step>)
    requires NoShelving(steps)
    ensures Run(INIT, steps).everShelved == {}
    ensures forall id :: ValidId(Run(INIT, steps).rows, id) ==> Run(INIT, steps).rows[id].state != Shelved
  {
    if steps != [] {
      var s, step := Run(INIT, steps[..|steps| - 1]), steps[|steps| - 1];
      NothingShelved(steps[..|steps| - 1]);
      NextRowsStep(s, step);
      StepRecordsShelving(s, step);
      RunNext(INIT, steps);
      hide Run, Next;
    }
  }

  lemma TwoOpenAreFresh(s: System, key: Key)
    requires s.everShelved == {} && |OpenIds(s.rows, key)| > 1
    ensures !OneFresh(s)
  {
    OpenIdsAreOpen(s.rows, key);
    var ids := OpenIds(s.rows, key);
    hide OpenIds;
    assert Fresh(s, key, ids[0]) && Fresh(s, key, ids[1]);
  }

  lemma {:induction false} AtMostOneOpenAlarm(steps: seq<Step>, key: Key)
    requires NoShelving(steps)
    ensures |OpenIds(Run(INIT, steps).rows, key)| <= 1
  {
    AtMostOneFreshAlarm(steps);
    NothingShelved(steps);
    hide Run, OpenIds, OneFresh;
    if |OpenIds(Run(INIT, steps).rows, key)| > 1 {
      TwoOpenAreFresh(Run(INIT, steps), key);
    }
  }

  // ---- Interleaved polls refine atomic ones, key by key ----

  lemma {:induction false} SameOpenIds(a: Table, b: Table, key: Key)
    requires |a| == |b| && forall id :: 0 <= id < |a| ==> OpenFor(a[id], key) == OpenFor(b[id], key)
    ensures OpenIds(a, key) == OpenIds(b, key)
  {
    if a != [] {
      SameOpenIds(a[..|a| - 1], b[..|b| - 1], key);
    }
  }

  lemma {:induction false} ClearingNewest(rows: Table, key: Key, now: int)
    requires OpenIds(rows, key) != []
    ensures var ids := OpenIds(rows, key);
            OpenIds(ClearedRows(rows, Newest(ids).value, now), key) == ids[..|ids| - 1]
  {
    var ids := OpenIds(rows, key);
    var id := Newest(ids).value;
    var n := |rows| - 1;
    var after := ClearedRows(rows, id, now);
    OpenIdsAreOpen(rows, key);
    if id == n {
      assert after[..n] == rows[..n];
    } else {
      ClearingNewest(rows[..n], key, now);
      assert after[..n] == ClearedRows(rows[..n], id, now);
      assert !OpenFor(rows[n], key);
    }
  }

  /** A step that neither shelves nor un-shelves anything. */
  predicate Quiet(s: System, step: Step) {
    !step.Shelve? && (step.Unshelve? ==> Unshelved(s.rows, step.now) == s.rows)
  }

  /** What the poller remembers between two of its database calls is still true. */
  predicate Consistent(s: System, device: string, th: nat)
    requires th < |THRESHOLDS|
  {
    var pc := PcOf(s, device);
    var ids := OpenIds(s.rows, KeyOf(device, th));
    && (pc.Checked? && pc.th == th ==> pc.has == (ids != []))
    && (pc.Found? && pc.th == th ==>
          ids != [] && pc.id == Newest(ids) &&
          Monitors(pc.regs, th) && Safe(THRESHOLDS[th], pc.regs[THRESHOLDS[th].register]))
  }

  /** A poller only ever clears an alarm of its own device and of the register it is looking at. */
  predicate OwnAlarm(s: System, device: string) {
    var pc := PcOf(s, device);
    pc.Found? && pc.id.Some? ==>
      pc.th < |THRESHOLDS| && ValidId(s.rows, pc.id.value) &&
      s.rows[pc.id.value].device == device && s.rows[pc.id.value].register == THRESHOLDS[pc.th].register
  }

  ghost predicate OwnAlarmsOnly(s: System) {
    forall device :: OwnAlarm(s, device)
  }

  lemma FindsOwnAlarm(s: System, device: string, now: int)
    requires PcOf(s, device).Checked?
    ensures OwnAlarm(Advanced(s, device, now), device)
  {
    var t, pc := Advanced(s, device, now), PcOf(s, device);
    if PcOf(t, device).Found? {
      OpenIdsAreOpen(s.rows, KeyOf(device, pc.th));
    }
  }

  lemma OwnAlarmStep(s: System, step: Step, device: string)
    requires OwnAlarm(s, device)
    ensures OwnAlarm(Next(s, step), device)
  {
    NextExtends(s, step);
    if step.Advance? && step.device == device && PcOf(s, device).Checked? {
      FindsOwnAlarm(s, device, step.now);
    } else {
      assert PcOf(Next(s, step), device).Found? ==> PcOf(Next(s, step), device) == PcOf(s, device);
    }
  }

  lemma OwnAlarmsOnlyStep(s: System, step: Step)
    requires OwnAlarmsOnly(s)
    ensures OwnAlarmsOnly(Next(s, step))
  {
    forall device ensures OwnAlarm(Next(s, step), device) {
      OwnAlarmStep(s, step, device);
    }
  }

  /** What handling one reading does to the open alarms of its key; `id` is the next free id. */
  function Handle(th: Threshold, ids: seq<nat>, value: nat, id: nat): seq<nat> {
    if ids == [] then (if ToRaise(th, value).Some? then [id] else [])
    else if Safe(th, value) then ids[..|ids| - 1]
    else ids
  }

  /** From `s` to `t`, one reading of the key was handled. */
  predicate HandledAs(s: System, t: System, device: string, th: nat, value: nat)
    requires th < |THRESHOLDS|
  {
    var key := KeyOf(device, th);
    && SamplesOf(t, key) == SamplesOf(s, key) + [value]
    && OpenIds(t.rows, key) == Handle(THRESHOLDS[th], OpenIds(s.rows, key), value, |s.rows|)
  }

  predicate Untouched(s: System, t: System, device: string, th: nat)
    requires th < |THRESHOLDS|
  {
    var key := KeyOf(device, th);
    SamplesOf(t, key) == SamplesOf(s, key) && OpenIds(t.rows, key) == OpenIds(s.rows, key)
  }

  /** Seen from one key, nothing happened or one reading was handled at once. */
  ghost predicate Refines(s: System, t: System, device: string, th: nat)
    requires th < |THRESHOLDS|
  {
    && Consistent(t, device, th)
    && (Untouched(s, t, device, th) || exists value :: HandledAs(s, t, device, th, value))
  }

  /** Interleaved with anything that is quiet, polling refines handling one reading at a time. */
  lemma StepRefinesHandle(s: System, step: Step, device: string, th: nat)
    requires th < |THRESHOLDS| && Consistent(s, device, th) && OwnAlarmsOnly(s) && Quiet(s, step)
    ensures Refines(s, Next(s, step), device, th)
  {
    if step.Advance? && step.device == device && PcOf(s, device) != Idle && PcOf(s, device).th == th {
      OwnStepRefinesHandle(s, device, th, step.now);
    } else {
      StrangersKeepOpenIds(s, step, device, th);
      StrangersKeepPc(s, step, device, th);
      hide Next, PcOf, OpenIds, Monitors, Safe;
    }
  }

  lemma StrangersKeepPc(s: System, step: Step, device: string, th: nat)
    requires Strange(s, step, device, th)
    ensures var pc := PcOf(Next(s, step), device);
            (pc.Checked? || pc.Found?) && pc.th == th ==> pc == PcOf(s, device)
  {
    hide OpenIds, Newest, Safe, ToRaise, Acked, ShelvedRows, ClearedRows, Unshelved;
  }

  lemma OwnStepRefinesHandle(s: System, device: string, th: nat, now: int)
    requires th < |THRESHOLDS| && Consistent(s, device, th) && PcOf(s, device) != Idle && PcOf(s, device).th == th
    ensures Refines(s, Advanced(s, device, now), device, th)
  {
    hide Advanced, Refines, Consistent;
    if PcOf(s, device).Found? {
      CloseRefinesHandle(s, device, th, now);
    } else if PcOf(s, device).Checked? && Monitors(PcOf(s, device).regs, th) {
      ActRefinesHandle(s, device, th, now);
    } else {
      LookRefinesHandle(s, device, th, now);
    }
  }

  lemma LookRefinesHandle(s: System, device: string, th: nat, now: int)
    requires th < |THRESHOLDS| && Consistent(s, device, th) && PcOf(s, device) != Idle && PcOf(s, device).th == th
    requires PcOf(s, device).At? || (PcOf(s, device).Checked? && !Monitors(PcOf(s, device).regs, th))
    ensures Refines(s, Advanced(s, device, now), device, th)
  {
    assert Untouched(s, Advanced(s, device, now), device, th);
  }

  lemma CloseRefinesHandle(s: System, device: string, th: nat, now: int)
    requires th < |THRESHOLDS| && Consistent(s, device, th)
    requires PcOf(s, device).Found? && PcOf(s, device).th == th
    ensures Refines(s, Advanced(s, device, now), device, th)
  {
    var key := KeyOf(device, th);
    ClearingNewest(s.rows, key, now);
    assert HandledAs(s, Advanced(s, device, now), device, th, PcOf(s, device).regs[key.register]);
  }

  lemma ActRefinesHandle(s: System, device: string, th: nat, now: int)
    requires th < |THRESHOLDS| && Consistent(s, device, th)
    requires PcOf(s, device).Checked? && PcOf(s, device).th == th && Monitors(PcOf(s, device).regs, th)
    ensures Refines(s, Advanced(s, device, now), device, th)
  {
    var t, key, pc := Advanced(s, device, now), KeyOf(device, th), PcOf(s, device);
    var value := pc.regs[key.register];
    if pc.has && Safe(THRESHOLDS[th], value) {
      assert Untouched(s, t, device, th);
    } else {
      assert HandledAs(s, t, device, th, value) by {
        if !pc.has {
          RaiseRefinesHandle(s, device, th, now);
        }
      }
    }
  }

  lemma Raised(rows: Table, key: Key, priority: Priority, value: nat, limit: nat)
    ensures OpenIds(rows + [RaisedRow(key, priority, value, limit)], key) == OpenIds(rows, key) + [|rows|]
  {
    assert (rows + [RaisedRow(key, priority, value, limit)])[..|rows|] == rows;
  }

  lemma RaiseRefinesHandle(s: System, device: string, th: nat, now: int)
    requires th < |THRESHOLDS| && OpenIds(s.rows, KeyOf(device, th)) == []
    requires PcOf(s, device).Checked? && PcOf(s, device).th == th && Monitors(PcOf(s, device).regs, th)
    requires !PcOf(s, device).has
    ensures HandledAs(s, Advanced(s, device, now), device, th, PcOf(s, device).regs[KeyOf(device, th).register])
  {
    var key := KeyOf(device, th);
    var value := PcOf(s, device).regs[key.register];
    var raise := ToRaise(THRESHOLDS[th], value);
    if raise.Some? {
      Raised(s.rows, key, raise.value.0, value, raise.value.1);
    }
    hide OpenIds, ToRaise, RaisedRow, Safe, Newest;
  }

  /** Another key's reading, or another device's, is being handled. */
  predicate Strange(s: System, step: Step, device: string, th: nat) {
    step.Advance? && step.device == device ==> PcOf(s, device) == Idle || PcOf(s, device).th != th
  }

  lemma StrangersKeepSamples(s: System, step: Step, device: string, th: nat)
    requires th < |THRESHOLDS| && Strange(s, step, device, th)
    ensures SamplesOf(Next(s, step), KeyOf(device, th)) == SamplesOf(s, KeyOf(device, th))
  {
    hide Acked, ShelvedRows, ClearedRows, Unshelved, OpenIds, Newest, ToRaise, Safe;
  }

  /** The rows of a key stay open, or not, under whatever a stranger does. */
  lemma StrangersKeepRows(s: System, step: Step, device: string, th: nat)
    requires th < |THRESHOLDS| && OwnAlarmsOnly(s) && Quiet(s, step) && Strange(s, step, device, th)
    ensures var t, key := Next(s, step), KeyOf(device, th);
            && |s.rows| <= |t.rows| <= |s.rows| + 1
            && (forall id :: 0 <= id < |s.rows| ==> OpenFor(t.rows[id], key) == OpenFor(s.rows[id], key))
            && (|t.rows| > |s.rows| ==> !OpenFor(t.rows[|s.rows|], key))
  {
    hide OpenIds, Newest, Safe;
    if step.Advance? {
      var pc := PcOf(s, step.device);
      assert OwnAlarm(s, step.device);
      assert pc.Found? && pc.id.Some? && pc.th < |THRESHOLDS| ==> KeyOf(step.device, pc.th) != KeyOf(device, th);
    }
  }

  lemma StrangersKeepOpenIds(s: System, step: Step, device: string, th: nat)
    requires th < |THRESHOLDS| && OwnAlarmsOnly(s) && Quiet(s, step) && Strange(s, step, device, th)
    ensures Untouched(s, Next(s, step), device, th)
  {
    StrangersKeepSamples(s, step, device, th);
    StrangersKeepRows(s, step, device, th);
    hide Next, OpenFor, Strange, Quiet, OwnAlarmsOnly;
    var t, key := Next(s, step), KeyOf(device, th);
    SameOpenIds(s.rows, t.rows[..|s.rows|], key);
    assert |t.rows| == |s.rows| ==> t.rows[..|s.rows|] == t.rows;
  }

  lemma StepKeepsSamples(s: System, step: Step, key: Key)
    ensures SamplesOf(s, key) <= SamplesOf(Next(s, step), key)
  {
    hide OpenIds, Newest, Safe, ToRaise, Acked, ShelvedRows, ClearedRows, Unshelved;
  }

  lemma {:induction false} SamplesGrow(s: System, steps: seq<Step>, n: nat, key: Key)
    requires n <= |steps|
    ensures SamplesOf(Run(s, steps[..n]), key) <= SamplesOf(Run(s, steps), key)
  {
    if n == |steps| {
      assert steps[..n] == steps;
    } else {
      var prefix := steps[..|steps| - 1];
      assert prefix[..n] == steps[..n];
      SamplesGrow(s, prefix, n, key);
      RunNext(s, steps);
      hide Run, Next, SamplesOf;
      StepKeepsSamples(Run(s, prefix), steps[|steps| - 1], key);
    }
  }

  // ---- Hysteresis ----

  /** Neither safe nor critical: such a reading leaves the alarm as it is. */
  predicate InBand(th: Threshold, value: nat) {
    !Safe(th, value) && ToRaise(th, value).None?
  }

  /** The latest reading outside the band was critical. */
  predicate Latched(th: Threshold, samples: seq<nat>) {
    exists i :: 0 <= i < |samples| && ToRaise(th, samples[i]).Some? &&
                forall j :: i < j < |samples| ==> InBand(th, samples[j])
  }

  /** No reading is both safe and critical. */
  predicate Apart(th: Threshold) {
    th.critHigh.Some? && th.warnHigh.Some? && 100 * th.critHigh.value >= 95 * th.warnHigh.value
  }

  lemma LimitsApart(th: nat)
    requires th < |THRESHOLDS|
    ensures Apart(THRESHOLDS[th])
  {}

  lemma LatchedStep(th: Threshold, samples: seq<nat>, value: nat)
    requires Apart(th)
    ensures Latched(th, samples + [value]) <==>
            ToRaise(th, value).Some? || (Latched(th, samples) && !Safe(th, value))
  {
    var after := samples + [value];
    var n := |samples|;
    if ToRaise(th, value).Some? {
      assert ToRaise(th, after[n]).Some?;
    } else if Latched(th, samples) && !Safe(th, value) {
      var i :| 0 <= i < n && ToRaise(th, samples[i]).Some? && forall j :: i < j < n ==> InBand(th, samples[j]);
      assert ToRaise(th, after[i]).Some?;
      assert forall j :: i < j < n + 1 ==> InBand(th, after[j]);
    }
    if Latched(th, after) && ToRaise(th, value).None? {
      var i :| 0 <= i < n + 1 && ToRaise(th, after[i]).Some? && forall j :: i < j < n + 1 ==> InBand(th, after[j]);
      assert InBand(th, after[n]) && ToRaise(th, samples[i]).Some?;
      assert forall j :: i < j < n ==> InBand(th, after[j]) && after[j] == samples[j];
    }
  }

  lemma {:induction false} InitiallyConsistent(steps: seq<Step>, device: string, th: nat)
    requires NoShelving(steps) && th < |THRESHOLDS|
    ensures Consistent(Run(INIT, steps), device, th) && OwnAlarmsOnly(Run(INIT, steps))
  {
    if steps != [] {
      var prefix, step := steps[..|steps| - 1], steps[|steps| - 1];
      InitiallyConsistent(prefix, device, th);
      QuietWithoutShelving(prefix, step);
      StepRefinesHandle(Run(INIT, prefix), step, device, th);
      OwnAlarmsOnlyStep(Run(INIT, prefix), step);
    }
  }

  lemma QuietWithoutShelving(prefix: seq<Step>, step: Step)
    requires NoShelving(prefix) && !step.Shelve?
    ensures Quiet(Run(INIT, prefix), step)
  {
    NothingShelved(prefix);
    if step.Unshelve? {
      var s := Run(INIT, prefix);
      assert forall id :: ValidId(s.rows, id) ==> s.rows[id].state != Shelved;
      assert Unshelved(s.rows, step.now) == s.rows;
    }
  }

  /** Without shelving, an alarm is open exactly when the latest reading outside [0.95 * warn, crit) was critical. */
  lemma {:induction false} Hysteresis(steps: seq<Step>, device: string, th: nat)
    requires NoShelving(steps) && th < |THRESHOLDS|
    ensures OpenIds(Run(INIT, steps).rows, KeyOf(device, th)) != [] <==>
            Latched(THRESHOLDS[th], SamplesOf(Run(INIT, steps), KeyOf(device, th)))
  {
    if steps != [] {
      var prefix, step, key := steps[..|steps| - 1], steps[|steps| - 1], KeyOf(device, th);
      var s := Run(INIT, prefix);
      Hysteresis(prefix, device, th);
      InitiallyConsistent(prefix, device, th);
      QuietWithoutShelving(prefix, step);
      StepRefinesHandle(s, step, device, th);
      AtMostOneOpenAlarm(prefix, key);
      var t := Next(s, step);
      if SamplesOf(t, key) != SamplesOf(s, key) {
        var value :| HandledAs(s, t, device, th, value);
        LatchedStep(THRESHOLDS[th], SamplesOf(s, key), value);
      }
    }
  }

  /** The step adds a row for the key. */
  predicate Raises(s: System, step: Step, key: Key) {
    |Next(s, step).rows| > |s.rows| && OpenFor(Next(s, step).rows[|s.rows|], key)
  }

  lemma {:induction false} StaysLatched(th: Threshold, samples: seq<nat>, p: nat)
    requires Apart(th) && p < |samples| && ToRaise(th, samples[p]).Some?
    requires forall m :: p < m < |samples| ==> !Safe(th, samples[m])
    ensures Latched(th, samples)
    decreases |samples|
  {
    var n := |samples| - 1;
    assert samples == samples[..n] + [samples[n]];
    LatchedStep(th, samples[..n], samples[n]);
    if p < n {
      StaysLatched(th, samples[..n], p);
    }
  }

  /** Between two alarms raised for one key, some handled reading was safe. */
  lemma RaisesAreSeparated(steps: seq<Step>, p: nat, q: nat, device: string, th: nat) returns (m: nat)
    requires NoShelving(steps) && th < |THRESHOLDS| && p < q < |steps|
    requires Raises(Run(INIT, steps[..p]), steps[p], KeyOf(device, th))
    requires Raises(Run(INIT, steps[..q]), steps[q], KeyOf(device, th))
    ensures var (key, s, t) := (KeyOf(device, th), Run(INIT, steps[..p]), Run(INIT, steps[..q]));
            |SamplesOf(s, key)| < m < |SamplesOf(t, key)| && Safe(THRESHOLDS[th], SamplesOf(t, key)[m])
  {
    hide Run, Next, Safe, ToRaise, OpenIds, Raises, SawNone, Latched, SamplesOf, Consistent, OwnAlarmsOnly;
    var key := KeyOf(device, th);
    var s, t := Run(INIT, steps[..p]), Run(INIT, steps[..q]);
    RaisingReading(s, steps[p], device, th);
    RaisingReading(t, steps[q], device, th);
    InitiallyConsistent(steps[..q], device, th);
    Hysteresis(steps[..q], device, th);
    LimitsApart(th);
    SeenNoneIsNone(t, device, th);
    assert steps[..p + 1][..p] == steps[..p] && steps[..q][..p + 1] == steps[..p + 1];
    RunNext(INIT, steps[..p + 1]);
    SamplesGrow(INIT, steps[..q], p + 1, key);
    m := SafeInBetween(THRESHOLDS[th], SamplesOf(s, key), SamplesOf(Next(s, steps[p]), key), SamplesOf(t, key));
  }

  lemma SeenNoneIsNone(s: System, device: string, th: nat)
    requires th < |THRESHOLDS| && SawNone(s, device, KeyOf(device, th)) && Consistent(s, device, th)
    ensures OpenIds(s.rows, KeyOf(device, th)) == []
  {
    hide OpenIds, Safe;
  }

  lemma SafeInBetween(th: Threshold, before: seq<nat>, after: seq<nat>, now: seq<nat>) returns (m: nat)
    requires Apart(th) && |after| == |before| + 1 && after <= now
    requires ToRaise(th, after[|before|]).Some? && !Latched(th, now)
    ensures |before| < m < |now| && Safe(th, now[m])
  {
    assert now[|before|] == after[|before|];
    hide ToRaise, Safe, Latched;
    if forall m :: |before| < m < |now| ==> !Safe(th, now[m]) {
      StaysLatched(th, now, |before|);
      assert false;
    }
    m :| |before| < m < |now| && Safe(th, now[m]);
  }

  lemma RaisingReading(s: System, step: Step, device: string, th: nat)
    requires th < |THRESHOLDS| && Raises(s, step, KeyOf(device, th))
    ensures var key := KeyOf(device, th);
            && SawNone(s, device, key)
            && |SamplesOf(Next(s, step), key)| == |SamplesOf(s, key)| + 1
            && ToRaise(THRESHOLDS[th], SamplesOf(Next(s, step), key)[|SamplesOf(s, key)|]).Some?
  {}

  // ---- Drain ----

  /** The first ids that are left after the newest `polls` are gone. */
  function Undrained(ids: seq<nat>, polls: nat): seq<nat> {
    ids[..if polls <= |ids| then |ids| - polls else 0]
  }

  lemma DropTwice(ids: seq<nat>, polls: nat)
    ensures var rest := Undrained(ids, polls);
            Undrained(ids, polls + 1) == if rest == [] then [] else rest[..|rest| - 1]
  {}

  /** Since `s`, every reading handled for the key has closed the newest open alarm, if there was one. */
  predicate DrainedSince(s: System, t: System, key: Key) {
    var before, now := |SamplesOf(s, key)|, |SamplesOf(t, key)|;
    before <= now && OpenIds(t.rows, key) == Undrained(OpenIds(s.rows, key), now - before)
  }

  /** All readings handled for the key since `s` are safe. */
  predicate SafeSince(s: System, t: System, device: string, th: nat)
    requires th < |THRESHOLDS|
  {
    var key := KeyOf(device, th);
    forall i :: |SamplesOf(s, key)| <= i < |SamplesOf(t, key)| ==> Safe(THRESHOLDS[th], SamplesOf(t, key)[i])
  }

  lemma SafeReadingDropsNewest(r: System, t: System, device: string, th: nat, value: nat)
    requires th < |THRESHOLDS| && HandledAs(r, t, device, th, value) && Safe(THRESHOLDS[th], value)
    ensures var ids := OpenIds(r.rows, KeyOf(device, th));
            OpenIds(t.rows, KeyOf(device, th)) == if ids == [] then [] else ids[..|ids| - 1]
  {}

  lemma DrainStep(s: System, r: System, step: Step, device: string, th: nat)
    requires th < |THRESHOLDS| && Consistent(r, device, th) && OwnAlarmsOnly(r)
    requires DrainedSince(s, r, KeyOf(device, th)) && !step.Shelve? && !step.Unshelve?
    requires var handled := SamplesOf(Next(r, step), KeyOf(device, th));
             |SamplesOf(r, KeyOf(device, th))| < |handled| ==> Safe(THRESHOLDS[th], handled[|handled| - 1])
    ensures DrainedSince(s, Next(r, step), KeyOf(device, th))
  {
    var t, key := Next(r, step), KeyOf(device, th);
    StepRefinesHandle(r, step, device, th);
    if SamplesOf(t, key) != SamplesOf(r, key) {
      var value :| HandledAs(r, t, device, th, value);
      SafeReadingDropsNewest(r, t, device, th, value);
      DropTwice(OpenIds(s.rows, key), |SamplesOf(r, key)| - |SamplesOf(s, key)|);
    }
  }

  lemma {:induction false} DrainFrom(s: System, steps: seq<Step>, device: string, th: nat)
    requires th < |THRESHOLDS| && Consistent(s, device, th) && OwnAlarmsOnly(s)
    requires forall i :: 0 <= i < |steps| ==> !steps[i].Shelve? && !steps[i].Unshelve?
    requires SafeSince(s, Run(s, steps), device, th)
    ensures DrainedSince(s, Run(s, steps), KeyOf(device, th))
    ensures Consistent(Run(s, steps), device, th) && OwnAlarmsOnly(Run(s, steps))
  {
    var key := KeyOf(device, th);
    if steps == [] {
      assert Undrained(OpenIds(s.rows, key), 0) == OpenIds(s.rows, key);
    } else {
      var prefix, step := steps[..|steps| - 1], steps[|steps| - 1];
      SamplesGrow(s, steps, |prefix|, key);
      DrainFrom(s, prefix, device, th);
      DrainStep(s, Run(s, prefix), step, device, th);
      StepRefinesHandle(Run(s, prefix), step, device, th);
      OwnAlarmsOnlyStep(Run(s, prefix), step);
    }
  }

  /** The poller is not between its look at the key and the end of what it does about it. */
  predicate Settled(s: System, device: string, th: nat) {
    var pc := PcOf(s, device);
    (pc.Checked? || pc.Found?) ==> pc.th != th
  }

  lemma SettledIsConsistent(s: System, device: string, th: nat)
    requires th < |THRESHOLDS| && Settled(s, device, th)
    ensures Consistent(s, device, th)
  {
    hide OpenIds, Safe;
  }

  /** However alarms were shelved and un-shelved before, a poller acts on alarms of its own. */
  lemma {:induction false} OwnAlarmsAlways(steps: seq<Step>)
    ensures OwnAlarmsOnly(Run(INIT, steps))
  {
    if steps != [] {
      OwnAlarmsAlways(steps[..|steps| - 1]);
      OwnAlarmsOnlyStep(Run(INIT, steps[..|steps| - 1]), steps[|steps| - 1]);
    }
  }

  /**
   * From any reachable state, with any number of open alarms: safe readings close them one by one, newest first,
   * while operators may acknowledge.
   */
  lemma {:induction false} Drain(before: seq<Step>, steps: seq<Step>, device: string, th: nat)
    requires th < |THRESHOLDS| && Settled(Run(INIT, before), device, th)
    requires forall i :: 0 <= i < |steps| ==> !steps[i].Shelve? && !steps[i].Unshelve?
    requires SafeSince(Run(INIT, before), Run(Run(INIT, before), steps), device, th)
    ensures DrainedSince(Run(INIT, before), Run(Run(INIT, before), steps), KeyOf(device, th))
  {
    var s := Run(INIT, before);
    OwnAlarmsAlways(before);
    SettledIsConsistent(s, device, th);
    hide Run, SamplesOf, OpenIds, Safe, OwnAlarmsOnly, Consistent;
    DrainFrom(s, steps, device, th);
  }

  // ---- An undisturbed poll ----

  function Drive(s: System, device: string, now: int, n: nat): System {
    if n == 0 then s else Advanced(Drive(s, device, now, n - 1), device, now)
  }

  lemma {:induction false} DriveAdds(s: System, device: string, now: int, m: nat, n: nat)
    ensures Drive(Drive(s, device, now, m), device, now, n) == Drive(s, device, now, m + n)
  {
    hide Advanced;
    if n > 0 {
      DriveAdds(s, device, now, m, n - 1);
    }
  }

  lemma ActFound(s: System, device: string, regs: map<nat, nat>, th: nat, now: int)
    requires Monitors(regs, th) && Safe(THRESHOLDS[th], regs[THRESHOLDS[th].register])
    requires OpenIds(s.rows, KeyOf(device, th)) != []
    requires PcOf(s, device) == Found(regs, th, Newest(OpenIds(s.rows, KeyOf(device, th))))
    ensures var t := Advanced(s, device, now);
            PcOf(t, device) == At(regs, th + 1) && t.rows == PolledOne(s.rows, device, regs, th, now)
  {}

  lemma ActOne(s: System, device: string, regs: map<nat, nat>, th: nat, now: int) returns (n: nat, t: System)
    requires Monitors(regs, th)
    requires PcOf(s, device) == Checked(regs, th, OpenIds(s.rows, KeyOf(device, th)) != [])
    ensures t == Drive(s, device, now, n)
    ensures PcOf(t, device) == At(regs, th + 1) && t.rows == PolledOne(s.rows, device, regs, th, now)
  {
    DriveOnce(s, device, now);
    var ids := OpenIds(s.rows, KeyOf(device, th));
    n, t := 1, Advanced(s, device, now);
    if ids != [] && Safe(THRESHOLDS[th], regs[THRESHOLDS[th].register]) {
      assert t == MoveTo(s, device, Found(regs, th, Newest(ids)));
      ActFound(t, device, regs, th, now);
      DriveOnce(t, device, now);
      DriveAdds(s, device, now, 1, 1);
      n, t := 2, Advanced(t, device, now);
    }
  }

  lemma DriveOnce(s: System, device: string, now: int)
    ensures Drive(s, device, now, 1) == Advanced(s, device, now)
  {
    assert Drive(s, device, now, 0) == s;
  }

  lemma LookOne(s: System, device: string, regs: map<nat, nat>, th: nat, now: int)
    requires th < |THRESHOLDS| && PcOf(s, device) == At(regs, th)
    ensures var t := Advanced(s, device, now);
            && t.rows == s.rows
            && (!Monitors(regs, th) ==> t.rows == PolledOne(s.rows, device, regs, th, now))
            && PcOf(t, device) == if Monitors(regs, th)
                               then Checked(regs, th, OpenIds(s.rows, KeyOf(device, th)) != []) else At(regs, th + 1)
  {}

  lemma DriveOne(s: System, device: string, regs: map<nat, nat>, th: nat, now: int) returns (n: nat, t: System)
    requires th < |THRESHOLDS| && PcOf(s, device) == At(regs, th)
    ensures t == Drive(s, device, now, n)
    ensures PcOf(t, device) == At(regs, th + 1) && t.rows == PolledOne(s.rows, device, regs, th, now)
  {
    hide *;
    DriveOnce(s, device, now);
    LookOne(s, device, regs, th, now);
    if Monitors(regs, th) {
      var s1 := Drive(s, device, now, 1);
      var k;
      k, t := ActOne(s1, device, regs, th, now);
      DriveAdds(s, device, now, 1, k);
      n := 1 + k;
    } else {
      n, t := 1, Drive(s, device, now, 1);
    }
  }

  /** With nobody else at work, stepping a poller through its loop does what the sequential loop does. */
  lemma {:induction false} UndisturbedPoll(s: System, device: string, regs: map<nat, nat>, now: int, upTo: nat)
      returns (n: nat, t: System)
    requires upTo <= |THRESHOLDS| && PcOf(s, device) == Idle
    ensures t == Drive(Next(s, Begin(device, regs)), device, now, n)
    ensures PcOf(t, device) == At(regs, upTo) && t.rows == PolledAll(s.rows, device, regs, now, upTo)
  {
    var begun := Next(s, Begin(device, regs));
    hide Advanced;
    if upTo == 0 {
      n, t := 0, begun;
    } else {
      var m, k;
      m, t := UndisturbedPoll(s, device, regs, now, upTo - 1);
      k, t := DriveOne(t, device, regs, upTo - 1, now);
      DriveAdds(begun, device, now, m, k);
      n := m + k;
    }
  }
}
