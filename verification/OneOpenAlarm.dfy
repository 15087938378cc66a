/**
 * When exactly a key has at most one open alarm: not always, because un-shelving an alarm opens it without looking
 * for another, and because a poller raises on what it saw before the last step of somebody else.
 */
module OneOpenAlarm {
  import opened Wrappers
  import opened Alarms
  import opened AlarmRuns

  predicate OpenAt(rows: Table, key: Key, id: int) {
    ValidId(rows, id) && OpenFor(rows[id], key)
  }

  ghost predicate OneOpen(rows: Table) {
    forall key, i, j :: OpenAt(rows, key, i) && OpenAt(rows, key, j) ==> i == j
  }

  lemma TwoIds(rows: Table, key: Key, i: int, j: int)
    requires OpenAt(rows, key, i) && OpenAt(rows, key, j) && i != j
    ensures |OpenIds(rows, key)| > 1
  {
    OpenIdsAreAll(rows, key);
    var ids := OpenIds(rows, key);
    var a :| 0 <= a < |ids| && ids[a] == i;
    var b :| 0 <= b < |ids| && ids[b] == j;
  }

  lemma OneId(rows: Table, key: Key)
    requires OneOpen(rows)
    ensures |OpenIds(rows, key)| <= 1
  {
    OpenIdsAreOpen(rows, key);
    var ids := OpenIds(rows, key);
    assert |ids| > 1 ==> OpenAt(rows, key, ids[0]) && OpenAt(rows, key, ids[1]);
  }

  lemma OneOpenMeansOneId(rows: Table)
    ensures OneOpen(rows) <==> forall key :: |OpenIds(rows, key)| <= 1
  {
    hide OpenIds;
    if OneOpen(rows) {
      forall key ensures |OpenIds(rows, key)| <= 1 {
        OneId(rows, key);
      }
    } else {
      var key, i, j :| OpenAt(rows, key, i) && OpenAt(rows, key, j) && i != j;
      TwoIds(rows, key, i, j);
    }
  }

  // ---- The guard of each step ----

  /** The row is open, or opens when expired alarms are un-shelved now. */
  predicate WouldBeOpen(rows: Table, key: Key, id: int, now: int) {
    ValidId(rows, id) && rows[id].device == key.device && rows[id].register == key.register
    && (IsOpen(rows[id]) || Expired(rows[id], now))
  }

  ghost predicate WakesOnePerKey(rows: Table, now: int) {
    forall key, i, j :: WouldBeOpen(rows, key, i, now) && WouldBeOpen(rows, key, j, now) ==> i == j
  }

  /** The next step of the poller raises an alarm. */
  predicate AboutToRaise(s: System, device: string) {
    var pc := PcOf(s, device);
    pc.Checked? && !pc.has && Monitors(pc.regs, pc.th)
    && ToRaise(THRESHOLDS[pc.th], pc.regs[THRESHOLDS[pc.th].register]).Some?
  }

  /** What must hold before a step: un-shelving opens no second alarm, and what a raising poller saw is still true. */
  ghost predicate Guard(s: System, step: Step) {
    && (step.Unshelve? ==> WakesOnePerKey(s.rows, step.now))
    && (step.Advance? && AboutToRaise(s, step.device) ==>
          OpenIds(s.rows, KeyOf(step.device, PcOf(s, step.device).th)) == [])
  }

  lemma UnshelvingOpens(rows: Table, now: int)
    ensures forall key, id :: OpenAt(Unshelved(rows, now), key, id) <==> WouldBeOpen(rows, key, id, now)
  {}

  lemma RaisingOpens(rows: Table, key: Key, priority: Priority, value: nat, limit: nat)
    ensures var after := rows + [RaisedRow(key, priority, value, limit)];
            forall k, id :: OpenAt(after, k, id) <==> OpenAt(rows, k, id) || (k == key && id == |rows|)
  {}

  lemma NoneOpenAt(rows: Table, key: Key)
    ensures OpenIds(rows, key) == [] <==> forall id :: !OpenAt(rows, key, id)
  {
    NoneOpen(rows, key);
    hide OpenIds, OpenFor;
    assert forall id :: OpenAt(rows, key, id) <==> ValidId(rows, id) && OpenFor(rows[id], key);
  }

  lemma RaisingKeepsOneOpen(rows: Table, key: Key, priority: Priority, value: nat, limit: nat)
    requires OneOpen(rows)
    ensures OneOpen(rows + [RaisedRow(key, priority, value, limit)]) <==> OpenIds(rows, key) == []
  {
    var after := rows + [RaisedRow(key, priority, value, limit)];
    RaisingOpens(rows, key, priority, value, limit);
    NoneOpenAt(rows, key);
    assert !OpenAt(rows, key, |rows|);
    hide RaisedRow, OpenIds, OpenAt;
    assert OpenAt(after, key, |rows|);
    if OpenIds(rows, key) != [] {
      var id :| OpenAt(rows, key, id);
      assert OpenAt(after, key, id);
    }
  }

  /** What a raising poller makes of the rows. */
  lemma RaisingStep(s: System, device: string, now: int)
    requires AboutToRaise(s, device)
    ensures var pc := PcOf(s, device);
            var raise := ToRaise(THRESHOLDS[pc.th], pc.regs[THRESHOLDS[pc.th].register]).value;
            Advanced(s, device, now).rows
            == s.rows + [RaisedRow(KeyOf(device, pc.th), raise.0, pc.regs[THRESHOLDS[pc.th].register], raise.1)]
  {
    hide OpenIds, Newest;
  }

  /** The other steps of a poller, and of operators, open nothing. */
  lemma OthersOpenNothing(s: System, step: Step, key: Key, id: int)
    requires !step.Unshelve? && !(step.Advance? && AboutToRaise(s, step.device))
    requires OpenAt(Next(s, step).rows, key, id)
    ensures OpenAt(s.rows, key, id)
  {
    hide OpenIds, Newest, Safe;
  }

  /** A step keeps "at most one open alarm per key" if and only if its guard holds. */
  lemma KeepsOneOpenIff(s: System, step: Step)
    requires OneOpen(s.rows)
    ensures OneOpen(Next(s, step).rows) <==> Guard(s, step)
  {
    if step.Unshelve? {
      UnshelvingOpens(s.rows, step.now);
      hide Unshelved, WouldBeOpen;
    } else if step.Advance? && AboutToRaise(s, step.device) {
      var pc := PcOf(s, step.device);
      var value := pc.regs[THRESHOLDS[pc.th].register];
      var raise := ToRaise(THRESHOLDS[pc.th], value).value;
      RaisingStep(s, step.device, step.now);
      hide OneOpen, OpenIds, Advanced, ToRaise;
      RaisingKeepsOneOpen(s.rows, KeyOf(step.device, pc.th), raise.0, value, raise.1);
    } else {
      hide Next, OpenAt;
      forall key, i, j | OpenAt(Next(s, step).rows, key, i) && OpenAt(Next(s, step).rows, key, j)
        ensures i == j
      {
        OthersOpenNothing(s, step, key, i);
        OthersOpenNothing(s, step, key, j);
      }
    }
  }

  // ---- Whole runs ----

  ghost predicate AlwaysOneOpen(steps: seq<Step>) {
    forall n :: 0 <= n <= |steps| ==> OneOpen(Run(INIT, steps[..n]).rows)
  }

  ghost predicate AlwaysGuarded(steps: seq<Step>) {
    forall n :: 0 <= n < |steps| ==> Guard(Run(INIT, steps[..n]), steps[n])
  }

  lemma RunAfter(steps: seq<Step>, n: nat)
    requires n < |steps|
    ensures Run(INIT, steps[..n + 1]) == Next(Run(INIT, steps[..n]), steps[n])
  {
    assert steps[..n + 1][..n] == steps[..n];
  }

  lemma {:induction false} OneOpenSoFar(steps: seq<Step>, n: nat)
    requires n <= |steps| && AlwaysGuarded(steps)
    ensures OneOpen(Run(INIT, steps[..n]).rows)
  {
    if n > 0 {
      OneOpenSoFar(steps, n - 1);
      RunAfter(steps, n - 1);
      hide Run, OneOpen, Guard, Next;
      KeepsOneOpenIff(Run(INIT, steps[..n - 1]), steps[n - 1]);
    }
  }

  /** Throughout a run a key has at most one open alarm if and only if the guards hold at all its steps. */
  lemma AlwaysOneOpenIff(steps: seq<Step>)
    ensures AlwaysOneOpen(steps) <==> AlwaysGuarded(steps)
  {
    hide Run, OneOpen, Guard, Next;
    if AlwaysGuarded(steps) {
      forall n | 0 <= n <= |steps| ensures OneOpen(Run(INIT, steps[..n]).rows) {
        OneOpenSoFar(steps, n);
      }
    }
    if AlwaysOneOpen(steps) {
      forall n | 0 <= n < |steps| ensures Guard(Run(INIT, steps[..n]), steps[n]) {
        RunAfter(steps, n);
        assert OneOpen(Run(INIT, steps[..n]).rows) && OneOpen(Run(INIT, steps[..n + 1]).rows);
        KeepsOneOpenIff(Run(INIT, steps[..n]), steps[n]);
      }
    }
  }

  // ---- Shelving alone does no harm ----

  /** No un-shelving of the run finds an expired alarm. Alarms may be shelved. */
  ghost predicate WakesNothing(steps: seq<Step>) {
    forall n :: 0 <= n < |steps| && steps[n].Unshelve? ==>
      Unshelved(Run(INIT, steps[..n]).rows, steps[n].now) == Run(INIT, steps[..n]).rows
  }

  /** A poller that saw no open alarm is still right. */
  ghost predicate SightHolds(s: System) {
    forall device, key, id :: SawNone(s, device, key) ==> !OpenAt(s.rows, key, id)
  }

  predicate WakesNone(s: System, step: Step) {
    step.Unshelve? ==> Unshelved(s.rows, step.now) == s.rows
  }

  lemma OpenOrigin(s: System, step: Step, key: Key, id: int)
    requires WakesNone(s, step) && OpenAt(Next(s, step).rows, key, id) && !OpenAt(s.rows, key, id)
    ensures id == |s.rows| && step.Advance? && AboutToRaise(s, step.device) && SawNone(s, step.device, key)
  {
    if step.Advance? && AboutToRaise(s, step.device) {
      var pc := PcOf(s, step.device);
      var value := pc.regs[THRESHOLDS[pc.th].register];
      var raise := ToRaise(THRESHOLDS[pc.th], value).value;
      RaisingStep(s, step.device, step.now);
      RaisingOpens(s.rows, KeyOf(step.device, pc.th), raise.0, value, raise.1);
    } else if !step.Unshelve? {
      OthersOpenNothing(s, step, key, id);
      assert false;
    }
  }

  lemma SightHoldsStep(s: System, step: Step)
    requires SightHolds(s) && WakesNone(s, step)
    ensures SightHolds(Next(s, step))
  {
    var t := Next(s, step);
    hide Next, OpenIds, AboutToRaise;
    forall device, key, id | SawNone(t, device, key)
      ensures !OpenAt(t.rows, key, id)
    {
      SeeingNone(s, step, device, key);
      NoneOpenAt(s.rows, key);
      assert !OpenAt(s.rows, key, id);
      if OpenAt(t.rows, key, id) {
        OpenOrigin(s, step, key, id);
      }
    }
  }

  lemma GuardFromSight(s: System, step: Step)
    requires SightHolds(s) && OneOpen(s.rows) && WakesNone(s, step)
    ensures Guard(s, step)
  {
    if step.Unshelve? {
      UnshelvingOpens(s.rows, step.now);
      hide Unshelved, WouldBeOpen;
    } else if step.Advance? && AboutToRaise(s, step.device) {
      var key := KeyOf(step.device, PcOf(s, step.device).th);
      assert SawNone(s, step.device, key);
      NoneOpenAt(s.rows, key);
      hide OpenIds, ToRaise;
    }
  }

  lemma {:induction false} WakelessRun(steps: seq<Step>, n: nat)
    requires WakesNothing(steps) && n <= |steps|
    ensures OneOpen(Run(INIT, steps[..n]).rows) && SightHolds(Run(INIT, steps[..n]))
  {
    if n > 0 {
      WakelessRun(steps, n - 1);
      RunAfter(steps, n - 1);
      var s, step := Run(INIT, steps[..n - 1]), steps[n - 1];
      hide Run, OneOpen, SightHolds, Guard, Next;
      SightHoldsStep(s, step);
      GuardFromSight(s, step);
      KeepsOneOpenIff(s, step);
    }
  }

  /** In a run that wakes no shelved alarm, every key has at most one open alarm. */
  lemma {:induction false} OneOpenUnlessWoken(steps: seq<Step>, key: Key)
    requires WakesNothing(steps)
    ensures |OpenIds(Run(INIT, steps).rows, key)| <= 1
  {
    WakelessRun(steps, |steps|);
    assert steps[..|steps|] == steps;
    OneOpenMeansOneId(Run(INIT, steps).rows);
  }

  // ---- Both guards can fail ----

  lemma Append(steps: seq<Step>, step: Step) returns (more: seq<Step>)
    ensures more == steps + [step] && Run(INIT, more) == Next(Run(INIT, steps), step)
  {
    more := steps + [step];
    assert more[..|steps|] == steps;
  }

  const PLC := "plc"
  const TEMPERATURE := Key(PLC, 1028)
  const HOT := map[1028 := 100]

  /** The state of the two runs below. */
  function Scene(rows: Table, pc: Pc, shelved: set<nat>, samples: seq<nat>): System {
    System(rows, map[PLC := pc], shelved, map[TEMPERATURE := samples])
  }

  const RAISED := RaisedRow(TEMPERATURE, Critical, 100, 100)
  const SHELVED := RAISED.(state := Shelved, shelvedUntil := Some(61), shelvedBy := Some("op"))

  lemma OpenIdsOfOne(a: Alarm)
    ensures OpenIds([a], TEMPERATURE) == if OpenFor(a, TEMPERATURE) then [0] else []
  {
    assert [a][..0] == [];
  }

  lemma OpenIdsOfTwo(a: Alarm, b: Alarm)
    ensures OpenIds([a, b], TEMPERATURE)
         == OpenIds([a], TEMPERATURE) + if OpenFor(b, TEMPERATURE) then [1] else []
  {
    assert [a, b][..1] == [a];
  }

  /** A poller that saw no open alarm and read a critical temperature. */
  lemma RaisesHot(s: System, now: int)
    requires PcOf(s, PLC) == Checked(HOT, 0, false)
    ensures Next(s, Advance(PLC, now))
         == System(s.rows + [RAISED], s.pollers[PLC := At(HOT, 1)], s.everShelved,
                   s.samples[TEMPERATURE := SamplesOf(s, TEMPERATURE) + [100]])
  {
    assert Monitors(HOT, 0) && KeyOf(PLC, 0) == TEMPERATURE && HOT[1028] == 100;
    assert ToRaise(THRESHOLDS[0], 100) == Some((Critical, 100));
    assert AboutToRaise(s, PLC);
    RaisingStep(s, PLC, now);
  }

  lemma BeginsHot(s: System)
    requires PcOf(s, PLC) == Idle
    ensures Next(s, Begin(PLC, HOT)) == MoveTo(s, PLC, At(HOT, 0))
  {}

  lemma SeesNone(s: System, now: int)
    requires PcOf(s, PLC) == At(HOT, 0) && OpenIds(s.rows, TEMPERATURE) == []
    ensures Next(s, Advance(PLC, now)) == MoveTo(s, PLC, Checked(HOT, 0, false))
  {
    assert Monitors(HOT, 0) && KeyOf(PLC, 0) == TEMPERATURE;
  }

  /** The pressure was not read. */
  lemma SkipsPressure(s: System, now: int)
    requires PcOf(s, PLC) == At(HOT, 1)
    ensures Next(s, Advance(PLC, now)) == MoveTo(s, PLC, At(HOT, 2))
  {
    assert !Monitors(HOT, 1);
  }

  lemma Finishes(s: System, now: int)
    requires PcOf(s, PLC) == At(HOT, 2)
    ensures Next(s, Advance(PLC, now)) == MoveTo(s, PLC, Idle)
  {}

  lemma MovesTwice(s: System, first: Pc, second: Pc)
    ensures MoveTo(MoveTo(s, PLC, first), PLC, second) == MoveTo(s, PLC, second)
  {
    assert s.pollers[PLC := first][PLC := second] == s.pollers[PLC := second];
  }

  /** A whole look at the temperature that finds no open alarm. */
  lemma PollSeesNone(steps: seq<Step>, now: int) returns (more: seq<Step>)
    requires PcOf(Run(INIT, steps), PLC) == Idle && OpenIds(Run(INIT, steps).rows, TEMPERATURE) == []
    ensures Run(INIT, more) == MoveTo(Run(INIT, steps), PLC, Checked(HOT, 0, false))
  {
    var s := Run(INIT, steps);
    BeginsHot(s);
    SeesNone(MoveTo(s, PLC, At(HOT, 0)), now);
    MovesTwice(s, At(HOT, 0), Checked(HOT, 0, false));
    hide Run, Next, OpenIds, PcOf, MoveTo;
    more := Append(steps, Begin(PLC, HOT));
    more := Append(more, Advance(PLC, now));
  }

  lemma RaiseFirst() returns (steps: seq<Step>)
    ensures Run(INIT, steps) == Scene([RAISED], At(HOT, 1), {}, [100])
  {
    assert Run(INIT, []) == INIT && OpenIds([], TEMPERATURE) == [];
    hide Run, OpenIds;
    steps := PollSeesNone([], 0);
    RaisesHot(Run(INIT, steps), 0);
    hide Next;
    steps := Append(steps, Advance(PLC, 0));
    assert [] + [RAISED] == [RAISED] && [] + [100] == [100];
  }

  /** The poller raises an alarm, goes idle, and the operator shelves it for a minute. */
  lemma RaiseAndShelve() returns (steps: seq<Step>)
    ensures Run(INIT, steps) == Scene([SHELVED], Idle, {0}, [100])
  {
    steps := RaiseFirst();
    steps := GoIdle(steps, Run(INIT, steps));
    hide Run, Next;
    var s := Scene([RAISED], Idle, {}, [100]);
    assert Run(INIT, steps) == s;
    ShelvesIt(s);
    steps := Append(steps, Shelve(0, "op", 1, 1));
  }

  lemma GoIdle(steps: seq<Step>, s: System) returns (more: seq<Step>)
    requires Run(INIT, steps) == s && PcOf(s, PLC) == At(HOT, 1)
    ensures Run(INIT, more) == MoveTo(s, PLC, Idle)
  {
    SkipsPressure(s, 0);
    Finishes(MoveTo(s, PLC, At(HOT, 2)), 0);
    MovesTwice(s, At(HOT, 2), Idle);
    hide Run, Next, MoveTo, PcOf;
    more := Append(steps, Advance(PLC, 0));
    more := Append(more, Advance(PLC, 0));
  }

  lemma ShelvesIt(s: System)
    requires s.rows == [RAISED] && s.everShelved == {}
    ensures Next(s, Shelve(0, "op", 1, 1)) == s.(rows := [SHELVED], everShelved := {0})
  {}

  lemma Woken(now: int)
    requires now > 61
    ensures Unshelved([SHELVED], now) == [RAISED] && Unshelved([SHELVED, RAISED], now) == [RAISED, RAISED]
  {}

  lemma Unshelves(s: System, now: int)
    ensures Next(s, Unshelve(now)) == s.(rows := Unshelved(s.rows, now))
  {}

  /** An alarm raised while another was shelved; un-shelving makes it two. The poller is between two thresholds. */
  lemma ShelvingAllowsTwo() returns (steps: seq<Step>)
    ensures OpenIds(Run(INIT, steps).rows, TEMPERATURE) == [0, 1] && Settled(Run(INIT, steps), PLC, 0)
  {
    steps := RaiseAndShelve();
    OpenIdsOfOne(SHELVED);
    OpenIdsOfOne(RAISED);
    OpenIdsOfTwo(RAISED, RAISED);
    Woken(62);
    hide Run, Unshelved, Next, OpenIds;
    steps := PollSeesNone(steps, 2);
    RaisesHot(Run(INIT, steps), 2);
    steps := Append(steps, Advance(PLC, 2));
    assert [SHELVED] + [RAISED] == [SHELVED, RAISED];
    Unshelves(Run(INIT, steps), 62);
    steps := Append(steps, Unshelve(62));
    assert Run(INIT, steps).rows == [RAISED, RAISED];
  }

  /** An alarm un-shelved between the poller's look and its raise; the raise makes it two. */
  lemma StaleLookAllowsTwo() returns (steps: seq<Step>)
    ensures OpenIds(Run(INIT, steps).rows, TEMPERATURE) == [0, 1]
    ensures steps != [] && steps[|steps| - 1].Advance?
  {
    steps := RaiseAndShelve();
    OpenIdsOfOne(SHELVED);
    OpenIdsOfOne(RAISED);
    OpenIdsOfTwo(RAISED, RAISED);
    Woken(62);
    hide Run, Unshelved, Next, OpenIds;
    steps := PollSeesNone(steps, 2);
    Unshelves(Run(INIT, steps), 62);
    steps := Append(steps, Unshelve(62));
    RaisesHot(Run(INIT, steps), 62);
    steps := Append(steps, Advance(PLC, 62));
    assert [RAISED] + [RAISED] == [RAISED, RAISED];
  }
}
