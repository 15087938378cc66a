/** The reactor of `modbus_sim.py`: one tick per second, and operator writes in between. */
module BatchReactors {
  import opened Wrappers
  import opened Numbers

  datatype Phase = Idle | Heating | Holding | Cooling | Complete

  const AMBIENT := 25.0
  const TARGET := 80.0
  const COOL := 30.0
  const HEAT_RATE := 2.0
  const COOL_RATE := 1.5
  const HOLD_DURATION := 30
  const IDLE_DURATION := 5

  datatype Reactor = Reactor(state: Phase, temperature: real, progress: int, timer: nat, batchCount: nat,
                             stopped: bool, agitatorOverride: Option<nat>,
                             tempSetpoint: Option<nat>, flowSetpoint: Option<nat>, phSetpoint: Option<nat>)

  const INIT := Reactor(Idle, AMBIENT, 0, 0, 0, false, None, None, None, None)

  /** What a tick draws: the temperature noise, and the sine of the holding oscillation. */
  datatype Draw = Draw(noise: real, swing: real)

  predicate Bounded(d: Draw) {
    -1.0 <= d.noise <= 1.0 && -1.0 <= d.swing <= 1.0
  }

  function HeatProgress(temperature: real): int {
    Trunc(Min((temperature - AMBIENT) / (TARGET - AMBIENT) * 33.0, 33.0))
  }

  function HoldProgress(timer: nat): int {
    33 + Trunc(Min(timer as real / HOLD_DURATION as real * 34.0, 34.0))
  }

  function CoolProgress(temperature: real): int {
    67 + Trunc(Min((TARGET - temperature) / (TARGET - COOL) * 33.0, 33.0))
  }

  function Clamp(value: nat, low: nat, high: nat): nat {
    if value < low then low else if value > high then high else value
  }

  // ---- The two operations as functions ----

  function MovedTo(r: Reactor, phase: Phase): Reactor {
    r.(state := phase, timer := 0)
  }

  function Ticked(r: Reactor, d: Draw): Reactor {
    var s := r.(timer := r.timer + 1);
    match r.state
    case Idle =>
      var t := s.(temperature := AMBIENT + d.noise, progress := 0);
      if t.timer >= IDLE_DURATION && !t.stopped then MovedTo(t, Heating) else t
    case Heating =>
      var temperature := Min(s.temperature + HEAT_RATE + d.noise * 0.5, TARGET);
      var t := s.(temperature := temperature, progress := HeatProgress(temperature));
      if temperature >= TARGET - 0.5 then MovedTo(t, Holding) else t
    case Holding =>
      var t := s.(temperature := TARGET + d.swing * 0.3 + d.noise * 0.1, progress := HoldProgress(s.timer));
      if t.timer >= HOLD_DURATION then MovedTo(t, Cooling) else t
    case Cooling =>
      var temperature := Max(s.temperature - COOL_RATE + d.noise * 0.3, COOL);
      var t := s.(temperature := temperature, progress := CoolProgress(temperature));
      if temperature <= COOL + 0.5 then MovedTo(t, Complete) else t
    case Complete =>
      var t := s.(temperature := COOL + d.noise, progress := 100);
      if t.timer >= 3 then MovedTo(t.(batchCount := t.batchCount + 1), Idle) else t
  }

  function Written(r: Reactor, register: nat, value: nat): Reactor {
    match register
    case 1028 => r.(tempSetpoint := if value == 0 then None else Some(Clamp(value, 10, 150)))
    case 1031 => r.(flowSetpoint := if value == 0 then None else Some(Clamp(value, 0, 100)))
    case 1032 =>
      if value == 0 then MovedTo(r, Idle).(agitatorOverride := None, stopped := true)
      else if value == 1 then MovedTo(r, Heating).(stopped := false)
      else r
    case 1034 => r.(agitatorOverride := if value == 0 then None else Some(Clamp(value, 0, 500)))
    case 1035 => r.(phSetpoint := if value == 0 then None else Some(Clamp(value, 30, 130)))
    case _ => r
  }

  class BatchReactor {
    var state: Phase
    var temperature: real
    var progress: int
    var stateTimer: nat
    var batchCount: nat
    var emergencyStopped: bool
    var agitatorOverride: Option<nat>
    var tempSetpoint: Option<nat>
    var flowSetpoint: Option<nat>
    var phSetpoint: Option<nat>

    function View(): Reactor
      reads this
    {
      Reactor(state, temperature, progress, stateTimer, batchCount, emergencyStopped,
              agitatorOverride, tempSetpoint, flowSetpoint, phSetpoint)
    }

    constructor ()
      ensures View() == INIT
    {
      state, temperature, progress, stateTimer, batchCount := Idle, AMBIENT, 0, 0, 0;
      emergencyStopped, agitatorOverride := false, None;
      tempSetpoint, flowSetpoint, phSetpoint := None, None, None;
    }

    method Transition(phase: Phase)
      modifies this
      ensures View() == MovedTo(old(View()), phase)
    {
      state := phase;
      stateTimer := 0;
    }

    method Tick(d: Draw)
      modifies this
      ensures View() == Ticked(old(View()), d)
      ensures Bounded(d) && Sound(old(View())) ==> Sound(View())
    {
      hide Sound, HeatProgress, HoldProgress, CoolProgress, Min, Max;
      if Bounded(d) && Sound(View()) {
        TickKeepsSound(View(), d);
      }
      stateTimer := stateTimer + 1;
      match state {
        case Idle =>
          temperature := AMBIENT + d.noise;
          progress := 0;
          if stateTimer >= IDLE_DURATION && !emergencyStopped {
            Transition(Heating);
          }
        case Heating =>
          temperature := Min(temperature + HEAT_RATE + d.noise * 0.5, TARGET);
          progress := HeatProgress(temperature);
          if temperature >= TARGET - 0.5 {
            Transition(Holding);
          }
        case Holding =>
          temperature := TARGET + d.swing * 0.3 + d.noise * 0.1;
          progress := HoldProgress(stateTimer);
          if stateTimer >= HOLD_DURATION {
            Transition(Cooling);
          }
        case Cooling =>
          temperature := Max(temperature - COOL_RATE + d.noise * 0.3, COOL);
          progress := CoolProgress(temperature);
          if temperature <= COOL + 0.5 {
            Transition(Complete);
          }
        case Complete =>
          temperature := COOL + d.noise;
          progress := 100;
          if stateTimer >= 3 {
            batchCount := batchCount + 1;
            Transition(Idle);
          }
      }
    }

    method HandleWrite(register: nat, value: nat)
      modifies this
      ensures View() == Written(old(View()), register, value)
      ensures Sound(old(View())) ==> Sound(View())
    {
      if register == 1028 {
        tempSetpoint := if value == 0 then None else Some(Clamp(value, 10, 150));
      } else if register == 1031 {
        flowSetpoint := if value == 0 then None else Some(Clamp(value, 0, 100));
      } else if register == 1032 {
        if value == 0 {
          Transition(Idle);
          agitatorOverride := None;
          emergencyStopped := true;
        } else if value == 1 {
          emergencyStopped := false;
          Transition(Heating);
        }
      } else if register == 1034 {
        agitatorOverride := if value == 0 then None else Some(Clamp(value, 0, 500));
      } else if register == 1035 {
        phSetpoint := if value == 0 then None else Some(Clamp(value, 30, 130));
      }
    }
  }

  // ---- What every reachable state satisfies ----

  predicate Sound(r: Reactor) {
    && 24.0 <= r.temperature <= 80.4
    && 0 <= r.progress <= 100
    && (r.stopped ==> r.state == Idle)
    && (r.state == Idle && !r.stopped ==> r.timer < IDLE_DURATION)
    && (r.state == Holding ==> r.timer < HOLD_DURATION)
    && (r.state == Complete ==> r.timer < 3)
    && (r.state == Cooling ==> r.temperature >= COOL)
  }

  lemma TruncWithin(x: real, low: int, high: int)
    requires low <= 0 && low as real - 1.0 < x <= high as real && 0 <= high
    ensures low <= Trunc(x) <= high
  {}

  lemma TickKeepsSound(r: Reactor, d: Draw)
    requires Sound(r) && Bounded(d)
    ensures Sound(Ticked(r, d))
  {
    var t := Ticked(r, d);
    match r.state
    case Heating => TruncWithin(Min((t.temperature - AMBIENT) / (TARGET - AMBIENT) * 33.0, 33.0), 0, 33);
    case Holding => TruncWithin(Min((r.timer + 1) as real / HOLD_DURATION as real * 34.0, 34.0), 0, 34);
    case Cooling => TruncWithin(Min((TARGET - t.temperature) / (TARGET - COOL) * 33.0, 33.0), 0, 33);
    case _ =>
  }

  // ---- Termination: a batch completes within 117 ticks ----

  function Ceil(x: real): int {
    -((-x).Floor)
  }

  /** The most ticks that heating from a temperature can take. */
  function HeatTicks(temperature: real): nat {
    if temperature >= 79.5 then 1 else Ceil((79.5 - temperature) / 1.5)
  }

  /** The most ticks that cooling from a temperature can take. */
  function CoolTicks(temperature: real): nat {
    if temperature <= 30.5 then 1 else Ceil((temperature - 30.5) / 1.2)
  }

  /** How many ticks the current batch still needs at most. */
  function Rank(r: Reactor): nat
    requires Sound(r) && !r.stopped
  {
    match r.state
    case Idle => IDLE_DURATION - r.timer + 112
    case Heating => HeatTicks(r.temperature) + 75
    case Holding => HOLD_DURATION - r.timer + 45
    case Cooling => CoolTicks(r.temperature) + 3
    case Complete => 3 - r.timer
  }

  lemma RankAtMost117(r: Reactor)
    requires Sound(r) && !r.stopped
    ensures 1 <= Rank(r) <= 117
  {}

  lemma TickLowersRank(r: Reactor, d: Draw)
    requires Sound(r) && !r.stopped && Bounded(d)
    ensures Sound(Ticked(r, d)) && !Ticked(r, d).stopped
    ensures Ticked(r, d).batchCount == r.batchCount + 1 ||
            (Ticked(r, d).batchCount == r.batchCount && Rank(Ticked(r, d)) < Rank(r))
  {
    TickKeepsSound(r, d);
    RankAtMost117(Ticked(r, d));
  }

  function AfterTicks(r: Reactor, draws: seq<Draw>): Reactor
    decreases |draws|
  {
    if draws == [] then r else AfterTicks(Ticked(r, draws[0]), draws[1..])
  }

  lemma {:induction false} CountNeverDrops(r: Reactor, draws: seq<Draw>)
    ensures AfterTicks(r, draws).batchCount >= r.batchCount
    decreases |draws|
  {
    if draws != [] {
      CountNeverDrops(Ticked(r, draws[0]), draws[1..]);
    }
  }

  /** As many ticks as the rank says complete a batch, however the noise falls. */
  lemma {:induction false} BatchCompletes(r: Reactor, draws: seq<Draw>)
    requires Sound(r) && !r.stopped && |draws| >= Rank(r)
    requires forall i :: 0 <= i < |draws| ==> Bounded(draws[i])
    ensures AfterTicks(r, draws).batchCount > r.batchCount
    decreases |draws|
  {
    RankAtMost117(r);
    TickLowersRank(r, draws[0]);
    if Ticked(r, draws[0]).batchCount > r.batchCount {
      CountNeverDrops(Ticked(r, draws[0]), draws[1..]);
    } else {
      BatchCompletes(Ticked(r, draws[0]), draws[1..]);
    }
  }

  // ---- 117 is the worst case ----

  lemma {:induction false} AfterBoth(r: Reactor, a: seq<Draw>, b: seq<Draw>)
    ensures AfterTicks(r, a + b) == AfterTicks(AfterTicks(r, a), b)
    decreases |a|
  {
    if a == [] {
      assert a + b == b;
    } else {
      assert (a + b)[1..] == a[1..] + b;
      AfterBoth(Ticked(r, a[0]), a[1..], b);
    }
  }

  lemma AfterOne(r: Reactor, d: Draw)
    ensures AfterTicks(r, [d]) == Ticked(r, d)
  {
    assert [d][1..] == [];
  }

  lemma AfterMore(r: Reactor, draws: seq<Draw>, n: nat)
    requires n < |draws|
    ensures AfterTicks(r, draws[..n + 1]) == Ticked(AfterTicks(r, draws[..n]), draws[n])
  {
    assert draws[..n + 1] == draws[..n] + [draws[n]];
    AfterBoth(r, draws[..n], [draws[n]]);
    AfterOne(AfterTicks(r, draws[..n]), draws[n]);
  }

  /** The noise that makes a batch as slow as can be: as cold as possible until it is hot, and as hot after that. */
  function SlowNoise(n: nat): real {
    if n < 42 then -1.0 else 1.0
  }

  function Slow(swings: seq<real>): seq<Draw> {
    seq(|swings|, n requires 0 <= n < |swings| => Draw(SlowNoise(n), swings[n]))
  }

  /** After n ticks of the slow batch: 5 idle, 37 of heating, 30 of holding, 42 of cooling, and 2 of completion. */
  predicate OnSlowPath(r: Reactor, n: nat) {
    && r.batchCount == 0 && !r.stopped
    && (n < 5 ==> r.state == Idle && r.timer == n)
    && (5 <= n < 42 ==> r.state == Heating && r.temperature == 24.0 + 1.5 * (n - 5) as real)
    && (42 <= n < 72 ==> r.state == Holding && r.timer == n - 42)
    && (72 <= n < 114 ==> r.state == Cooling
                          && 79.8 - 1.2 * (n - 72) as real <= r.temperature <= 80.4 - 1.2 * (n - 72) as real)
    && (114 <= n ==> r.state == Complete && r.timer == n - 114)
  }

  lemma SlowTick(r: Reactor, n: nat, swing: real)
    requires OnSlowPath(r, n) && n < 116 && -1.0 <= swing <= 1.0
    ensures OnSlowPath(Ticked(r, Draw(SlowNoise(n), swing)), n + 1)
  {
    hide HeatProgress, HoldProgress, CoolProgress;
  }

  lemma {:induction false} SlowPath(swings: seq<real>, n: nat)
    requires n <= |swings| <= 116 && forall i :: 0 <= i < |swings| ==> -1.0 <= swings[i] <= 1.0
    ensures OnSlowPath(AfterTicks(INIT, Slow(swings)[..n]), n)
  {
    if n > 0 {
      SlowPath(swings, n - 1);
      AfterMore(INIT, Slow(swings), n - 1);
      hide AfterTicks, OnSlowPath, Ticked, SlowNoise;
      SlowTick(AfterTicks(INIT, Slow(swings)[..n - 1]), n - 1, swings[n - 1]);
    }
  }

  /** The bound is attained whatever the holding oscillation is: 116 ticks from the start need not complete a batch. */
  lemma WorstCaseIsReached(swings: seq<real>) returns (draws: seq<Draw>)
    requires |swings| == 116 && forall i :: 0 <= i < |swings| ==> -1.0 <= swings[i] <= 1.0
    ensures |draws| == 116 && forall i :: 0 <= i < |draws| ==> Bounded(draws[i]) && draws[i].swing == swings[i]
    ensures AfterTicks(INIT, draws).batchCount == INIT.batchCount
  {
    draws := Slow(swings);
    SlowPath(swings, 116);
    assert draws[..116] == draws;
    hide AfterTicks;
  }

  // ---- Progress ----

  /**
   * Progress fits the phase, whatever operators write: progress that heating could have made fits the temperature,
   * and only the first tick of HEATING can find more.
   */
  predicate Steady(r: Reactor) {
    && (r.progress <= 33 ==> r.progress <= HeatProgress(r.temperature))
    && match r.state
       case Heating => r.timer > 0 ==> r.progress <= 33
       case Holding => r.progress <= HoldProgress(r.timer) && (r.timer > 0 ==> r.progress > 33)
       case Cooling => r.progress <= CoolProgress(r.temperature)
       case _ => true
  }

  /** The tick comes when IDLE shows progress, or HEATING was just started with more than it can ever make itself. */
  predicate Excessive(r: Reactor) {
    (r.state == Idle && r.progress > 0) || (r.state == Heating && r.timer == 0 && r.progress > 33)
  }

  lemma HeatProgressMonotone(a: real, b: real)
    requires a <= b
    ensures HeatProgress(a) <= HeatProgress(b)
  {}

  lemma HeatProgressWithin(temperature: real)
    requires temperature >= 24.0
    ensures 0 <= HeatProgress(temperature) <= 33
  {}

  lemma HoldProgressWithin(timer: nat)
    ensures 33 <= HoldProgress(timer) <= HoldProgress(timer + 1) <= 67
  {
    var (x, y) := (timer as real / HOLD_DURATION as real * 34.0, (timer + 1) as real / HOLD_DURATION as real * 34.0);
    assert 0.0 <= x <= y;
  }

  lemma CoolProgressMonotone(a: real, b: real)
    requires a <= b
    ensures CoolProgress(a) >= CoolProgress(b)
  {}

  lemma CoolProgressWithin(temperature: real)
    requires COOL <= temperature <= 80.4
    ensures 67 <= CoolProgress(temperature) <= 100
  {}

  /** Beyond the target, heating has nothing left to do. */
  lemma HeatProgressAtTarget(temperature: real)
    ensures temperature >= TARGET ==> HeatProgress(temperature) == 33 == HeatProgress(TARGET)
  {}

  lemma HoldProgressGrows(timer: nat)
    ensures HoldProgress(timer + 1) > 33
    ensures HoldProgress(HOLD_DURATION) == 67
  {
    assert (timer + 1) as real / HOLD_DURATION as real * 34.0 >= 1.0;
  }

  lemma IdleProgress(r: Reactor, d: Draw)
    requires r.state == Idle && Sound(r) && Bounded(d)
    ensures Steady(Ticked(r, d)) && Ticked(r, d).progress == 0
  {
    HeatProgressWithin(Ticked(r, d).temperature);
    hide HeatProgress, HoldProgress, CoolProgress;
  }

  /** A tick of HEATING never cools, up to the target. */
  lemma HeatingWarms(r: Reactor, d: Draw)
    requires r.state == Heating && Sound(r) && Bounded(d)
    ensures Ticked(r, d).progress == HeatProgress(Ticked(r, d).temperature) <= 33
    ensures HeatProgress(r.temperature) <= Ticked(r, d).progress
  {
    var next := Min(r.temperature + HEAT_RATE + d.noise * 0.5, TARGET);
    HeatProgressWithin(next);
    HeatProgressAtTarget(r.temperature);
    if r.temperature <= next {
      HeatProgressMonotone(r.temperature, next);
    }
    hide HeatProgress;
  }

  // -- progress is the fraction of the way, to one percent point --

  predicate RoundsDown(progress: int, exact: real) {
    progress as real <= exact < progress as real + 1.0
  }

  lemma HeatProgressIsFraction(temperature: real)
    ensures 25.0 <= temperature <= 80.0 ==> RoundsDown(HeatProgress(temperature), (temperature - 25.0) / 55.0 * 33.0)
    ensures 24.0 <= temperature < 25.0 ==> HeatProgress(temperature) == 0
  {}

  lemma HoldProgressIsFraction(timer: nat)
    requires timer <= 30
    ensures RoundsDown(HoldProgress(timer), 33.0 + timer as real / 30.0 * 34.0)
  {}

  lemma CoolProgressIsFraction(temperature: real)
    ensures 30.0 <= temperature <= 80.0 ==>
              RoundsDown(CoolProgress(temperature), 67.0 + (80.0 - temperature) / 50.0 * 33.0)
    ensures 80.0 < temperature <= 80.4 ==> CoolProgress(temperature) == 67
  {}

  /** The progress that a tick shows: the fraction of the phase that is covered, on the phase's part of the scale. */
  lemma TickShowsFraction(r: Reactor, d: Draw)
    requires Sound(r) && Bounded(d)
    ensures var t := Ticked(r, d);
            match r.state
            case Idle => t.progress == 0
            case Heating => t.temperature >= 25.0 ==> RoundsDown(t.progress, (t.temperature - 25.0) / 55.0 * 33.0)
            case Holding => RoundsDown(t.progress, 33.0 + (r.timer + 1) as real / 30.0 * 34.0)
            case Cooling =>
              t.temperature <= 80.0 ==> RoundsDown(t.progress, 67.0 + (80.0 - t.temperature) / 50.0 * 33.0)
            case Complete => t.progress == 100
  {
    var t := Ticked(r, d);
    HeatProgressIsFraction(t.temperature);
    CoolProgressIsFraction(t.temperature);
    if r.state == Holding {
      HoldProgressIsFraction(r.timer + 1);
    }
    hide HeatProgress, HoldProgress, CoolProgress;
  }

  /** What a tick does to the temperature, phase by phase. */
  lemma TickMovesTemperature(r: Reactor, d: Draw)
    requires Bounded(d)
    ensures var (t, u) := (r.temperature, Ticked(r, d).temperature);
            match r.state
            case Idle => u == 25.0 + d.noise
            case Heating => u == 80.0 || (t + 1.5 <= u <= t + 2.5 && u < 80.0)
            case Holding => 79.6 <= u <= 80.4 && u == 80.0 + d.swing * 0.3 + d.noise * 0.1
            case Cooling => u == 30.0 || (t - 1.8 <= u <= t - 1.2 && u > 30.0)
            case Complete => u == 30.0 + d.noise
  {
    hide HeatProgress, HoldProgress, CoolProgress;
  }

  lemma HeatingProgress(r: Reactor, d: Draw)
    requires r.state == Heating && Sound(r) && Steady(r) && Bounded(d)
    ensures Steady(Ticked(r, d))
    ensures Ticked(r, d).progress < r.progress <==> r.timer == 0 && r.progress > 33
  {
    HeatingWarms(r, d);
    HoldProgressWithin(0);
    hide HeatProgress, HoldProgress, CoolProgress;
  }

  lemma HoldingProgress(r: Reactor, d: Draw)
    requires r.state == Holding && Sound(r) && Steady(r) && Bounded(d)
    ensures Steady(Ticked(r, d)) && Ticked(r, d).progress >= r.progress
  {
    HoldProgressWithin(r.timer);
    HoldProgressGrows(r.timer);
    CoolProgressWithin(Ticked(r, d).temperature);
    hide HeatProgress, HoldProgress, CoolProgress;
  }

  lemma CoolingProgress(r: Reactor, d: Draw)
    requires r.state == Cooling && Sound(r) && Steady(r) && Bounded(d)
    ensures Steady(Ticked(r, d)) && Ticked(r, d).progress >= r.progress
  {
    var next := Max(r.temperature - COOL_RATE + d.noise * 0.3, COOL);
    CoolProgressMonotone(next, r.temperature);
    CoolProgressWithin(next);
    hide HeatProgress, HoldProgress, CoolProgress;
  }

  /** A tick lowers the progress exactly if it finds it excessive. */
  lemma TickProgress(r: Reactor, d: Draw)
    requires Sound(r) && Steady(r) && Bounded(d)
    ensures Steady(Ticked(r, d))
    ensures Ticked(r, d).progress < r.progress <==> Excessive(r)
  {
    hide HeatProgress, HoldProgress, CoolProgress;
    match r.state
    case Idle => IdleProgress(r, d);
    case Heating => HeatingProgress(r, d);
    case Holding => HoldingProgress(r, d);
    case Cooling => CoolingProgress(r, d);
    case Complete =>
  }

  // ---- Runs with operator writes ----

  datatype Event = Tick(draw: Draw) | Write(register: nat, value: nat)

  function Next(r: Reactor, e: Event): Reactor {
    match e
    case Tick(d) => Ticked(r, d)
    case Write(register, value) => Written(r, register, value)
  }

  /** The state before event n of a run. */
  function At(run: seq<Event>, n: nat): Reactor
    requires n <= |run|
  {
    if n == 0 then INIT else Next(At(run, n - 1), run[n - 1])
  }

  predicate BoundedRun(run: seq<Event>) {
    forall i :: 0 <= i < |run| && run[i].Tick? ==> Bounded(run[i].draw)
  }

  lemma {:induction false} ReachableIsSound(run: seq<Event>, n: nat)
    requires BoundedRun(run) && n <= |run|
    ensures Sound(At(run, n))
  {
    if n > 0 {
      ReachableIsSound(run, n - 1);
      if run[n - 1].Tick? {
        TickKeepsSound(At(run, n - 1), run[n - 1].draw);
      }
    }
  }

  /** From any reachable state that is not emergency-stopped, 117 undisturbed ticks complete a batch. */
  lemma BatchCompletesWithin117(run: seq<Event>, n: nat, draws: seq<Draw>)
    requires BoundedRun(run) && n <= |run| && !At(run, n).stopped
    requires |draws| >= 117 && forall i :: 0 <= i < |draws| ==> Bounded(draws[i])
    ensures AfterTicks(At(run, n), draws).batchCount > At(run, n).batchCount
  {
    ReachableIsSound(run, n);
    RankAtMost117(At(run, n));
    BatchCompletes(At(run, n), draws);
  }

  predicate IsStart(e: Event) {
    e.Write? && e.register == 1032 && e.value == 1
  }

  predicate IsStop(e: Event) {
    e.Write? && e.register == 1032 && e.value == 0
  }

  lemma WriteKeepsSteady(r: Reactor, register: nat, value: nat)
    requires Steady(r)
    ensures Steady(Written(r, register, value)) && Written(r, register, value).progress == r.progress
  {
    HoldProgressWithin(0);
    hide HeatProgress, HoldProgress, CoolProgress, Clamp;
  }

  /** An event lowers the progress exactly if it is a tick that finds it excessive. */
  lemma NextProgress(r: Reactor, e: Event)
    requires Sound(r) && Steady(r) && (e.Tick? ==> Bounded(e.draw))
    ensures Steady(Next(r, e))
    ensures Next(r, e).progress < r.progress <==> e.Tick? && Excessive(r)
  {
    hide Ticked, Written, Steady, Sound, Excessive;
    match e
    case Tick(d) => TickProgress(r, d);
    case Write(register, value) => WriteKeepsSteady(r, register, value);
  }

  lemma InitiallySteady()
    ensures Steady(INIT)
  {
    HeatProgressWithin(AMBIENT);
    hide HeatProgress;
  }

  lemma {:induction false} ReachableIsSteady(run: seq<Event>, n: nat)
    requires BoundedRun(run) && n <= |run|
    ensures Steady(At(run, n))
  {
    if n == 0 {
      hide Steady;
      InitiallySteady();
    } else {
      ReachableIsSteady(run, n - 1);
      ReachableIsSound(run, n - 1);
      hide Next, Steady, Sound;
      NextProgress(At(run, n - 1), run[n - 1]);
    }
  }

  /**
   * With operators writing what they like, progress falls exactly at the first tick of an IDLE that shows some, and
   * at the first tick after a start of HEATING that found more than 33.
   */
  lemma ProgressFallsIff(run: seq<Event>, n: nat)
    requires BoundedRun(run) && n < |run|
    ensures At(run, n + 1).progress < At(run, n).progress <==> run[n].Tick? && Excessive(At(run, n))
  {
    ReachableIsSteady(run, n);
    ReachableIsSound(run, n);
    assert At(run, n + 1) == Next(At(run, n), run[n]);
    hide At, Next, Excessive, Steady, Sound;
    NextProgress(At(run, n), run[n]);
  }

  /** Once HOLDING has ticked, an operator start makes the progress fall at the next tick, however the noise falls. */
  lemma StartFromHoldingFalls(run: seq<Event>, n: nat)
    requires BoundedRun(run) && n + 1 < |run| && IsStart(run[n]) && run[n + 1].Tick?
    requires At(run, n).state == Holding && At(run, n).timer > 0
    ensures At(run, n + 1).state == Heating && At(run, n + 2).progress < At(run, n + 1).progress
  {
    ReachableIsSteady(run, n);
    assert At(run, n + 1) == Next(At(run, n), run[n]);
    ProgressFallsIff(run, n + 1);
    hide At, HeatProgress, HoldProgress, CoolProgress;
  }

  // -- such a run --

  function Ticks(draws: seq<Draw>): seq<Event> {
    seq(|draws|, i requires 0 <= i < |draws| => Tick(draws[i]))
  }

  lemma {:induction false} AtTicks(draws: seq<Draw>, rest: seq<Event>, n: nat)
    requires n <= |draws|
    ensures At(Ticks(draws) + rest, n) == AfterTicks(INIT, draws[..n])
  {
    if n > 0 {
      AtTicks(draws, rest, n - 1);
      AfterMore(INIT, draws, n - 1);
      hide Next, AfterTicks;
    }
  }

  /** 43 ticks lead into HOLDING; a start, and one more tick. */
  lemma ProgressCanFall(last: Draw) returns (run: seq<Event>)
    requires Bounded(last)
    ensures BoundedRun(run) && |run| == 45 && At(run, 44).state == Heating
    ensures At(run, 45).progress < At(run, 44).progress
  {
    var swings := seq(43, _ => 0.0);
    var draws := Slow(swings);
    run := Ticks(draws) + [Write(1032, 1), Tick(last)];
    SlowPath(swings, 43);
    AtTicks(draws, [Write(1032, 1), Tick(last)], 43);
    hide At, AfterTicks;
    StartFromHoldingFalls(run, 43);
  }

  /** HEATING begins with a start, or with a tick in IDLE. */
  lemma HeatingBegins(r: Reactor, e: Event)
    requires !IsStart(e)
    ensures Next(r, e).state == Heating && Next(r, e).timer == 0 ==>
              (r.state == Heating && r.timer == 0 && Next(r, e).progress == r.progress) || Next(r, e).progress == 0
  {
    hide HeatProgress, HoldProgress, CoolProgress, Clamp, Min, Max;
  }

  /** Without operator starts HEATING begins with no progress. */
  lemma {:induction false} HeatingBeginsAtZero(run: seq<Event>, n: nat)
    requires BoundedRun(run) && n <= |run| && forall i :: 0 <= i < n ==> !IsStart(run[i])
    ensures At(run, n).state == Heating && At(run, n).timer == 0 ==> At(run, n).progress == 0
  {
    if n > 0 {
      HeatingBeginsAtZero(run, n - 1);
      hide Next, IsStart;
      HeatingBegins(At(run, n - 1), run[n - 1]);
    }
  }

  /** Without operator starts, whatever else is written, progress only ever falls when the reactor is idle. */
  lemma ProgressIsMonotone(run: seq<Event>, n: nat)
    requires BoundedRun(run) && n < |run| && forall i :: 0 <= i < |run| ==> !IsStart(run[i])
    ensures At(run, n).state != Idle ==> At(run, n).progress <= At(run, n + 1).progress
  {
    HeatingBeginsAtZero(run, n);
    ProgressFallsIff(run, n);
    hide At;
  }

  /** After an emergency stop nothing but an operator start leaves IDLE, and no batch is counted. */
  lemma {:induction false} StopHolds(run: seq<Event>, n: nat, m: nat)
    requires n < m <= |run| && IsStop(run[n])
    requires forall i :: n < i < m ==> !IsStart(run[i])
    ensures At(run, m).state == Idle && At(run, m).stopped && At(run, m).batchCount == At(run, n).batchCount
    decreases m
  {
    if m > n + 1 {
      StopHolds(run, n, m - 1);
    }
  }

  /** A write changes neither temperature, progress nor count; only a start and a stop change phase and timer. */
  lemma WriteKeepsPlant(r: Reactor, register: nat, value: nat)
    ensures var t := Written(r, register, value);
            && t.temperature == r.temperature && t.progress == r.progress && t.batchCount == r.batchCount
            && (!(register == 1032 && value <= 1) ==>
                  t.state == r.state && t.timer == r.timer && t.stopped == r.stopped)
            && (register == 1032 && value == 0 ==> t.state == Idle && t.timer == 0 && t.stopped)
            && (register == 1032 && value == 1 ==> t.state == Heating && t.timer == 0 && !t.stopped)
  {}

  // ---- Operator overrides ----

  function OverrideOf(r: Reactor, register: nat): Option<nat> {
    match register
    case 1028 => r.tempSetpoint
    case 1031 => r.flowSetpoint
    case 1034 => r.agitatorOverride
    case 1035 => r.phSetpoint
    case _ => None
  }

  /** The safe range of an override: degrees, litres per minute, revolutions per minute, tenths of pH. */
  function SafeRange(register: nat): (nat, nat) {
    match register
    case 1028 => (10, 150)
    case 1031 => (0, 100)
    case 1034 => (0, 500)
    case _ => (30, 130)
  }

  /** The value of the range that is closest to the one asked for. */
  predicate Closest(x: nat, value: nat, range: (nat, nat)) {
    && range.0 <= x <= range.1
    && (range.0 <= value <= range.1 ==> x == value)
    && (value < range.0 ==> x == range.0) && (value > range.1 ==> x == range.1)
  }

  predicate Overrides(e: Event, register: nat) {
    e.Write? && (e.register == register || (register == 1034 && IsStop(e)))
  }

  /** An override is what was last written to its register, brought into the safe range; 0 lifts it, so does a stop. */
  lemma {:induction false} OverrideIsLastWrite(run: seq<Event>, p: nat, n: nat, register: nat)
    requires p < n <= |run| && register in {1028, 1031, 1034, 1035} && Overrides(run[p], register)
    requires forall i :: p < i < n ==> !Overrides(run[i], register)
    ensures var v := OverrideOf(At(run, n), register);
            && (v.None? <==> run[p].value == 0)
            && (v.Some? ==> Closest(v.value, run[p].value, SafeRange(register)))
    decreases n
  {
    if n > p + 1 {
      OverrideIsLastWrite(run, p, n - 1, register);
      OthersKeepOverride(At(run, n - 1), run[n - 1], register);
      hide Next;
    }
  }

  lemma OthersKeepOverride(r: Reactor, e: Event, register: nat)
    requires !Overrides(e, register)
    ensures OverrideOf(Next(r, e), register) == OverrideOf(r, register)
  {
    hide HeatProgress, HoldProgress, CoolProgress, Min, Max, Clamp;
  }

  lemma {:induction false} NoOverrideBeforeFirstWrite(run: seq<Event>, n: nat, register: nat)
    requires n <= |run| && forall i :: 0 <= i < n ==> !Overrides(run[i], register)
    ensures OverrideOf(At(run, n), register) == None
  {
    if n > 0 {
      NoOverrideBeforeFirstWrite(run, n - 1, register);
      OthersKeepOverride(At(run, n - 1), run[n - 1], register);
      hide Next;
    }
  }

  // ---- A batch is counted only after all its phases ----

  function TicksIn(run: seq<Event>, from: nat, until: nat): nat
    requires from <= until <= |run|
    decreases until
  {
    if from == until then 0 else TicksIn(run, from, until - 1) + (if run[until - 1].Tick? then 1 else 0)
  }

  predicate InPhase(run: seq<Event>, from: nat, until: nat, phase: Phase)
    requires until <= |run|
  {
    forall i :: from <= i < until ==> At(run, i).state == phase
  }

  predicate Undisturbed(run: seq<Event>, from: nat, until: nat)
    requires until <= |run|
  {
    forall i :: from <= i < until ==> !IsStart(run[i]) && !IsStop(run[i])
  }

  /** Positions where heating (a), holding (b), cooling (c) and completion (d) began, as far as the batch has come. */
  predicate History(run: seq<Event>, n: nat, a: nat, b: nat, c: nat, d: nat)
    requires n <= |run|
  {
    var r := At(run, n);
    match r.state
    case Idle => true
    case Heating => a <= n && InPhase(run, a, n, Heating) && Undisturbed(run, a, n)
    case Holding =>
      a < b <= n && InPhase(run, a, b, Heating) && InPhase(run, b, n, Holding) && Undisturbed(run, a, n)
      && TicksIn(run, b, n) == r.timer
    case Cooling =>
      a < b < c <= n && InPhase(run, a, b, Heating) && InPhase(run, b, c, Holding) && InPhase(run, c, n, Cooling)
      && Undisturbed(run, a, n) && TicksIn(run, b, c) == HOLD_DURATION
    case Complete =>
      a < b < c < d <= n && InPhase(run, a, b, Heating) && InPhase(run, b, c, Holding) && InPhase(run, c, d, Cooling)
      && InPhase(run, d, n, Complete) && Undisturbed(run, a, n)
      && TicksIn(run, b, c) == HOLD_DURATION && TicksIn(run, d, n) == r.timer
  }

  /** What one event does to the phase. */
  predicate Moves(r: Reactor, s: Reactor, e: Event) {
    if IsStop(e) then s.state == Idle
    else if IsStart(e) then s.state == Heating
    else if e.Write? then s.state == r.state && s.timer == r.timer
    else if s.state == r.state then s.timer == r.timer + 1
    else
      && s.timer == 0
      && match r.state
         case Idle => s.state == Heating
         case Heating => s.state == Holding
         case Holding => s.state == Cooling && r.timer + 1 >= HOLD_DURATION
         case Cooling => s.state == Complete
         case Complete => s.state == Idle
  }

  lemma NextMoves(r: Reactor, e: Event)
    ensures Moves(r, Next(r, e), e)
  {}

  /** What one more event adds to a stretch of the run. */
  ghost predicate Grows(run: seq<Event>, from: nat, n: nat)
    requires from < n <= |run|
  {
    && TicksIn(run, from, n) == TicksIn(run, from, n - 1) + (if run[n - 1].Tick? then 1 else 0)
    && (forall phase :: InPhase(run, from, n - 1, phase) && At(run, n - 1).state == phase ==>
          InPhase(run, from, n, phase))
    && (Undisturbed(run, from, n - 1) && !IsStart(run[n - 1]) && !IsStop(run[n - 1]) ==> Undisturbed(run, from, n))
  }

  lemma GrowsByOne(run: seq<Event>, from: nat, n: nat)
    requires from < n <= |run|
    ensures Grows(run, from, n)
  {
    hide At;
  }

  lemma Begins(run: seq<Event>, n: nat)
    requires n <= |run|
    ensures TicksIn(run, n, n) == 0 && Undisturbed(run, n, n)
    ensures forall phase :: InPhase(run, n, n, phase)
  {}

  lemma {:induction false} HistoryStep(run: seq<Event>, n: nat, a: nat, b: nat, c: nat, d: nat)
    requires 0 < n <= |run| && History(run, n - 1, a, b, c, d) && Sound(At(run, n - 1))
    ensures var (r, s) := (At(run, n - 1), At(run, n));
            History(run, n,
                    if s.state == Heating && (r.state != Heating || IsStart(run[n - 1])) then n else a,
                    if s.state == Holding && r.state != Holding then n else b,
                    if s.state == Cooling && r.state != Cooling then n else c,
                    if s.state == Complete && r.state != Complete then n else d)
  {
    NextMoves(At(run, n - 1), run[n - 1]);
    assert At(run, n) == Next(At(run, n - 1), run[n - 1]);
    assert At(run, n - 1).state == Holding ==> At(run, n - 1).timer < HOLD_DURATION;
    if a < n { GrowsByOne(run, a, n); }
    if b < n { GrowsByOne(run, b, n); }
    if c < n { GrowsByOne(run, c, n); }
    if d < n { GrowsByOne(run, d, n); }
    Begins(run, n);
    hide Next, At, Sound, InPhase, TicksIn, Undisturbed, IsStart, IsStop;
  }

  lemma {:induction false} HistoryExists(run: seq<Event>, n: nat) returns (a: nat, b: nat, c: nat, d: nat)
    requires BoundedRun(run) && n <= |run|
    ensures History(run, n, a, b, c, d)
  {
    a, b, c, d := 0, 0, 0, 0;
    if n > 0 {
      a, b, c, d := HistoryExists(run, n - 1);
      ReachableIsSound(run, n - 1);
      HistoryStep(run, n, a, b, c, d);
      hide History, At;
      var r, s := At(run, n - 1), At(run, n);
      a := if s.state == Heating && (r.state != Heating || IsStart(run[n - 1])) then n else a;
      b := if s.state == Holding && r.state != Holding then n else b;
      c := if s.state == Cooling && r.state != Cooling then n else c;
      d := if s.state == Complete && r.state != Complete then n else d;
    }
  }

  lemma CountGrows(r: Reactor, e: Event)
    ensures Next(r, e).batchCount > r.batchCount ==> e.Tick? && r.state == Complete && r.timer >= 2
  {
    hide HeatProgress, HoldProgress, CoolProgress, Min, Max, Clamp;
  }

  /**
   * A batch is counted only at the end of an uninterrupted HEATING, exactly 30 ticks of HOLDING, COOLING,
   * and exactly 3 ticks of COMPLETE.
   */
  lemma CountedBatchWentThroughAllPhases(run: seq<Event>, n: nat) returns (a: nat, b: nat, c: nat, d: nat)
    requires BoundedRun(run) && n < |run| && At(run, n + 1).batchCount > At(run, n).batchCount
    ensures a < b < c < d <= n && Undisturbed(run, a, n + 1)
    ensures InPhase(run, a, b, Heating) && InPhase(run, b, c, Holding)
    ensures InPhase(run, c, d, Cooling) && InPhase(run, d, n + 1, Complete)
    ensures TicksIn(run, b, c) == 30 && TicksIn(run, d, n + 1) == 3
  {
    a, b, c, d := HistoryExists(run, n);
    ReachableIsSound(run, n);
    CountGrows(At(run, n), run[n]);
    GrowsByOne(run, a, n + 1);
    GrowsByOne(run, d, n + 1);
    assert At(run, n + 1) == Next(At(run, n), run[n]);
    hide Next, At, InPhase, TicksIn, Undisturbed;
  }
}
