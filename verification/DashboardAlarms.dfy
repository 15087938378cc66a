/** The dashboard's alarms: which ones there are, of when, and which are on the screen. */
module DashboardAlarms {
  import opened Wrappers
  import opened Dashboard
  import opened DashboardRuns

  // ---- Which alarms there are ----

  predicate Reached(limit: Option<real>, value: real) {
    limit.Some? && value >= limit.value
  }

  /** Readings of zero or less never count as low. */
  predicate Fallen(limit: Option<real>, value: real) {
    limit.Some? && 0.0 < value <= limit.value
  }

  /** The value a threshold is compared with: the live value, divided as its register's first entry says. */
  ghost predicate ScaledTo(cfg: Config, live: map<int, real>, register: int, value: real) {
    register in live &&
    ((exists i :: FirstAt(cfg.registers, register, i) && value == live[register] / cfg.registers[i].divisor)
     || (Unconfigured(cfg.registers, register) && value == live[register]))
  }

  /** What the store computes for a threshold. */
  function Scaled(cfg: Config, live: map<int, real>, register: int): Option<real> {
    if register !in live then None else
      var conf := RegisterByAddress(cfg.registers, register);
      Some(if conf.Some? then live[register] / conf.value.divisor else live[register])
  }

  lemma ScaledIs(cfg: Config, live: map<int, real>, register: int, value: real)
    ensures ScaledTo(cfg, live, register, value) <==> Scaled(cfg, live, register) == Some(value)
  {
    var i := LookupFinds(cfg.registers, register);
    hide RegisterByAddress;
    forall j | FirstAt(cfg.registers, register, j) && i != -1 ensures i == j {
      FirstIsUnique(cfg.registers, register, i, j);
    }
  }

  /** With this value the threshold issues this alarm; a critical limit silences the warning on its side. */
  predicate Issues(t: AlarmThreshold, value: real, a: Alarm) {
    || (a == Alarm(t.name + "-crit-high", Critical, Some(t.register)) && Reached(t.critHigh, value))
    || (a == Alarm(t.name + "-warn-high", Warning, Some(t.register))
        && Reached(t.warnHigh, value) && !Reached(t.critHigh, value))
    || (a == Alarm(t.name + "-crit-low", Critical, Some(t.register)) && Fallen(t.critLow, value))
    || (a == Alarm(t.name + "-warn-low", Warning, Some(t.register))
        && Fallen(t.warnLow, value) && !Fallen(t.critLow, value))
  }

  ghost predicate IsIssued(cfg: Config, live: map<int, real>, t: AlarmThreshold, a: Alarm) {
    exists value: real :: ScaledTo(cfg, live, t.register, value) && Issues(t, value, a)
  }

  lemma ThresholdMembership(cfg: Config, live: map<int, real>, t: AlarmThreshold, a: Alarm)
    ensures a in ThresholdAlarms(cfg, t, live) <==> IsIssued(cfg, live, t, a)
  {
    var value := Scaled(cfg, live, t.register);
    forall v ensures ScaledTo(cfg, live, t.register, v) <==> value == Some(v) {
      ScaledIs(cfg, live, t.register, v);
    }
    hide ScaledTo;
    if value.Some? {
      assert a in ThresholdAlarms(cfg, t, live) <==> a in HighAlarm(t, value.value) || a in LowAlarm(t, value.value);
      assert Issues(t, value.value, a) <==> a in HighAlarm(t, value.value) || a in LowAlarm(t, value.value);
    }
  }

  lemma {:induction false} UpToMembership(cfg: Config, live: map<int, real>, n: nat, a: Alarm)
    requires n <= |cfg.alarms|
    ensures a in AlarmsUpTo(cfg, live, n) <==> exists i :: 0 <= i < n && IsIssued(cfg, live, cfg.alarms[i], a)
  {
    hide ThresholdAlarms, IsIssued;
    if n > 0 {
      UpToMembership(cfg, live, n - 1, a);
      ThresholdMembership(cfg, live, cfg.alarms[n - 1], a);
    }
  }

  /** Exactly the alarms that configured thresholds issue are listed, and the connection alarm if the socket is down. */
  lemma AlarmMembership(cfg: Config, live: map<int, real>, ws: bool, server: bool, a: Alarm)
    ensures a in AlarmsFor(cfg, live, ws, server) <==>
            || (a == Alarm("ws-disconnected", Info, None) && !ws && server)
            || exists t :: t in cfg.alarms && IsIssued(cfg, live, t, a)
  {
    UpToMembership(cfg, live, |cfg.alarms|, a);
    hide IsIssued, AlarmsUpTo;
    if t :| t in cfg.alarms && IsIssued(cfg, live, t, a) {
      var i :| 0 <= i < |cfg.alarms| && cfg.alarms[i] == t;
    }
  }

  /** The threshold calls for an alarm of this severity. */
  ghost predicate Calls(cfg: Config, live: map<int, real>, t: AlarmThreshold, severity: Severity) {
    exists value: real :: ScaledTo(cfg, live, t.register, value) && CallsAt(t, severity, value)
  }

  predicate CallsAt(t: AlarmThreshold, severity: Severity, value: real) {
    match severity
    case Critical => Reached(t.critHigh, value) || Fallen(t.critLow, value)
    case Warning =>
      (Reached(t.warnHigh, value) && !Reached(t.critHigh, value)) ||
      (Fallen(t.warnLow, value) && !Fallen(t.critLow, value))
    case Info => false
  }

  predicate Lists(alarms: seq<Alarm>, severity: Severity, register: Option<int>) {
    exists i :: 0 <= i < |alarms| && alarms[i].severity == severity && alarms[i].register == register
  }

  /** A threshold calls for a severity exactly if it issues an alarm of it. */
  lemma CallsIssues(cfg: Config, live: map<int, real>, t: AlarmThreshold, severity: Severity, register: int)
    ensures t.register == register && Calls(cfg, live, t, severity) <==>
            exists a: Alarm :: IsIssued(cfg, live, t, a) && a.severity == severity && a.register == Some(register)
  {
    hide ScaledTo;
    if t.register == register && Calls(cfg, live, t, severity) {
      var value :| ScaledTo(cfg, live, t.register, value) && CallsAt(t, severity, value);
      var suffix := if severity == Critical then (if Reached(t.critHigh, value) then "-crit-high" else "-crit-low")
                    else if Reached(t.warnHigh, value) && !Reached(t.critHigh, value) then "-warn-high"
                    else "-warn-low";
      var a := Alarm(t.name + suffix, severity, Some(t.register));
      assert Issues(t, value, a);
      assert IsIssued(cfg, live, t, a);
    }
    if a: Alarm :| IsIssued(cfg, live, t, a) && a.severity == severity && a.register == Some(register) {
      var value :| ScaledTo(cfg, live, t.register, value) && Issues(t, value, a);
      assert CallsAt(t, severity, value);
    }
  }

  /** An alarm is listed exactly if a configured threshold of its register calls for it. */
  lemma AlarmsAreExact(cfg: Config, live: map<int, real>, ws: bool, server: bool, severity: Severity, register: int)
    ensures Lists(AlarmsFor(cfg, live, ws, server), severity, Some(register)) <==>
            exists t :: t in cfg.alarms && t.register == register && Calls(cfg, live, t, severity)
  {
    var alarms := AlarmsFor(cfg, live, ws, server);
    hide AlarmsFor, Calls, IsIssued;
    if Lists(alarms, severity, Some(register)) {
      var i :| 0 <= i < |alarms| && alarms[i].severity == severity && alarms[i].register == Some(register);
      AlarmMembership(cfg, live, ws, server, alarms[i]);
      var t :| t in cfg.alarms && IsIssued(cfg, live, t, alarms[i]);
      CallsIssues(cfg, live, t, severity, register);
    }
    if t :| t in cfg.alarms && t.register == register && Calls(cfg, live, t, severity) {
      CallsIssues(cfg, live, t, severity, register);
      var a: Alarm :| IsIssued(cfg, live, t, a) && a.severity == severity && a.register == Some(register);
      AlarmMembership(cfg, live, ws, server, a);
      var i :| 0 <= i < |alarms| && alarms[i] == a;
    }
  }

  // ---- Of when the alarms are ----

  /** The n-th event was a reading of the device while it was on the screen. */
  predicate SeenLive(cfg: Config, start: string, events: seq<Event>, device: string, n: nat)
    requires n < |events|
  {
    events[n].Data? && events[n].reading.deviceId == device && After(cfg, start, events[..n]).active == device
  }

  lemma BackgroundKeepsAlarms(cfg: Config, s: Store, e: Event, device: string)
    requires !(e.Data? && e.reading.deviceId == device && s.active == device)
    ensures CacheOf(Next(cfg, s, e), device).alarms == CacheOf(s, device).alarms
  {
    hide AlarmsFor;
  }

  lemma ForegroundSetsAlarms(cfg: Config, s: Store, r: Reading)
    requires s.active == r.deviceId && SameReadings(s.shown, CacheOf(s, r.deviceId))
    ensures var t := Received(cfg, s, r);
            CacheOf(t, r.deviceId).alarms == AlarmsFor(cfg, CacheOf(t, r.deviceId).liveValues, t.ws, t.server)
  {
    hide AlarmsFor;
  }

  /** The alarms of the device are those computed after event n. */
  ghost predicate AlarmsFrom(cfg: Config, start: string, events: seq<Event>, device: string, n: nat)
    requires n < |events|
  {
    var seen := After(cfg, start, events[..n + 1]);
    CacheOf(After(cfg, start, events), device).alarms
    == AlarmsFor(cfg, CacheOf(seen, device).liveValues, seen.ws, seen.server)
  }

  lemma SeenLivePrefix(cfg: Config, start: string, events: seq<Event>, device: string, n: nat, k: nat)
    requires n < k <= |events|
    ensures SeenLive(cfg, start, events[..k], device, n) == SeenLive(cfg, start, events, device, n)
  {
    assert events[..k][..n] == events[..n];
  }

  /**
   * The alarms kept for a device are those of its latest reading that came in while it was on the screen: they are
   * computed from all live values at that time, and no reading in the background changes them.
   */
  lemma {:induction false} AlarmsDateFrom(cfg: Config, start: string, events: seq<Event>, device: string)
      returns (n: int)
    ensures -1 <= n < |events| && forall m :: n < m < |events| ==> !SeenLive(cfg, start, events, device, m)
    ensures n == -1 ==> CacheOf(After(cfg, start, events), device).alarms == []
    ensures n >= 0 ==> SeenLive(cfg, start, events, device, n) && AlarmsFrom(cfg, start, events, device, n)
  {
    if events == [] {
      n := -1;
    } else {
      var k := |events| - 1;
      var prefix, e := events[..k], events[k];
      var s := After(cfg, start, prefix);
      assert After(cfg, start, events) == Next(cfg, s, e);
      hide CacheOf, Next, AlarmsFor, After;
      if SeenLive(cfg, start, events, device, k) {
        n := k;
        DatesFromLast(cfg, start, events);
      } else {
        n := AlarmsDateFrom(cfg, start, prefix, device);
        BackgroundKeepsAlarms(cfg, s, e, device);
        forall m | 0 <= m < k
          ensures SeenLive(cfg, start, prefix, device, m) == SeenLive(cfg, start, events, device, m)
        {
          SeenLivePrefix(cfg, start, events, device, m, k);
        }
        hide SeenLive;
        assert n >= 0 ==> prefix[..n + 1] == events[..n + 1];
      }
    }
  }

  lemma DatesFromLast(cfg: Config, start: string, events: seq<Event>)
    requires events != [] && events[|events| - 1].Data?
    requires SeenLive(cfg, start, events, events[|events| - 1].reading.deviceId, |events| - 1)
    ensures AlarmsFrom(cfg, start, events, events[|events| - 1].reading.deviceId, |events| - 1)
  {
    var k := |events| - 1;
    var s, r := After(cfg, start, events[..k]), events[k].reading;
    assert events[..k + 1] == events;
    ScreenShowsActiveCache(cfg, start, events[..k]);
    assert After(cfg, start, events) == Received(cfg, s, r);
    hide After, Received, AlarmsFor, CacheOf;
    ForegroundSetsAlarms(cfg, s, r);
  }

  // ---- What is on the screen ----

  /** The device on the screen is the one of the last switch ... */
  lemma {:induction false} ActiveIsLastSwitch(cfg: Config, start: string, events: seq<Event>, n: nat, device: string)
    requires n < |events| && events[n] == Switch(device)
    requires forall m :: n < m < |events| ==> !events[m].Switch?
    ensures After(cfg, start, events).active == device
  {
    hide Received;
    if n < |events| - 1 {
      ActiveIsLastSwitch(cfg, start, events[..|events| - 1], n, device);
      ReceivedKeepsActive(cfg, After(cfg, start, events[..|events| - 1]), events[|events| - 1]);
    }
  }

  lemma ReceivedKeepsActive(cfg: Config, s: Store, e: Event)
    ensures !e.Switch? ==> Next(cfg, s, e).active == s.active
  {
    hide Applied, AlarmsFor;
  }

  /** ... or the first device, before any. */
  lemma {:induction false} ActiveAtFirst(cfg: Config, start: string, events: seq<Event>)
    requires forall m :: 0 <= m < |events| ==> !events[m].Switch?
    ensures After(cfg, start, events).active == start
  {
    if events != [] {
      ActiveAtFirst(cfg, start, events[..|events| - 1]);
      hide Next;
      ReceivedKeepsActive(cfg, After(cfg, start, events[..|events| - 1]), events[|events| - 1]);
    }
  }

  /** Dismissing removes every alarm with the id, and no other. */
  lemma {:induction false} DismissRemoves(alarms: seq<Alarm>, id: string, a: Alarm)
    ensures a in Without(alarms, id) <==> a in alarms && a.id != id
    decreases |alarms|
  {
    if alarms != [] {
      DismissRemoves(alarms[1..], id, a);
    }
  }

  /** The alarms whose ids are not among those given, in order. */
  function Minus(alarms: seq<Alarm>, ids: set<string>): seq<Alarm> {
    if alarms == [] then []
    else (if alarms[0].id in ids then [] else [alarms[0]]) + Minus(alarms[1..], ids)
  }

  /** The ids dismissed since the alarms on the screen were last computed or restored. */
  function Dismissed(cfg: Config, start: string, events: seq<Event>): set<string> {
    if events == [] then {} else
      var prefix, e := events[..|events| - 1], events[|events| - 1];
      var (earlier, active) := (Dismissed(cfg, start, prefix), After(cfg, start, prefix).active);
      match e
      case Dismiss(id) => earlier + {id}
      case Data(r) => if r.deviceId == active then {} else earlier
      case Switch(device) => if device == active then earlier else {}
      case _ => earlier
  }

  lemma {:induction false} MinusNone(alarms: seq<Alarm>)
    ensures Minus(alarms, {}) == alarms
    decreases |alarms|
  {
    if alarms != [] {
      MinusNone(alarms[1..]);
    }
  }

  lemma {:induction false} WithoutMinus(alarms: seq<Alarm>, ids: set<string>, id: string)
    ensures Without(Minus(alarms, ids), id) == Minus(alarms, ids + {id})
    decreases |alarms|
  {
    if alarms != [] {
      WithoutMinus(alarms[1..], ids, id);
      var rest := Minus(alarms[1..], ids);
      if alarms[0].id in ids {
        assert Minus(alarms, ids) == rest;
      } else {
        assert Minus(alarms, ids)[1..] == rest;
      }
    }
  }

  ghost predicate ShowsRest(s: Store, dismissed: set<string>) {
    s.shown.alarms == Minus(CacheOf(s, s.active).alarms, dismissed)
  }

  lemma ReceivedShowsRest(cfg: Config, s: Store, r: Reading, dismissed: set<string>)
    requires ShowsRest(s, dismissed)
    ensures ShowsRest(Received(cfg, s, r), if r.deviceId == s.active then {} else dismissed)
  {
    hide Applied, AlarmsFor;
    MinusNone(Received(cfg, s, r).shown.alarms);
  }

  /**
   * The screen shows exactly the active device's alarms that were not dismissed since they were computed or restored.
   */
  lemma {:induction false} ShowsAllButDismissed(cfg: Config, start: string, events: seq<Event>)
    ensures ShowsRest(After(cfg, start, events), Dismissed(cfg, start, events))
  {
    if events != [] {
      var s, e := After(cfg, start, events[..|events| - 1]), events[|events| - 1];
      var dismissed := Dismissed(cfg, start, events[..|events| - 1]);
      ShowsAllButDismissed(cfg, start, events[..|events| - 1]);
      hide Received;
      match e
      case Data(r) => ReceivedShowsRest(cfg, s, r, dismissed);
      case Switch(d) => MinusNone(CacheOf(s, d).alarms);
      case Dismiss(id) => WithoutMinus(CacheOf(s, s.active).alarms, dismissed, id);
      case _ =>
    }
  }
}
