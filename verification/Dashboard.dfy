/** The dashboard store of `dashboard_store.dart`: a cache per device, and the view of the active device. */
module Dashboard {
  import opened Wrappers
  import opened Numbers

  datatype Reading = Reading(deviceId: string, register: int, value: real, timestamp: string)

  type Divisor = d: real | d != 0.0 witness 1.0

  datatype RegisterConfig = RegisterConfig(address: int, key: string, divisor: Divisor)

  datatype AlarmThreshold = AlarmThreshold(register: int, name: string, warnHigh: Option<real>, critHigh: Option<real>,
                                           warnLow: Option<real>, critLow: Option<real>)

  datatype Config = Config(registers: seq<RegisterConfig>, alarms: seq<AlarmThreshold>)

  datatype Severity = Critical | Warning | Info

  datatype Alarm = Alarm(id: string, severity: Severity, register: Option<int>)

  /** The numeric display values. One that was never set is 0. */
  datatype Field = Temperature | Pressure | Humidity | FlowRate | BatchProgress | AgitatorSpeed | PH

  /** What is held for a device, in its cache or on the screen. */
  datatype View = View(liveValues: map<int, real>, history: map<int, seq<Reading>>, named: map<Field, real>,
                       batchState: int, alarms: seq<Alarm>)

  const EMPTY := View(map[], map[], map[], 0, [])

  const MAX_HISTORY := 60

  function FieldOf(key: string): Option<Field> {
    match key
    case "temperature" => Some(Temperature)
    case "pressure" => Some(Pressure)
    case "humidity" => Some(Humidity)
    case "flowRate" => Some(FlowRate)
    case "batchProgress" => Some(BatchProgress)
    case "agitatorSpeed" => Some(AgitatorSpeed)
    case "pH" => Some(PH)
    case _ => None
  }

  /** The first configuration entry with the address. */
  function RegisterByAddress(registers: seq<RegisterConfig>, address: int): Option<RegisterConfig> {
    if registers == [] then None
    else if registers[0].address == address then Some(registers[0])
    else RegisterByAddress(registers[1..], address)
  }

  /** Unknown codes read as idle. */
  function FromCode(code: int): int {
    if 0 <= code <= 4 then code else 0
  }

  /** A history with one more reading, and never more than 60 of them. */
  function Push(history: seq<Reading>, r: Reading): seq<Reading> {
    var longer := history + [r];
    if |longer| > MAX_HISTORY then longer[1..] else longer
  }

  function HistoryOf(history: map<int, seq<Reading>>, register: int): seq<Reading> {
    if register in history then history[register] else []
  }

  /** A view after a reading, its alarms apart. */
  function Applied(cfg: Config, v: View, r: Reading): View {
    var conf := RegisterByAddress(cfg.registers, r.register);
    v.(liveValues := v.liveValues[r.register := r.value],
       history := v.history[r.register := Push(HistoryOf(v.history, r.register), r)],
       named := if conf.Some? && FieldOf(conf.value.key).Some?
                then v.named[FieldOf(conf.value.key).value := r.value / conf.value.divisor] else v.named,
       batchState := if conf.Some? && conf.value.key == "batchState" then FromCode(Trunc(r.value)) else v.batchState)
  }

  // ---- Alarms ----

  function HighAlarm(t: AlarmThreshold, value: real): seq<Alarm> {
    if t.critHigh.Some? && value >= t.critHigh.value then [Alarm(t.name + "-crit-high", Critical, Some(t.register))]
    else if t.warnHigh.Some? && value >= t.warnHigh.value then
      [Alarm(t.name + "-warn-high", Warning, Some(t.register))]
    else []
  }

  function LowAlarm(t: AlarmThreshold, value: real): seq<Alarm> {
    if t.critLow.Some? && 0.0 < value <= t.critLow.value then [Alarm(t.name + "-crit-low", Critical, Some(t.register))]
    else if t.warnLow.Some? && 0.0 < value <= t.warnLow.value then
      [Alarm(t.name + "-warn-low", Warning, Some(t.register))]
    else []
  }

  function ThresholdAlarms(cfg: Config, t: AlarmThreshold, live: map<int, real>): seq<Alarm> {
    if t.register !in live then [] else
      var conf := RegisterByAddress(cfg.registers, t.register);
      var value := if conf.Some? then live[t.register] / conf.value.divisor else live[t.register];
      HighAlarm(t, value) + LowAlarm(t, value)
  }

  function AlarmsUpTo(cfg: Config, live: map<int, real>, n: nat): seq<Alarm>
    requires n <= |cfg.alarms|
  {
    if n == 0 then [] else AlarmsUpTo(cfg, live, n - 1) + ThresholdAlarms(cfg, cfg.alarms[n - 1], live)
  }

  function AlarmsFor(cfg: Config, live: map<int, real>, ws: bool, server: bool): seq<Alarm> {
    AlarmsUpTo(cfg, live, |cfg.alarms|) + if !ws && server then [Alarm("ws-disconnected", Info, None)] else []
  }

  function Without(alarms: seq<Alarm>, id: string): seq<Alarm> {
    if alarms == [] then []
    else (if alarms[0].id == id then [] else [alarms[0]]) + Without(alarms[1..], id)
  }

  // ---- The store as a value, and its steps ----

  datatype Store = Store(caches: map<string, View>, active: string, shown: View, server: bool, ws: bool)

  datatype Event =
    | Data(reading: Reading)
    | Switch(device: string)
    | Dismiss(id: string)
    | Ws(up: bool)
    | Health(ok: bool)

  function CacheOf(s: Store, device: string): View {
    if device in s.caches then s.caches[device] else EMPTY
  }

  function Received(cfg: Config, s: Store, r: Reading): Store {
    var cached := Applied(cfg, CacheOf(s, r.deviceId), r);
    if r.deviceId != s.active then s.(caches := s.caches[r.deviceId := cached]) else
      var shown := Applied(cfg, s.shown, r);
      var alarms := AlarmsFor(cfg, shown.liveValues, s.ws, s.server);
      s.(caches := s.caches[r.deviceId := cached.(alarms := alarms)], shown := shown.(alarms := alarms))
  }

  function Next(cfg: Config, s: Store, e: Event): Store {
    match e
    case Data(r) => Received(cfg, s, r)
    case Switch(device) =>
      if device == s.active then s
      else s.(caches := s.caches[device := CacheOf(s, device)], active := device, shown := CacheOf(s, device))
    case Dismiss(id) => s.(shown := s.shown.(alarms := Without(s.shown.alarms, id)))
    case Ws(up) => s.(ws := up, server := s.server || up)
    case Health(ok) => s.(server := ok)
  }

  lemma ReceivedElsewhere(cfg: Config, s: Store, r: Reading)
    requires r.deviceId != s.active
    ensures Received(cfg, s, r) == s.(caches := s.caches[r.deviceId := Applied(cfg, CacheOf(s, r.deviceId), r)])
  {}

  lemma ReceivedHere(cfg: Config, s: Store, r: Reading, shown: View, alarms: seq<Alarm>)
    requires r.deviceId == s.active && shown == Applied(cfg, s.shown, r)
    requires alarms == AlarmsFor(cfg, shown.liveValues, s.ws, s.server)
    ensures var cached := Applied(cfg, CacheOf(s, r.deviceId), r);
            Received(cfg, s, r) == Store(s.caches[r.deviceId := cached][r.deviceId := cached.(alarms := alarms)],
                                         s.active, shown.(alarms := alarms), s.server, s.ws)
  {}

  class DeviceDataCache {
    var liveValues: map<int, real>
    var registerHistory: map<int, seq<Reading>>
    var named: map<Field, real>
    var batchState: int
    var alarms: seq<Alarm>

    function Content(): View
      reads this
    {
      View(liveValues, registerHistory, named, batchState, alarms)
    }

    constructor ()
      ensures Content() == EMPTY
    {
      liveValues, registerHistory, named, batchState, alarms := map[], map[], map[], 0, [];
    }

    /** The part of `_onData` that updates the cache. */
    method Update(cfg: Config, r: Reading)
      modifies this
      ensures Content() == Applied(cfg, old(Content()), r)
    {
      assert FieldOf("batchState") == None;
      hide RegisterByAddress, FieldOf, Trunc, FromCode;
      ghost var was := Content();
      liveValues := liveValues[r.register := r.value];
      var conf := RegisterByAddress(cfg.registers, r.register);
      if conf.Some? {
        var field := FieldOf(conf.value.key);
        if field.Some? {
          named := named[field.value := r.value / conf.value.divisor];
        } else if conf.value.key == "batchState" {
          batchState := FromCode(Trunc(r.value));
        }
      }
      if r.register !in registerHistory {
        registerHistory := registerHistory[r.register := []];
      }
      registerHistory := registerHistory[r.register := registerHistory[r.register] + [r]];
      if |registerHistory[r.register]| > MAX_HISTORY {
        registerHistory := registerHistory[r.register := registerHistory[r.register][1..]];
      }
      assert registerHistory == was.history[r.register := Push(HistoryOf(was.history, r.register), r)];
    }
  }

  class DashboardStore {
    const config: Config
    var deviceCache: map<string, DeviceDataCache>
    var activeDeviceId: string
    var liveValues: map<int, real>
    var registerHistory: map<int, seq<Reading>>
    var named: map<Field, real>
    var batchState: int
    var activeAlarms: seq<Alarm>
    var isServerConnected: bool
    var isWsConnected: bool

    /** No two devices share a cache. */
    ghost predicate Valid()
      reads this`deviceCache
    {
      forall d, e :: d in deviceCache && e in deviceCache && d != e ==> deviceCache[d] != deviceCache[e]
    }

    ghost function Caches(): map<string, View>
      reads this`deviceCache, deviceCache.Values
    {
      map d | d in deviceCache :: deviceCache[d].Content()
    }

    ghost function Shown(): View
      reads this
    {
      View(liveValues, registerHistory, named, batchState, activeAlarms)
    }

    ghost function State(): Store
      reads this, deviceCache.Values
    {
      Store(Caches(), activeDeviceId, Shown(), isServerConnected, isWsConnected)
    }

    constructor (config: Config, device: string)
      ensures Valid() && this.config == config
      ensures State() == Store(map[], device, EMPTY, false, false)
    {
      this.config := config;
      deviceCache, activeDeviceId := map[], device;
      liveValues, registerHistory, named, batchState, activeAlarms := map[], map[], map[], 0, [];
      isServerConnected, isWsConnected := false, false;
    }

    method CacheFor(device: string) returns (cache: DeviceDataCache)
      requires Valid()
      modifies this`deviceCache
      ensures Valid()
      ensures device in deviceCache && deviceCache[device] == cache
      ensures Caches() == old(Caches())[device := CacheOf(old(State()), device)]
      ensures cache.Content() == CacheOf(old(State()), device)
      ensures deviceCache.Values <= old(deviceCache.Values) + {cache}
      ensures cache in old(deviceCache.Values) || fresh(cache)
    {
      hide DeviceDataCache.Content, Shown;
      if device !in deviceCache {
        cache := new DeviceDataCache();
        deviceCache := deviceCache[device := cache];
      } else {
        cache := deviceCache[device];
      }
    }

    method SwitchDevice(device: string)
      requires Valid()
      modifies this
      ensures Valid() && State() == Next(config, old(State()), Switch(device)) && activeDeviceId == device
    {
      hide DeviceDataCache.Content;
      if device == activeDeviceId {
        return;
      }
      activeDeviceId := device;
      var cache := CacheFor(device);
      RestoreFromCache(cache);
    }

    method RestoreFromCache(cache: DeviceDataCache)
      modifies this`liveValues, this`registerHistory, this`named, this`batchState, this`activeAlarms
      ensures Shown() == cache.Content()
    {
      liveValues, registerHistory := cache.liveValues, cache.registerHistory;
      named, batchState, activeAlarms := cache.named, cache.batchState, cache.alarms;
    }

    method OnData(r: Reading)
      requires Valid()
      modifies this, deviceCache.Values
      ensures Valid() && State() == Next(config, old(State()), Data(r))
    {
      hide Applied, AlarmsFor, Received, DeviceDataCache.Content;
      ghost var was := State();
      UpdateCache(r);
      ghost var cached := Applied(config, CacheOf(was, r.deviceId), r);
      assert Caches() == was.caches[r.deviceId := cached];
      if r.deviceId != activeDeviceId {
        ReceivedElsewhere(config, was, r);
        return;
      }
      RefreshScreen(r);
      ReceivedHere(config, was, r, Applied(config, was.shown, r), activeAlarms);
    }

    /** The part of `_onData` that is about the active device. */
    method RefreshScreen(r: Reading)
      requires Valid() && activeDeviceId in deviceCache
      modifies this`liveValues, this`registerHistory, this`named, this`batchState, this`activeAlarms
      modifies deviceCache[activeDeviceId]
      ensures Valid()
      ensures var live := Applied(config, old(Shown()), r).liveValues;
              activeAlarms == AlarmsFor(config, live, isWsConnected, isServerConnected)
      ensures Shown() == Applied(config, old(Shown()), r).(alarms := activeAlarms)
      ensures Caches() == old(Caches())[activeDeviceId := old(Caches())[activeDeviceId].(alarms := activeAlarms)]
    {
      hide Applied, AlarmsFor, DeviceDataCache.Content;
      ShowReading(r);
      CheckAlarms();
    }

    method UpdateCache(r: Reading)
      requires Valid()
      modifies this`deviceCache, deviceCache.Values
      ensures Valid() && r.deviceId in deviceCache
      ensures Caches() == old(Caches())[r.deviceId := Applied(config, CacheOf(old(State()), r.deviceId), r)]
      ensures forall c :: c in deviceCache.Values ==> c in old(deviceCache.Values) || fresh(c)
    {
      hide Applied, DeviceDataCache.Content;
      var cache := CacheFor(r.deviceId);
      cache.Update(config, r);
    }

    /** The part of `_onData` that updates the screen. */
    method ShowReading(r: Reading)
      modifies this`liveValues, this`registerHistory, this`named, this`batchState
      ensures Shown() == Applied(config, old(Shown()), r)
    {
      assert FieldOf("batchState") == None;
      hide RegisterByAddress, FieldOf, Trunc, FromCode;
      ghost var was := Shown();
      liveValues := liveValues[r.register := r.value];
      var conf := RegisterByAddress(config.registers, r.register);
      if conf.Some? {
        var field := FieldOf(conf.value.key);
        if field.Some? {
          named := named[field.value := r.value / conf.value.divisor];
        } else if conf.value.key == "batchState" {
          batchState := FromCode(Trunc(r.value));
        }
      }
      if r.register !in registerHistory {
        registerHistory := registerHistory[r.register := []];
      }
      registerHistory := registerHistory[r.register := registerHistory[r.register] + [r]];
      if |registerHistory[r.register]| > MAX_HISTORY {
        registerHistory := registerHistory[r.register := registerHistory[r.register][1..]];
      }
      assert registerHistory == was.history[r.register := Push(HistoryOf(was.history, r.register), r)];
    }

    method CheckAlarms()
      requires Valid() && activeDeviceId in deviceCache
      modifies this`activeAlarms, deviceCache[activeDeviceId]
      ensures Valid() && activeAlarms == AlarmsFor(config, liveValues, isWsConnected, isServerConnected)
      ensures Caches() == old(Caches())[activeDeviceId := old(Caches())[activeDeviceId].(alarms := activeAlarms)]
    {
      hide RegisterByAddress, HighAlarm, LowAlarm, DeviceDataCache.Content, Caches;
      var newAlarms := [];
      for n := 0 to |config.alarms|
        invariant newAlarms == AlarmsUpTo(config, liveValues, n)
      {
        var t := config.alarms[n];
        if t.register in liveValues {
          var raw := liveValues[t.register];
          var conf := RegisterByAddress(config.registers, t.register);
          var val := if conf.Some? then raw / conf.value.divisor else raw;
          ghost var before := newAlarms;
          newAlarms := newAlarms + HighAlarm(t, val);
          newAlarms := newAlarms + LowAlarm(t, val);
          assert newAlarms == before + ThresholdAlarms(config, t, liveValues);
        }
      }
      if !isWsConnected && isServerConnected {
        newAlarms := newAlarms + [Alarm("ws-disconnected", Info, None)];
      }
      KeepAlarms(newAlarms);
    }

    /** The alarms go on the screen, and into the cache so that switching back restores them. */
    method KeepAlarms(newAlarms: seq<Alarm>)
      requires Valid() && activeDeviceId in deviceCache
      modifies this`activeAlarms, deviceCache[activeDeviceId]
      ensures Valid() && activeAlarms == newAlarms
      ensures Caches() == old(Caches())[activeDeviceId := old(Caches())[activeDeviceId].(alarms := newAlarms)]
    {
      activeAlarms := newAlarms;
      deviceCache[activeDeviceId].alarms := newAlarms;
    }

    method DismissAlarm(id: string)
      requires Valid()
      modifies this`activeAlarms
      ensures Valid() && State() == Next(config, old(State()), Dismiss(id))
    {
      hide DeviceDataCache.Content;
      activeAlarms := Without(activeAlarms, id);
    }

    method OnWsConnectionChanged(connected: bool)
      requires Valid()
      modifies this`isWsConnected, this`isServerConnected
      ensures Valid() && State() == Next(config, old(State()), Ws(connected))
      ensures isWsConnected == connected && isServerConnected == (connected || old(isServerConnected))
    {
      hide DeviceDataCache.Content;
      isWsConnected := connected;
      if connected {
        isServerConnected := true;
      }
    }

    /** The health check of `init`. */
    method OnHealth(ok: bool)
      requires Valid()
      modifies this`isServerConnected
      ensures Valid() && State() == Next(config, old(State()), Health(ok)) && isServerConnected == ok
    {
      hide DeviceDataCache.Content;
      isServerConnected := ok;
    }
  }
}
