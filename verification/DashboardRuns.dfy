/** Any interleaving of readings, device switches, dismissals and connection changes. */
module DashboardRuns {
  import opened Wrappers
  import opened Numbers
  import opened Dashboard

  function Initial(device: string): Store {
    Store(map[], device, EMPTY, false, false)
  }

  function After(cfg: Config, device: string, events: seq<Event>): Store {
    if events == [] then Initial(device)
    else Next(cfg, After(cfg, device, events[..|events| - 1]), events[|events| - 1])
  }

  // ---- The screen and the active device's cache ----

  /** Equal in everything but the alarms. */
  predicate SameReadings(a: View, b: View) {
    a.(alarms := []) == b.(alarms := [])
  }

  predicate Subsequence(a: seq<Alarm>, b: seq<Alarm>)
    decreases |b|
  {
    if a == [] then true
    else if b == [] then false
    else if a[0] == b[0] && Subsequence(a[1..], b[1..]) then true
    else Subsequence(a, b[1..])
  }

  lemma {:induction false} SubsequenceReflexive(a: seq<Alarm>)
    ensures Subsequence(a, a)
    decreases |a|
  {
    if a != [] {
      SubsequenceReflexive(a[1..]);
    }
  }

  lemma {:induction false} SubsequenceTail(a: seq<Alarm>, b: seq<Alarm>)
    requires a != [] && Subsequence(a, b)
    ensures Subsequence(a[1..], b)
    decreases |b|
  {
    if a[0] == b[0] && Subsequence(a[1..], b[1..]) {
      SubsequenceSkip(a[1..], b);
    } else {
      SubsequenceTail(a, b[1..]);
      SubsequenceSkip(a[1..], b);
    }
  }

  lemma {:induction false} SubsequenceSkip(a: seq<Alarm>, b: seq<Alarm>)
    requires b != [] && Subsequence(a, b[1..])
    ensures Subsequence(a, b)
  {}

  lemma {:induction false} WithoutIsSubsequence(a: seq<Alarm>, b: seq<Alarm>, id: string)
    requires Subsequence(a, b)
    ensures Subsequence(Without(a, id), b)
    decreases |b|, |a|
  {
    if a != [] {
      if a[0].id == id {
        SubsequenceTail(a, b);
        WithoutIsSubsequence(a[1..], b, id);
        assert Without(a, id) == Without(a[1..], id);
      } else if a[0] == b[0] && Subsequence(a[1..], b[1..]) {
        WithoutIsSubsequence(a[1..], b[1..], id);
        assert Without(a, id)[0] == a[0] && Without(a, id)[1..] == Without(a[1..], id);
      } else {
        WithoutIsSubsequence(a, b[1..], id);
        SubsequenceSkip(Without(a, id), b);
      }
    }
  }

  ghost predicate ShowsActive(s: Store) {
    && SameReadings(s.shown, CacheOf(s, s.active))
    && Subsequence(s.shown.alarms, CacheOf(s, s.active).alarms)
  }

  lemma AppliedSame(cfg: Config, a: View, b: View, r: Reading)
    requires SameReadings(a, b)
    ensures SameReadings(Applied(cfg, a, r), Applied(cfg, b, r))
  {}

  lemma ReceivedShowsActive(cfg: Config, s: Store, r: Reading)
    requires ShowsActive(s)
    ensures ShowsActive(Received(cfg, s, r))
  {
    hide Applied, AlarmsFor;
    AppliedSame(cfg, s.shown, CacheOf(s, s.active), r);
    var t := Received(cfg, s, r);
    if r.deviceId == s.active {
      SubsequenceReflexive(t.shown.alarms);
    }
  }

  /** The screen shows the active device's cache, and only alarms that the cache still holds. */
  lemma {:induction false} ScreenShowsActiveCache(cfg: Config, device: string, events: seq<Event>)
    ensures ShowsActive(After(cfg, device, events))
  {
    if events != [] {
      var s, e := After(cfg, device, events[..|events| - 1]), events[|events| - 1];
      ScreenShowsActiveCache(cfg, device, events[..|events| - 1]);
      match e
      case Data(r) => ReceivedShowsActive(cfg, s, r);
      case Switch(d) => SubsequenceReflexive(CacheOf(s, d).alarms);
      case Dismiss(id) => WithoutIsSubsequence(s.shown.alarms, CacheOf(s, s.active).alarms, id);
      case _ =>
    }
  }

  // ---- What the configuration says about a register ----

  /** The i-th entry is the one that counts for the address: the first that has it. */
  predicate FirstAt(registers: seq<RegisterConfig>, address: int, i: int) {
    && 0 <= i < |registers| && registers[i].address == address
    && forall j :: 0 <= j < i ==> registers[j].address != address
  }

  predicate Unconfigured(registers: seq<RegisterConfig>, address: int) {
    forall i :: 0 <= i < |registers| ==> registers[i].address != address
  }

  lemma {:induction false} LookupFinds(registers: seq<RegisterConfig>, address: int) returns (i: int)
    ensures i == -1 ==> Unconfigured(registers, address) && RegisterByAddress(registers, address) == None
    ensures i != -1 ==> FirstAt(registers, address, i) && RegisterByAddress(registers, address) == Some(registers[i])
  {
    if registers == [] {
      i := -1;
    } else if registers[0].address == address {
      i := 0;
    } else {
      i := LookupFinds(registers[1..], address);
      assert forall j :: 0 < j < |registers| ==> registers[j] == registers[1..][j - 1];
      i := if i == -1 then -1 else i + 1;
    }
  }

  /** The key that the configuration uses for a display value. */
  function KeyOf(field: Field): string {
    match field
    case Temperature => "temperature"
    case Pressure => "pressure"
    case Humidity => "humidity"
    case FlowRate => "flowRate"
    case BatchProgress => "batchProgress"
    case AgitatorSpeed => "agitatorSpeed"
    case PH => "pH"
  }

  lemma KeysAreFields(key: string, field: Field)
    ensures FieldOf(key) == Some(field) <==> key == KeyOf(field)
  {}

  // ---- Every cache is a fold of the whole message log ----

  function ReadingsOf(events: seq<Event>, device: string): seq<Reading> {
    if events == [] then [] else
      var e := events[|events| - 1];
      ReadingsOf(events[..|events| - 1], device)
      + (if e.Data? && e.reading.deviceId == device then [e.reading] else [])
  }

  /** What a reading can be about: its register, a display field, or the batch state. */
  datatype Topic = Register(register: int) | Shows(field: Field) | Batch

  predicate About(cfg: Config, r: Reading, topic: Topic) {
    match topic
    case Register(register) => r.register == register
    case Shows(field) =>
      exists i :: 0 <= i < |cfg.registers| &&
        FirstAt(cfg.registers, r.register, i) && cfg.registers[i].key == KeyOf(field)
    case Batch =>
      exists i :: 0 <= i < |cfg.registers| &&
        FirstAt(cfg.registers, r.register, i) && cfg.registers[i].key == "batchState"
  }

  function On(cfg: Config, readings: seq<Reading>, topic: Topic): seq<Reading> {
    if readings == [] then [] else
      var r := readings[|readings| - 1];
      On(cfg, readings[..|readings| - 1], topic) + (if About(cfg, r, topic) then [r] else [])
  }

  function LastSixty(readings: seq<Reading>): seq<Reading> {
    if |readings| <= 60 then readings else readings[|readings| - 60..]
  }

  ghost predicate LiveMatches(cfg: Config, v: View, readings: seq<Reading>, register: int) {
    var mine := On(cfg, readings, Register(register));
    && (register in v.liveValues <==> mine != [])
    && (register in v.history <==> mine != [])
    && (mine != [] ==> v.liveValues[register] == mine[|mine| - 1].value && v.history[register] == LastSixty(mine))
  }

  ghost predicate NamedMatches(cfg: Config, v: View, readings: seq<Reading>, field: Field) {
    var mine := On(cfg, readings, Shows(field));
    && (field in v.named <==> mine != [])
    && (mine != [] ==> IsShown(cfg, mine[|mine| - 1], field, v.named[field]))
  }

  /** The display value that a reading gives: its value divided as its register's first entry says. */
  ghost predicate IsShown(cfg: Config, r: Reading, field: Field, value: real) {
    exists i :: FirstAt(cfg.registers, r.register, i) && cfg.registers[i].key == KeyOf(field)
                && value == r.value / cfg.registers[i].divisor
  }

  /** A batch state is read off the integer part of a value; all but 1 to 4 are idle. */
  predicate ReadsAs(value: real, code: int) {
    if 1.0 <= value < 5.0 then 1 <= code <= 4 && code as real <= value < code as real + 1.0 else code == 0
  }

  ghost predicate BatchMatches(cfg: Config, v: View, readings: seq<Reading>) {
    var mine := On(cfg, readings, Batch);
    if mine == [] then v.batchState == 0 else ReadsAs(mine[|mine| - 1].value, v.batchState)
  }

  /** Latest values, latest 60 readings per register, latest display values, latest batch state. */
  ghost predicate Summarises(cfg: Config, v: View, readings: seq<Reading>) {
    && (forall register :: LiveMatches(cfg, v, readings, register))
    && (forall field :: NamedMatches(cfg, v, readings, field))
    && BatchMatches(cfg, v, readings)
  }

  lemma OnStep(cfg: Config, readings: seq<Reading>, r: Reading, topic: Topic)
    ensures On(cfg, readings + [r], topic) == On(cfg, readings, topic) + if About(cfg, r, topic) then [r] else []
  {
    assert (readings + [r])[..|readings|] == readings;
  }

  lemma LiveStep(cfg: Config, v: View, readings: seq<Reading>, r: Reading, register: int)
    requires LiveMatches(cfg, v, readings, register)
    ensures LiveMatches(cfg, Applied(cfg, v, r), readings + [r], register)
  {
    OnStep(cfg, readings, r, Register(register));
    PushKeepsSixty(On(cfg, readings, Register(register)), r);
    hide On, Push, LastSixty, RegisterByAddress, FieldOf, KeyOf;
    assert On(cfg, readings, Register(register)) + [] == On(cfg, readings, Register(register));
  }

  lemma PushKeepsSixty(mine: seq<Reading>, r: Reading)
    ensures Push(LastSixty(mine), r) == LastSixty(mine + [r])
    ensures mine == [] ==> LastSixty(mine) == []
  {
    var n := |mine|;
    if n >= 60 {
      assert |LastSixty(mine)| == 60;
      assert (LastSixty(mine) + [r])[1..] == (mine + [r])[n - 59..];
    }
  }

  lemma NamedStep(cfg: Config, v: View, readings: seq<Reading>, r: Reading, field: Field)
    requires NamedMatches(cfg, v, readings, field)
    ensures NamedMatches(cfg, Applied(cfg, v, r), readings + [r], field)
  {
    OnStep(cfg, readings, r, Shows(field));
    AboutShows(cfg, r, field);
    hide About, On, Push, RegisterByAddress, FieldOf, IsShown;
  }

  lemma FirstIsUnique(registers: seq<RegisterConfig>, address: int, i: int, j: int)
    requires FirstAt(registers, address, i) && FirstAt(registers, address, j)
    ensures i == j
  {}

  /** What the store looks up is what the entries say. */
  lemma AboutShows(cfg: Config, r: Reading, field: Field)
    ensures var conf := RegisterByAddress(cfg.registers, r.register);
            && (About(cfg, r, Shows(field)) <==> conf.Some? && FieldOf(conf.value.key) == Some(field))
            && (conf.Some? && FieldOf(conf.value.key) == Some(field) ==>
                  IsShown(cfg, r, field, r.value / conf.value.divisor))
  {
    var i := LookupFinds(cfg.registers, r.register);
    var conf := RegisterByAddress(cfg.registers, r.register);
    if i != -1 {
      KeysAreFields(conf.value.key, field);
    }
    hide RegisterByAddress, FieldOf, KeyOf;
    forall j | FirstAt(cfg.registers, r.register, j) && i != -1 ensures i == j {
      FirstIsUnique(cfg.registers, r.register, i, j);
    }
  }

  lemma AboutBatch(cfg: Config, r: Reading)
    ensures var conf := RegisterByAddress(cfg.registers, r.register);
            About(cfg, r, Batch) <==> conf.Some? && conf.value.key == "batchState"
  {
    var i := LookupFinds(cfg.registers, r.register);
    hide RegisterByAddress;
    forall j | FirstAt(cfg.registers, r.register, j) && i != -1 ensures i == j {
      FirstIsUnique(cfg.registers, r.register, i, j);
    }
  }

  lemma CodesAreRead(value: real)
    ensures ReadsAs(value, FromCode(Trunc(value)))
  {}

  lemma {:induction false} BatchStep(cfg: Config, v: View, readings: seq<Reading>, r: Reading)
    requires BatchMatches(cfg, v, readings)
    ensures BatchMatches(cfg, Applied(cfg, v, r), readings + [r])
  {
    OnStep(cfg, readings, r, Batch);
    AboutBatch(cfg, r);
    CodesAreRead(r.value);
    hide About, On, Push, RegisterByAddress, ReadsAs;
  }

  lemma SummaryStep(cfg: Config, v: View, readings: seq<Reading>, r: Reading)
    requires Summarises(cfg, v, readings)
    ensures Summarises(cfg, Applied(cfg, v, r), readings + [r])
  {
    forall register
      ensures LiveMatches(cfg, Applied(cfg, v, r), readings + [r], register)
    {
      LiveStep(cfg, v, readings, r, register);
    }
    forall field
      ensures NamedMatches(cfg, Applied(cfg, v, r), readings + [r], field)
    {
      NamedStep(cfg, v, readings, r, field);
    }
    BatchStep(cfg, v, readings, r);
  }

  lemma SummaryIgnoresAlarms(cfg: Config, v: View, readings: seq<Reading>, alarms: seq<Alarm>)
    requires Summarises(cfg, v, readings)
    ensures Summarises(cfg, v.(alarms := alarms), readings)
  {
    var w := v.(alarms := alarms);
    assert forall register :: LiveMatches(cfg, v, readings, register) ==> LiveMatches(cfg, w, readings, register);
    assert forall field :: NamedMatches(cfg, v, readings, field) ==> NamedMatches(cfg, w, readings, field);
  }

  lemma OnlyDataTouches(cfg: Config, s: Store, e: Event, device: string)
    requires !(e.Data? && e.reading.deviceId == device)
    ensures CacheOf(Next(cfg, s, e), device) == CacheOf(s, device)
  {}

  /** Each cache is what its device's readings say, whatever was on the screen when they came in. */
  lemma {:induction false} CachesSummariseTheLog(cfg: Config, start: string, events: seq<Event>, device: string)
    ensures Summarises(cfg, CacheOf(After(cfg, start, events), device), ReadingsOf(events, device))
  {
    if events != [] {
      var prefix, e := events[..|events| - 1], events[|events| - 1];
      var s := After(cfg, start, prefix);
      CachesSummariseTheLog(cfg, start, prefix, device);
      if e.Data? && e.reading.deviceId == device {
        var v := Applied(cfg, CacheOf(s, device), e.reading);
        SummaryStep(cfg, CacheOf(s, device), ReadingsOf(prefix, device), e.reading);
        SummaryIgnoresAlarms(cfg, v, ReadingsOf(events, device), CacheOf(After(cfg, start, events), device).alarms);
      } else {
        assert ReadingsOf(events, device) == ReadingsOf(prefix, device);
        OnlyDataTouches(cfg, s, e, device);
      }
    }
  }

  /** So the screen, too, is a fold of the log: switching back and forth loses and invents nothing. */
  lemma {:induction false} ScreenSummarisesTheLog(cfg: Config, start: string, events: seq<Event>)
    ensures var s := After(cfg, start, events);
            Summarises(cfg, s.shown, ReadingsOf(events, s.active))
  {
    var s := After(cfg, start, events);
    ScreenShowsActiveCache(cfg, start, events);
    CachesSummariseTheLog(cfg, start, events, s.active);
    SummaryIgnoresAlarms(cfg, CacheOf(s, s.active), ReadingsOf(events, s.active), s.shown.alarms);
    assert s.shown == CacheOf(s, s.active).(alarms := s.shown.alarms);
  }
}
