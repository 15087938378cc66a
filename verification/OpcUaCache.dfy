/** The push cache of `opcua_client.rs`: a subscription fills it, reads use it while it is fresh. */
module OpcUaCache {
  import opened Wrappers

  /** A monitored item of a delivery: register and value. */
  datatype Item = Item(handle: nat, value: nat)

  datatype Client = Client(session: bool, cache: map<nat, nat>, updateCount: nat,
                           lastReadCount: nat, active: bool, staleReads: nat)

  const NEW := Client(false, map[], 0, 0, false, 0)

  function Inserted(cache: map<nat, nat>, items: seq<Item>): map<nat, nat> {
    if items == [] then cache
    else Inserted(cache, items[..|items| - 1])[items[|items| - 1].handle := items[|items| - 1].value]
  }

  // A connection attempt: the cache is cleared, then the counters are reset, then the connection is made.

  function Cleared(c: Client): Client {
    c.(cache := map[])
  }

  function Reset(c: Client): Client {
    c.(updateCount := 0, lastReadCount := 0)
  }

  /** Whether the connection came up, and whether a subscription could be made. */
  function Established(c: Client, up: bool, subscribed: bool): Client {
    if up then c.(session := true, active := subscribed, staleReads := 0) else c
  }

  /** The first half of a read: may it be answered from the cache? */
  function CountChecked(c: Client): (Client, bool) {
    if c.active then
      if c.updateCount > c.lastReadCount then (c.(lastReadCount := c.updateCount, staleReads := 0), true)
      else (c.(staleReads := c.staleReads + 1, active := c.staleReads + 1 <= 5), false)
    else (c, false)
  }

  function FromCache(cache: map<nat, nat>, start: nat, count: nat): seq<nat> {
    seq(count, i => if start + i in cache then cache[start + i] else 0)
  }

  function Lost(c: Client): Client {
    c.(session := false, active := false, cache := map[])
  }

  class OpcUaClient {
    var session: bool
    var subCache: map<nat, nat>
    var subUpdateCount: nat
    var lastReadCount: nat
    var subActive: bool
    var subStaleReads: nat

    function View(): Client
      reads this
    {
      Client(session, subCache, subUpdateCount, lastReadCount, subActive, subStaleReads)
    }

    constructor ()
      ensures View() == NEW
    {
      session, subCache, subUpdateCount, lastReadCount, subActive, subStaleReads := false, map[], 0, 0, false, 0;
    }

    method Connect(up: bool, subscribed: bool)
      modifies this
      ensures View() == Established(Reset(Cleared(old(View()))), up, subscribed)
    {
      subCache := map[];
      subUpdateCount := 0;
      lastReadCount := 0;
      if up {
        session := true;
        subActive := subscribed;
        subStaleReads := 0;
      }
    }

    /** The callback, under the lock of the cache ... */
    method InsertItems(items: seq<Item>)
      modifies this`subCache
      ensures subCache == Inserted(old(subCache), items)
    {
      assert items[..|items|] == items;
      for i := 0 to |items|
        invariant subCache == Inserted(old(subCache), items[..i])
      {
        assert items[..i + 1][..i] == items[..i];
        subCache := subCache[items[i].handle := items[i].value];
      }
    }

    /** ... and then under the lock of the counter. */
    method BumpCounter()
      modifies this`subUpdateCount
      ensures subUpdateCount == old(subUpdateCount) + 1
    {
      subUpdateCount := subUpdateCount + 1;
    }

    method CheckCounter() returns (cached: bool)
      modifies this`lastReadCount, this`subStaleReads, this`subActive
      ensures (View(), cached) == CountChecked(old(View()))
    {
      cached := false;
      if subActive {
        var currentCount := subUpdateCount;
        if currentCount > lastReadCount {
          lastReadCount := currentCount;
          subStaleReads := 0;
          cached := true;
        } else {
          subStaleReads := subStaleReads + 1;
          if subStaleReads > 5 {
            subActive := false;
          }
        }
      }
    }

    /** A whole read with no callback in between; `polled` is what the server would answer. */
    method ReadRegisters(start: nat, count: nat, polled: Option<seq<nat>>) returns (values: Option<seq<nat>>)
      modifies this
      ensures var (checked, cached) := CountChecked(old(View()));
              && View() == (if !cached && checked.session && polled.None? then Lost(checked) else checked)
              && values == (if cached then Some(FromCache(checked.cache, start, count))
                            else if checked.session then polled else None)
    {
      var cached := CheckCounter();
      if cached {
        return Some(FromCache(subCache, start, count));
      }
      if !session {
        return None;
      }
      if polled.None? {
        LoseSession();
      }
      values := polled;
    }

    method WriteRegister(written: bool) returns (ok: bool)
      modifies this
      ensures ok == (old(session) && written)
      ensures View() == if old(session) && !written then Lost(old(View())) else old(View())
    {
      if !session {
        return false;
      }
      if !written {
        LoseSession();
      }
      ok := written;
    }

    method LoseSession()
      modifies this
      ensures View() == Lost(old(View()))
    {
      session := false;
      subActive := false;
      subCache := map[];
    }
  }

  // ---- Runs: the poller and the callbacks interleave at their locks ----

  /** What a callback inserted. It is late if its session had been given up before. */
  datatype Delivery = Delivery(items: seq<Item>, late: bool)

  datatype Pc =
    | Ready
    | WillUseCache(start: nat, count: nat)
    | WillPoll
    | CacheCleared
    | CountersReset

  /** Counts by callbacks of the present session, and by late ones. */
  datatype Counts = Counts(own: nat, late: nat) {
    function Total(): nat { own + late }
  }

  /** An answer from the cache: the counts when the counter was read, and what had been inserted by the answer. */
  datatype Answer = Answer(start: nat, values: seq<nat>, counted: Counts, seen: seq<Delivery>)

  /**
   * `bumpDue`: a callback of the present session has inserted and not counted; `lateDue`: so many of earlier sessions
   * have. The rest is history: the deliveries and answers since the cache was cleared, the counts since the counter
   * was reset, and what they were when the last read to use the cache began, whether there were earlier
   * subscriptions, and the reads begun.
   */
  datatype System = System(client: Client, pc: Pc, bumpDue: bool, lateDue: nat,
                           deliveries: seq<Delivery>, answers: seq<Answer>, counts: Counts, used: Counts,
                           subscribed: bool, earlier: bool, begun: nat)

  const INIT := System(NEW, Ready, false, 0, [], [], Counts(0, 0), Counts(0, 0), false, false, 0)

  datatype Step =
    | Clear
    | ResetCounters
    | Establish(up: bool, subscribed: bool)
    | Insert(items: seq<Item>)
    | LateInsert(items: seq<Item>)
    | Bump
    | LateBump
    | BeginRead(start: nat, count: nat)
    | UseCache
    | Poll(answered: bool)
    | Write(written: bool)

  predicate Enabled(s: System, step: Step) {
    match step
    case Clear => s.pc == Ready
    case ResetCounters => s.pc == CacheCleared
    case Establish(_, _) => s.pc == CountersReset
    case Insert(items) => s.pc != CacheCleared && !s.bumpDue && items != []
    case LateInsert(items) => s.earlier && items != []
    case Bump => s.bumpDue
    case LateBump => s.lateDue > 0
    case BeginRead(_, _) => s.pc == Ready
    case UseCache => s.pc.WillUseCache?
    case Poll(_) => s.pc == WillPoll
    case Write(_) => s.pc == Ready
  }

  /** A callback's first half. */
  function Delivered(s: System, items: seq<Item>, late: bool): System {
    s.(client := s.client.(cache := Inserted(s.client.cache, items)),
       deliveries := s.deliveries + [Delivery(items, late)])
  }

  function Answered(s: System): Answer
    requires s.pc.WillUseCache?
  {
    Answer(s.pc.start, FromCache(s.client.cache, s.pc.start, s.pc.count), s.used, s.deliveries)
  }

  function Next(s: System, step: Step): System {
    if !Enabled(s, step) then s else
      match step
      case Clear =>
        s.(client := Cleared(s.client), pc := CacheCleared, deliveries := [], answers := [],
           bumpDue := false, lateDue := s.lateDue + (if s.bumpDue then 1 else 0), earlier := s.subscribed)
      case ResetCounters =>
        s.(client := Reset(s.client), pc := CountersReset, counts := Counts(0, 0), used := Counts(0, 0))
      case Establish(up, subscribed) =>
        s.(client := Established(s.client, up, subscribed), pc := Ready,
           subscribed := s.subscribed || (up && subscribed))
      case Insert(items) => Delivered(s, items, false).(bumpDue := true)
      case LateInsert(items) => Delivered(s, items, true).(lateDue := s.lateDue + 1)
      case Bump =>
        s.(client := s.client.(updateCount := s.client.updateCount + 1), bumpDue := false,
           counts := s.counts.(own := s.counts.own + 1))
      case LateBump =>
        s.(client := s.client.(updateCount := s.client.updateCount + 1), lateDue := s.lateDue - 1,
           counts := s.counts.(late := s.counts.late + 1))
      case BeginRead(start, count) =>
        var (checked, cached) := CountChecked(s.client);
        s.(client := checked, begun := s.begun + 1,
           used := if cached then s.counts else s.used, pc := if cached then WillUseCache(start, count) else WillPoll)
      case UseCache => s.(pc := Ready, answers := s.answers + [Answered(s)])
      case Poll(answered) =>
        s.(pc := Ready, client := if s.client.session && !answered then Lost(s.client) else s.client)
      case Write(written) =>
        s.(client := if s.client.session && !written then Lost(s.client) else s.client)
  }

  function Run(s: System, steps: seq<Step>): System {
    if steps == [] then s else Next(Run(s, steps[..|steps| - 1]), steps[|steps| - 1])
  }

  // ---- What a cached answer says ----

  /** The last value that the items give to a register. */
  function LastIn(items: seq<Item>, register: nat): Option<nat> {
    if items == [] then None
    else if items[|items| - 1].handle == register then Some(items[|items| - 1].value)
    else LastIn(items[..|items| - 1], register)
  }

  /** The value of the latest delivery that mentions the register. */
  function Latest(deliveries: seq<Delivery>, register: nat): Option<nat> {
    if deliveries == [] then None
    else
      var last := LastIn(deliveries[|deliveries| - 1].items, register);
      if last.Some? then last else Latest(deliveries[..|deliveries| - 1], register)
  }

  /** The deliveries of the present session. */
  function Own(deliveries: seq<Delivery>): seq<Delivery> {
    if deliveries == [] then [] else
      var last := deliveries[|deliveries| - 1];
      Own(deliveries[..|deliveries| - 1]) + (if last.late then [] else [last])
  }

  lemma OwnStep(deliveries: seq<Delivery>, d: Delivery)
    ensures Own(deliveries + [d]) == Own(deliveries) + if d.late then [] else [d]
  {
    assert (deliveries + [d])[..|deliveries|] == deliveries;
  }

  function Looked(cache: map<nat, nat>, register: nat): Option<nat> {
    if register in cache then Some(cache[register]) else None
  }

  lemma {:induction false} InsertedLooks(cache: map<nat, nat>, items: seq<Item>, register: nat)
    ensures Looked(Inserted(cache, items), register)
         == var last := LastIn(items, register); if last.Some? then last else Looked(cache, register)
  {
    if items != [] {
      InsertedLooks(cache, items[..|items| - 1], register);
    }
  }

  ghost predicate CacheIsLatest(s: System) {
    forall register: nat :: Looked(s.client.cache, register) == Latest(s.deliveries, register)
  }

  /**
   * Each value is that of the latest delivery since the cache was cleared, 0 if there was none, and every counted
   * delivery of the present session is among them.
   */
  ghost predicate Truthful(a: Answer) {
    && (forall i :: 0 <= i < |a.values| ==> a.values[i] == Latest(a.seen, a.start + i).GetOr(0))
    && a.counted.own <= |Own(a.seen)|
  }

  predicate NoMore(a: Counts, b: Counts) {
    a.own <= b.own && a.late <= b.late
  }

  /** Counts and deliveries. */
  ghost predicate Counted(s: System) {
    && s.client.updateCount == s.counts.Total() && s.client.lastReadCount == s.used.Total()
    && NoMore(s.used, s.counts)
    // A delivery of the present session is counted right after it is inserted.
    && (if s.pc == CacheCleared then !s.bumpDue && Own(s.deliveries) == []
        else |Own(s.deliveries)| == s.counts.own + if s.bumpDue then 1 else 0)
    && (s.pc == CacheCleared || s.pc == CountersReset ==> s.answers == [])
  }

  /** Every answer used up at least one count that the answer before it had not; so will the one that is pending. */
  ghost predicate Consumed(answers: seq<Answer>, used: Counts, pending: bool) {
    && |answers| + (if pending then 1 else 0) <= used.Total()
    && (forall i :: 0 <= i < |answers| ==> NoMore(answers[i].counted, used) && answers[i].counted.Total() > 0)
    && (pending ==> forall i :: 0 <= i < |answers| ==> answers[i].counted.Total() < used.Total())
    && (forall i, j :: 0 <= i < j < |answers| ==>
          && NoMore(answers[i].counted, answers[j].counted)
          && answers[i].counted.Total() < answers[j].counted.Total())
  }

  ghost predicate Consuming(s: System) {
    Consumed(s.answers, s.used, s.pc.WillUseCache?)
  }

  /** While the cache may be used, or is being prepared for use, it holds the latest values. */
  ghost predicate Fresh(s: System) {
    s.client.active || s.pc.WillUseCache? || s.pc == CacheCleared || s.pc == CountersReset ==> CacheIsLatest(s)
  }

  ghost predicate AllTruthful(s: System) {
    forall i :: 0 <= i < |s.answers| ==> Truthful(s.answers[i])
  }

  ghost predicate Inv(s: System) {
    && Counted(s) && Consuming(s) && Fresh(s) && AllTruthful(s)
    && (s.client.active ==> s.client.session && s.client.staleReads <= 5)
  }

  lemma DeliveryKeepsLatest(s: System, items: seq<Item>, late: bool)
    requires CacheIsLatest(s)
    ensures CacheIsLatest(Delivered(s, items, late))
  {
    var t := Delivered(s, items, late);
    forall register: nat
      ensures Looked(t.client.cache, register) == Latest(t.deliveries, register)
    {
      InsertedLooks(s.client.cache, items, register);
      assert t.deliveries[..|s.deliveries|] == s.deliveries;
    }
  }

  lemma FreshStep(s: System, step: Step)
    requires Fresh(s)
    ensures Fresh(Next(s, step))
  {
    hide Looked, Latest, Inserted;
    if Enabled(s, step) {
      match step
      case Insert(items) =>
        if CacheIsLatest(s) { DeliveryKeepsLatest(s, items, false); }
        assert CacheIsLatest(Delivered(s, items, false)) ==> CacheIsLatest(Next(s, step));
      case LateInsert(items) =>
        if CacheIsLatest(s) { DeliveryKeepsLatest(s, items, true); }
        assert CacheIsLatest(Delivered(s, items, true)) ==> CacheIsLatest(Next(s, step));
      case Clear => assert CacheIsLatest(Next(s, step)) by { NothingIsLatest(Next(s, step)); }
      case _ =>
        assert CacheIsLatest(s) && Next(s, step).client.cache == s.client.cache ==> CacheIsLatest(Next(s, step));
    }
  }

  lemma NothingIsLatest(s: System)
    requires s.client.cache == map[] && s.deliveries == []
    ensures CacheIsLatest(s)
  {}

  lemma DeliveryCounted(s: System, step: Step)
    requires Counted(s) && (step.Insert? || step.LateInsert?)
    ensures Counted(Next(s, step))
  {
    OwnStep(s.deliveries, Delivery(step.items, step.LateInsert?));
    hide Inserted, Own;
  }

  lemma ClearCounted(s: System)
    requires Counted(s)
    ensures Counted(Next(s, Clear))
  {
    if s.pc == Ready {
      NothingOwn(Next(s, Clear).deliveries);
    }
    hide Own;
  }

  /** A read, its answer, or a write leaves the deliveries alone. */
  lemma ReadCounted(s: System, step: Step)
    requires Counted(s) && (step.BeginRead? || step.UseCache? || step.Poll? || step.Write?)
    ensures Counted(Next(s, step))
  {
    hide Own, FromCache;
  }

  lemma CountedStep(s: System, step: Step)
    requires Counted(s)
    ensures Counted(Next(s, step))
  {
    if step.Insert? || step.LateInsert? {
      DeliveryCounted(s, step);
    } else if step.Clear? {
      ClearCounted(s);
    } else if step.BeginRead? || step.UseCache? || step.Poll? || step.Write? {
      ReadCounted(s, step);
    } else {
      hide Own;
    }
  }

  /** What a step does to the answers and to the counts used. */
  lemma AnswersMove(s: System, step: Step)
    requires Counted(s)
    ensures var t := Next(s, step);
            || (t.answers == s.answers && t.used == s.used && t.pc.WillUseCache? == s.pc.WillUseCache?)
            || (t.answers == [] && !t.pc.WillUseCache?)
            || (t.answers == s.answers && !s.pc.WillUseCache? && t.pc.WillUseCache?
                && NoMore(s.used, t.used) && s.used.Total() < t.used.Total())
            || (s.pc.WillUseCache? && !t.pc.WillUseCache? && t.answers == s.answers + [Answered(s)] && t.used == s.used)
  {
    hide Inserted, FromCache, Own;
  }

  lemma MoreUsed(answers: seq<Answer>, used: Counts, more: Counts)
    requires Consumed(answers, used, false) && NoMore(used, more) && used.Total() < more.Total()
    ensures Consumed(answers, more, true)
  {}

  lemma OneMoreAnswer(answers: seq<Answer>, used: Counts, a: Answer)
    requires Consumed(answers, used, true) && a.counted == used
    ensures Consumed(answers + [a], used, false)
  {}

  lemma NoAnswers(answers: seq<Answer>, used: Counts)
    requires |answers| == 0
    ensures Consumed(answers, used, false)
  {
    hide NoMore;
  }

  lemma ConsumingStep(s: System, step: Step)
    requires Counted(s) && Consuming(s)
    ensures Consuming(Next(s, step))
  {
    var t := Next(s, step);
    AnswersMove(s, step);
    hide Next, Counted, Consumed, NoMore;
    if t.answers == s.answers && !s.pc.WillUseCache? && t.pc.WillUseCache? {
      MoreUsed(s.answers, s.used, t.used);
    } else if t.answers == [] && !t.pc.WillUseCache? {
      NoAnswers(t.answers, t.used);
    } else if s.pc.WillUseCache? && !t.pc.WillUseCache? {
      OneMoreAnswer(s.answers, s.used, Answered(s));
    }
  }

  lemma CachedAnswerIsTruthful(s: System)
    requires Counted(s) && Fresh(s) && s.pc.WillUseCache?
    ensures Truthful(Answered(s))
  {
    var values := FromCache(s.client.cache, s.pc.start, s.pc.count);
    forall i | 0 <= i < |values|
      ensures values[i] == Latest(s.deliveries, s.pc.start + i).GetOr(0)
    {
      assert Looked(s.client.cache, s.pc.start + i) == Latest(s.deliveries, s.pc.start + i);
    }
  }

  lemma AllTruthfulStep(s: System, step: Step)
    requires Counted(s) && Fresh(s) && AllTruthful(s)
    ensures AllTruthful(Next(s, step))
  {
    if s.pc.WillUseCache? {
      CachedAnswerIsTruthful(s);
    }
    hide Truthful, Answered, Counted, Fresh, Inserted;
    assert Next(s, step).answers == s.answers || Next(s, step).answers == []
           || (s.pc.WillUseCache? && Next(s, step).answers == s.answers + [Answered(s)]);
  }

  lemma ActiveStep(s: System, step: Step)
    requires s.client.active ==> s.client.session && s.client.staleReads <= 5
    ensures var t := Next(s, step); t.client.active ==> t.client.session && t.client.staleReads <= 5
  {
    hide Inserted, FromCache;
  }

  lemma NothingOwn(deliveries: seq<Delivery>)
    requires |deliveries| == 0
    ensures |Own(deliveries)| == 0
  {}

  predicate NothingUsed(s: System) {
    && s.client.updateCount == 0 && s.client.lastReadCount == 0 && !s.client.active
    && s.counts.own == 0 && s.counts.late == 0 && s.used.own == 0 && s.used.late == 0
  }

  lemma NothingCounted(s: System)
    requires s.pc == Ready && !s.bumpDue && NothingUsed(s)
    requires |Own(s.deliveries)| == 0 && |s.answers| == 0
    ensures Counted(s)
  {}

  lemma NothingConsumed(s: System)
    requires s.pc == Ready && |s.answers| == 0
    ensures Consuming(s)
  {
    hide Consumed;
    NoAnswers(s.answers, s.used);
  }

  lemma NothingToBeFresh(s: System)
    requires s.pc == Ready && NothingUsed(s) && |s.answers| == 0
    ensures Fresh(s) && AllTruthful(s)
  {
    hide CacheIsLatest, Truthful;
  }

  lemma NothingYet(s: System)
    requires s == INIT
    ensures s.pc == Ready && !s.bumpDue && NothingUsed(s) && |s.deliveries| == 0 && |s.answers| == 0
  {}

  lemma {:induction false} RunKeepsInv(steps: seq<Step>)
    ensures Inv(Run(INIT, steps))
  {
    hide Next, Counted, Consuming, Fresh, AllTruthful, Own, INIT, NEW;
    var t := Run(INIT, steps);
    if steps == [] {
      NothingYet(t);
      NothingOwn(t.deliveries);
      NothingCounted(t);
      NothingConsumed(t);
      NothingToBeFresh(t);
    } else {
      var s, step := Run(INIT, steps[..|steps| - 1]), steps[|steps| - 1];
      RunKeepsInv(steps[..|steps| - 1]);
      CountedStep(s, step);
      ConsumingStep(s, step);
      FreshStep(s, step);
      AllTruthfulStep(s, step);
      ActiveStep(s, step);
    }
  }

  /**
   * In every run, late callbacks included: each cached value is that of the latest delivery since the cache was
   * cleared, or 0, and cached answers never outnumber deliveries of the present session and late counts together.
   */
  lemma {:induction false} CacheAgrees(steps: seq<Step>)
    ensures var s := Run(INIT, steps);
            && |s.answers| <= |Own(s.deliveries)| + s.counts.late
            && forall i :: 0 <= i < |s.answers| ==> Truthful(s.answers[i])
  {
    RunKeepsInv(steps);
    hide Run, Truthful, Fresh;
  }

  // ---- Which reads use the cache, and on what grounds ----

  /**
   * In every run, a read uses the cache if and only if it is on and something was counted since the last read that
   * did: by the present session, or late. It then uses up all that was counted.
   */
  lemma ReadUsesCacheIff(steps: seq<Step>, start: nat, count: nat)
    requires Run(INIT, steps).pc == Ready
    ensures var s := Run(INIT, steps);
            var t := Next(s, BeginRead(start, count));
            && (t.pc.WillUseCache? <==>
                  s.client.active && (s.counts.own > s.used.own || s.counts.late > s.used.late))
            && t.used == if t.pc.WillUseCache? then s.counts else s.used
  {
    RunKeepsInv(steps);
    hide Run, Own, Fresh, Consuming, AllTruthful;
  }

  /** The answer before the i-th used up to here; the first has all counts to itself. */
  function UsedBefore(answers: seq<Answer>, i: nat): Counts
    requires i <= |answers|
  {
    if i == 0 then Counts(0, 0) else answers[i - 1].counted
  }

  /** Each cached answer rests on counts that the answer before it had not used. */
  lemma {:induction false} AnswersConsumeCounts(steps: seq<Step>, i: nat)
    requires i < |Run(INIT, steps).answers|
    ensures var (a, before) := (Run(INIT, steps).answers[i], UsedBefore(Run(INIT, steps).answers, i));
            && a.counted.own <= |Own(a.seen)| && NoMore(before, a.counted)
            && (a.counted.own > before.own || a.counted.late > before.late)
  {
    RunKeepsInv(steps);
    hide Run, Counted, Fresh, Latest, Own;
  }

  /** As long as the present session has delivered nothing, exactly the unused late counts make a read use the cache. */
  lemma EmptySessionAnswersIff(steps: seq<Step>, start: nat, count: nat)
    requires var s := Run(INIT, steps); s.pc == Ready && s.client.active && Own(s.deliveries) == []
    ensures var s := Run(INIT, steps);
            Next(s, BeginRead(start, count)).pc.WillUseCache? <==> s.counts.late > s.client.lastReadCount
  {
    ReadUsesCacheIff(steps, start, count);
    RunKeepsInv(steps);
    hide Run, Next, Fresh, Consuming, AllTruthful;
  }

  /** And if nothing late was inserted either, the answer is all zeros. */
  lemma EmptyCacheAnswersZeros(steps: seq<Step>, start: nat, count: nat)
    requires var s := Run(INIT, steps); s.pc == Ready && s.client.active && s.deliveries == []
    requires var s := Run(INIT, steps); s.counts.late > s.client.lastReadCount
    ensures var s := Run(INIT, steps);
            var t := Next(Next(s, BeginRead(start, count)), UseCache);
            |t.answers| == |s.answers| + 1 && t.answers[|s.answers|].values == seq(count, _ => 0)
  {
    var s := Run(INIT, steps);
    RunKeepsInv(steps);
    NothingOwn(s.deliveries);
    EmptySessionAnswersIff(steps, start, count);
    hide Run, Counted, Consuming, AllTruthful;
    assert s.client.cache == map[] by {
      assert forall register: nat :: Looked(s.client.cache, register) == Latest(s.deliveries, register) == None;
      assert forall register: nat :: register in s.client.cache ==> Looked(s.client.cache, register).Some?;
    }
  }

  predicate Mentions(items: seq<Item>, register: nat) {
    exists i :: 0 <= i < |items| && items[i].handle == register
  }

  lemma {:induction false} LastInMentions(items: seq<Item>, register: nat)
    ensures LastIn(items, register).Some? <==> Mentions(items, register)
  {
    if items != [] {
      LastInMentions(items[..|items| - 1], register);
      if Mentions(items, register) && items[|items| - 1].handle != register {
        var i :| 0 <= i < |items| && items[i].handle == register;
        assert items[..|items| - 1][i].handle == register;
      }
    }
  }

  /** The position of the latest delivery that mentions the register, -1 if there is none. */
  ghost predicate IsSource(seen: seq<Delivery>, register: nat, source: int) {
    && -1 <= source < |seen|
    && (forall k :: source < k < |seen| ==> !Mentions(seen[k].items, register))
    && (source >= 0 ==> Mentions(seen[source].items, register))
  }

  /** A truthful value is from the latest delivery that mentions the register: none that was counted is newer. */
  lemma {:induction false} LatestSource(seen: seq<Delivery>, register: nat) returns (source: int)
    ensures IsSource(seen, register, source)
    ensures source >= 0 ==>
              Latest(seen, register) == LastIn(seen[source].items, register) && Latest(seen, register).Some?
    ensures source == -1 ==> Latest(seen, register) == None
  {
    if seen == [] {
      source := -1;
    } else {
      LastInMentions(seen[|seen| - 1].items, register);
      if Mentions(seen[|seen| - 1].items, register) {
        source := |seen| - 1;
      } else {
        source := LatestSource(seen[..|seen| - 1], register);
      }
    }
  }

  // ---- When the value is the one that the present session delivered ----

  /** The latest mention of the register came from a late callback. */
  ghost predicate Overwritten(seen: seq<Delivery>, register: nat) {
    exists source :: IsSource(seen, register, source) && source >= 0 && seen[source].late
  }

  lemma OverwrittenStep(seen: seq<Delivery>, d: Delivery, register: nat)
    ensures Overwritten(seen + [d], register)
       <==> if Mentions(d.items, register) then d.late else Overwritten(seen, register)
  {
    var more := seen + [d];
    hide Mentions;
    if Mentions(d.items, register) {
      assert IsSource(more, register, |seen|) && more[|seen|] == d;
    } else {
      forall source
        ensures source < |seen| ==> (IsSource(more, register, source) <==> IsSource(seen, register, source))
        ensures source >= |seen| ==> !IsSource(more, register, source)
      {
        assert forall k :: 0 <= k < |seen| ==> more[k] == seen[k];
        assert more[|seen|] == d;
      }
    }
  }

  lemma LatestStep(seen: seq<Delivery>, d: Delivery, register: nat)
    ensures Latest(seen + [d], register)
         == if LastIn(d.items, register).Some? then LastIn(d.items, register) else Latest(seen, register)
  {
    assert (seen + [d])[..|seen|] == seen;
  }

  lemma {:induction false} OwnUntilMention(seen: seq<Delivery>, register: nat)
    ensures !Overwritten(seen, register) ==> Latest(Own(seen), register) == Latest(seen, register)
  {
    if seen != [] {
      var n := |seen| - 1;
      var prefix, last := seen[..n], seen[n];
      OwnUntilMention(prefix, register);
      hide Latest, Own, LastIn, Mentions, Overwritten;
      assert seen == prefix + [last];
      LastInMentions(last.items, register);
      OverwrittenStep(prefix, last, register);
      OwnStep(prefix, last);
      LatestStep(prefix, last, register);
      LatestStep(Own(prefix), last, register);
      assert Own(prefix) + [] == Own(prefix);
    }
  }

  /** What the present session delivered last for the i-th register of an answer. */
  function OwnValue(a: Answer, i: nat): Option<nat> {
    Latest(Own(a.seen), a.start + i)
  }

  /**
   * A cached value is one that the present session delivered, and the last for its register, if and only if some
   * delivery mentions the register, and either no late callback was the last to do so, or it repeated the value.
   */
  lemma ValueIsOwnIff(a: Answer, i: nat, source: int)
    requires Truthful(a) && i < |a.values| && IsSource(a.seen, a.start + i, source)
    ensures OwnValue(a, i) == Some(a.values[i]) <==>
            source >= 0 && (!a.seen[source].late || LastIn(a.seen[source].items, a.start + i) == OwnValue(a, i))
  {
    var register := a.start + i;
    var found := LatestSource(a.seen, register);
    assert found == source;
    OwnUntilMention(a.seen, register);
    if Overwritten(a.seen, register) {
      var other :| IsSource(a.seen, register, other) && other >= 0 && a.seen[other].late;
      assert other == source;
    } else {
      assert source >= 0 ==> !a.seen[source].late;
    }
    if source == -1 {
      NeverMentioned(a.seen, register);
    }
  }

  lemma {:induction false} NeverMentioned(seen: seq<Delivery>, register: nat)
    requires forall k :: 0 <= k < |seen| ==> !Mentions(seen[k].items, register)
    ensures Latest(seen, register) == None && Latest(Own(seen), register) == None
  {
    if seen != [] {
      var n := |seen| - 1;
      NeverMentioned(seen[..n], register);
      LastInMentions(seen[n].items, register);
      assert seen == seen[..n] + [seen[n]];
      hide Latest, Own, LastIn, Mentions;
      OwnStep(seen[..n], seen[n]);
      LatestStep(seen[..n], seen[n], register);
      LatestStep(Own(seen[..n]), seen[n], register);
      assert Own(seen[..n]) + [] == Own(seen[..n]);
    }
  }

  /**
   * A cached value has a property that the present session reported no value with, if and only if no delivery mentions
   * the register and 0 has it, or the last to mention it was late, with a value that has it.
   */
  lemma UnreportedIff(a: Answer, i: nat, source: int, property: nat -> bool)
    requires Truthful(a) && i < |a.values| && IsSource(a.seen, a.start + i, source)
    ensures property(a.values[i]) && !(OwnValue(a, i).Some? && property(OwnValue(a, i).value)) <==>
            if source == -1 then property(0)
            else
              && a.seen[source].late && property(LastIn(a.seen[source].items, a.start + i).GetOr(0))
              && !(OwnValue(a, i).Some? && property(OwnValue(a, i).value))
  {
    var register := a.start + i;
    ValueIsOwnIff(a, i, source);
    var found := LatestSource(a.seen, register);
    assert found == source;
    if source == -1 {
      NeverMentioned(a.seen, register);
    }
    hide Own, Latest, LastIn, Mentions;
  }

  predicate NoLateCallbacks(steps: seq<Step>) {
    forall i :: 0 <= i < |steps| ==> !steps[i].LateInsert? && !steps[i].LateBump?
  }

  lemma {:induction false} OwnOfOwn(deliveries: seq<Delivery>)
    requires forall i :: 0 <= i < |deliveries| ==> !deliveries[i].late
    ensures Own(deliveries) == deliveries
  {
    if deliveries != [] {
      OwnOfOwn(deliveries[..|deliveries| - 1]);
    }
  }

  ghost predicate OnTime(s: System) {
    && s.counts.late == 0 && s.used.late == 0
    && (forall i :: 0 <= i < |s.deliveries| ==> !s.deliveries[i].late)
    && (forall a :: a in s.answers ==> a.counted.late == 0 && forall i :: 0 <= i < |a.seen| ==> !a.seen[i].late)
  }

  lemma OnTimeStep(s: System, step: Step)
    requires OnTime(s) && !step.LateInsert? && !step.LateBump?
    ensures OnTime(Next(s, step))
  {
    hide Inserted, FromCache, CountChecked;
  }

  lemma {:induction false} OnTimeRun(steps: seq<Step>)
    requires NoLateCallbacks(steps)
    ensures OnTime(Run(INIT, steps))
  {
    if steps != [] {
      OnTimeRun(steps[..|steps| - 1]);
      hide Next, OnTime;
      OnTimeStep(Run(INIT, steps[..|steps| - 1]), steps[|steps| - 1]);
    }
  }

  /**
   * As long as callbacks of earlier sessions keep away, every cached value is the latest that the present session
   * delivered, from at least as many deliveries as were counted, and answers never outnumber deliveries.
   */
  lemma {:induction false} CacheAgreesOnTime(steps: seq<Step>)
    requires NoLateCallbacks(steps)
    ensures var s := Run(INIT, steps);
            && |s.answers| <= |s.deliveries|
            && forall a :: a in s.answers ==>
                 a.counted.Total() <= |a.seen| && Own(a.seen) == a.seen
                 && forall i :: 0 <= i < |a.values| ==> a.values[i] == Latest(a.seen, a.start + i).GetOr(0)
  {
    CacheAgrees(steps);
    OnTimeRun(steps);
    var s := Run(INIT, steps);
    hide Run, Inv;
    OwnOfOwn(s.deliveries);
    forall a | a in s.answers
      ensures Truthful(a) && Own(a.seen) == a.seen && a.counted.late == 0
    {
      OwnOfOwn(a.seen);
    }
    hide Own, Latest;
  }

  // ---- Both conditions can fail ----

  lemma Append(steps: seq<Step>, step: Step) returns (more: seq<Step>)
    ensures more == steps + [step] && Run(INIT, more) == Next(Run(INIT, steps), step)
  {
    more := steps + [step];
    assert more[..|steps|] == steps;
  }

  const ITEM := Item(1032, 1)

  lemma Connects(s: System) returns (c: System, r: System, t: System)
    requires s.pc == Ready
    ensures c == Next(s, Clear) && r == Next(c, ResetCounters) && t == Next(r, Establish(true, true))
    ensures t.client == Client(true, map[], 0, 0, true, 0) && t.pc == Ready && !t.bumpDue
    ensures t.lateDue == s.lateDue + (if s.bumpDue then 1 else 0) && t.begun == s.begun
    ensures t.deliveries == [] && t.answers == [] && t.counts == t.used == Counts(0, 0)
    ensures t.subscribed && t.earlier == s.subscribed
  {
    c, r, t := Next(s, Clear), Next(Next(s, Clear), ResetCounters),
               Next(Next(Next(s, Clear), ResetCounters), Establish(true, true));
  }

  /** A connection with a subscription is made. */
  lemma Connect(steps: seq<Step>) returns (more: seq<Step>)
    requires Run(INIT, steps).pc == Ready
    ensures var (s, t) := (Run(INIT, steps), Run(INIT, more));
            && t.client == Client(true, map[], 0, 0, true, 0) && t.pc == Ready && !t.bumpDue
            && t.lateDue == s.lateDue + (if s.bumpDue then 1 else 0) && t.begun == s.begun
            && t.deliveries == [] && t.answers == [] && t.counts == t.used == Counts(0, 0)
            && t.subscribed && t.earlier == s.subscribed
  {
    var _, _, _ := Connects(Run(INIT, steps));
    hide Run, Next;
    more := Append(steps, Clear);
    more := Append(more, ResetCounters);
    more := Append(more, Establish(true, true));
  }

  lemma DeliversAndLoses(s: System) returns (t: System)
    requires s.client.session && s.pc == Ready && !s.bumpDue
    ensures t == Next(Next(s, Insert([ITEM])), Write(false))
    ensures t.pc == Ready && t.bumpDue && t.lateDue == s.lateDue && t.subscribed == s.subscribed && t.begun == s.begun
  {
    t := Next(Next(s, Insert([ITEM])), Write(false));
    hide Inserted;
  }

  /**
   * A session comes up, delivers, and is lost before its callback has counted; a new session is up, and the callback
   * of the old one has yet to count.
   */
  lemma Reconnected() returns (steps: seq<Step>)
    ensures Run(INIT, steps)
         == INIT.(client := Client(true, map[], 0, 0, true, 0), lateDue := 1, subscribed := true, earlier := true)
  {
    assert Run(INIT, []) == INIT;
    hide Run, Next;
    steps := Connect([]);
    var _ := DeliversAndLoses(Run(INIT, steps));
    steps := Append(steps, Insert([ITEM]));
    steps := Append(steps, Write(false));
    steps := Connect(steps);
  }

  lemma ZeroFromNothing()
    ensures FromCache(map[], 1032, 1) == [0]
  {}

  /** A late count makes the empty cache look fresh: register 1032 reads 0 although the session delivered nothing. */
  lemma LateCountAnswersZero() returns (steps: seq<Step>)
    ensures var s := Run(INIT, steps);
            s.deliveries == [] && |s.answers| == 1 && s.answers[0].start == 1032 && s.answers[0].values == [0]
  {
    steps := Reconnected();
    ZeroFromNothing();
    hide Run, FromCache;
    steps := Append(steps, LateBump);
    steps := Append(steps, BeginRead(1032, 1));
    steps := Append(steps, UseCache);
    assert [] + Run(INIT, steps).answers == Run(INIT, steps).answers;
  }

  lemma LateOne()
    ensures Inserted(map[], [ITEM]) == map[1032 := 1] && FromCache(map[1032 := 1], 1032, 1) == [1]
    ensures Own([Delivery([ITEM], true)]) == [] && Latest([], 1032) == None
  {
    assert [ITEM][..0] == [] && [Delivery([ITEM], true)][..0] == [];
  }

  /** A late insertion is served as if the present session had delivered it. */
  lemma LateInsertIsServed() returns (steps: seq<Step>)
    ensures var s := Run(INIT, steps);
            && |s.answers| == 1 && s.answers[0].start == 1032 && s.answers[0].values == [1]
            && OwnValue(s.answers[0], 0) == None
  {
    steps := Reconnected();
    LateOne();
    hide Run, FromCache, Inserted, Own, Latest;
    steps := Append(steps, LateInsert([ITEM]));
    assert [] + [Delivery([ITEM], true)] == [Delivery([ITEM], true)];
    steps := Append(steps, LateBump);
    steps := Append(steps, BeginRead(1032, 1));
    steps := Append(steps, UseCache);
    assert [] + Run(INIT, steps).answers == Run(INIT, steps).answers;
  }

  // ---- Making and losing the session ----

  /**
   * What a connection attempt that is not disturbed leaves. A failed one leaves session and subscription as they were.
   */
  lemma ConnectionIs(s: System, up: bool, subscribed: bool)
    requires s.pc == Ready
    ensures var t := Next(Next(Next(s, Clear), ResetCounters), Establish(up, subscribed));
            && t.pc == Ready
            && (up ==> t.client == Client(true, map[], 0, 0, subscribed, 0))
            && (!up ==> t.client == Client(s.client.session, map[], 0, 0, s.client.active, s.client.staleReads))
  {}

  /** A failed poll or write gives up session, subscription and cache; a successful one changes nothing. */
  lemma FailureDisconnects(s: System, step: Step)
    requires Enabled(s, step) && s.client.session
    ensures var t := Next(s, step).client;
            && (step == Poll(false) || step == Write(false) ==> !t.session && !t.active && t.cache == map[])
            && (step == Poll(true) || step == Write(true) ==> t == s.client)
  {}

  /** Without a session there is none before the next successful connect. */
  lemma {:induction false} DisconnectedUntilConnect(s: System, steps: seq<Step>)
    requires !s.client.session && forall i :: 0 <= i < |steps| ==> !(steps[i].Establish? && steps[i].up)
    ensures !Run(s, steps).client.session
  {
    if steps != [] {
      DisconnectedUntilConnect(s, steps[..|steps| - 1]);
      hide Next;
      StaysDisconnected(Run(s, steps[..|steps| - 1]), steps[|steps| - 1]);
    }
  }

  lemma StaysDisconnected(s: System, step: Step)
    requires !s.client.session && !(step.Establish? && step.up)
    ensures !Next(s, step).client.session
  {
    hide Inserted, FromCache;
  }

  // ---- Falling back to polling ----

  /** Nothing is counted, and the connection neither drops nor is renewed. */
  predicate Uneventful(step: Step) {
    && !step.Bump? && !step.LateBump? && !step.Clear? && !step.ResetCounters? && !step.Establish?
    && !(step.Poll? && !step.answered) && !(step.Write? && !step.written)
  }

  /** Since `s` every read has polled, and the cache is still on if there were few enough of them. */
  predicate StaleSince(s: System, t: System) {
    var stale := s.client.staleReads + (t.begun - s.begun);
    && t.begun >= s.begun && t.answers == s.answers && !t.pc.WillUseCache?
    && t.client.updateCount == t.client.lastReadCount
    && (t.client.active <==> stale <= 5) && (t.client.active ==> t.client.staleReads == stale)
  }

  lemma StaleStep(s: System, t: System, step: Step)
    requires StaleSince(s, t) && Uneventful(step)
    ensures StaleSince(s, Next(t, step))
  {
    hide Inserted, FromCache;
  }

  /** Without news every read polls; up to five such reads in a row are tolerated, the sixth disables the cache. */
  lemma {:induction false} StaleReadsPoll(s: System, steps: seq<Step>)
    requires Inv(s) && s.client.active && !s.pc.WillUseCache? && s.client.updateCount == s.client.lastReadCount
    requires forall i :: 0 <= i < |steps| ==> Uneventful(steps[i])
    ensures StaleSince(s, Run(s, steps))
  {
    hide Next, Counted, Consuming, Fresh, AllTruthful, Uneventful;
    if steps == [] {
      assert Run(s, steps) == s;
    } else {
      StaleReadsPoll(s, steps[..|steps| - 1]);
      hide StaleSince, Inv;
      StaleStep(s, Run(s, steps[..|steps| - 1]), steps[|steps| - 1]);
    }
  }

  /** The cache is off, and has answered nothing since. */
  predicate OffSince(s: System, t: System) {
    !t.client.active && t.answers == s.answers && !t.pc.WillUseCache?
  }

  lemma OffStep(s: System, t: System, step: Step)
    requires OffSince(s, t) && !step.Clear? && !step.Establish?
    ensures OffSince(s, Next(t, step))
  {
    hide Inserted, FromCache;
  }

  /** Once disabled, the cache is not used again before the next connect. */
  lemma {:induction false} DisabledUntilConnect(s: System, steps: seq<Step>)
    requires !s.client.active && !s.pc.WillUseCache?
    requires forall i :: 0 <= i < |steps| ==> !steps[i].Clear? && !steps[i].Establish?
    ensures OffSince(s, Run(s, steps))
  {
    if steps != [] {
      DisabledUntilConnect(s, steps[..|steps| - 1]);
      hide Next;
      OffStep(s, Run(s, steps[..|steps| - 1]), steps[|steps| - 1]);
    }
  }
}
