/** The batch records of `db.rs` and the batch tracker inside the polling loop of `protocol.rs`. */
module Batches {
  import opened Wrappers
  import opened Numbers

  const IDLE := 0
  const HEATING := 1
  const COMPLETE := 4

  datatype Status = Running | Completed | Aborted

  datatype Record = Record(batchId: string, device: string, status: Status,
                           startTime: int, endTime: Option<int>, notes: Option<string>)

  type Table = seq<Record>

  // ---- Batch ids ----

  function Decimal(n: nat): string {
    if n < 10 then [Digit(n)] else Decimal(n / 10) + [Digit(n % 10)]
  }

  /** At least four digits. */
  function Padded(n: nat): string {
    var s := Decimal(n);
    if |s| < 4 then seq(4 - |s|, _ => '0') + s else s
  }

  function BatchId(device: string, n: nat): string {
    "BATCH-" + device + "-" + Padded(n)
  }

  predicate AllDigits(s: string) {
    forall i :: 0 <= i < |s| ==> '0' <= s[i] <= '9'
  }

  function Parse(s: string): int {
    if s == [] then 0 else 10 * Parse(s[..|s| - 1]) + (s[|s| - 1] as int - '0' as int)
  }

  lemma {:induction false} ParseDecimal(n: nat)
    ensures AllDigits(Decimal(n)) && Parse(Decimal(n)) == n
  {
    if n >= 10 {
      ParseDecimal(n / 10);
      assert Decimal(n)[..|Decimal(n)| - 1] == Decimal(n / 10);
    } else {
      assert Parse(Decimal(n)[..0]) == 0;
    }
  }

  lemma {:induction false} ParseLeadingZeros(zeros: string, s: string)
    requires forall i :: 0 <= i < |zeros| ==> zeros[i] == '0'
    ensures Parse(zeros + s) == Parse(s)
    decreases |s|, |zeros|
  {
    if s != [] {
      assert (zeros + s)[..|zeros + s| - 1] == zeros + s[..|s| - 1];
      ParseLeadingZeros(zeros, s[..|s| - 1]);
    } else if zeros != [] {
      assert zeros + s == zeros && zeros[..|zeros| - 1] + [] == zeros[..|zeros| - 1];
      ParseLeadingZeros(zeros[..|zeros| - 1], []);
    }
  }

  lemma ParsePadded(n: nat)
    ensures AllDigits(Padded(n)) && Parse(Padded(n)) == n
  {
    ParseDecimal(n);
    var s := Decimal(n);
    hide Decimal, Parse;
    if |s| < 4 {
      ParseLeadingZeros(seq(4 - |s|, _ => '0'), s);
    }
  }

  lemma LastDash(head: string, n: nat)
    ensures var s := head + "-" + Padded(n);
            s[|head|] == '-' && forall i :: |head| < i < |s| ==> s[i] != '-'
  {
    ParsePadded(n);
  }

  lemma OneDigitMore(n: nat)
    ensures |Decimal(n)| >= 1 && (n < 10 ==> Decimal(n) == [Digit(n)])
    ensures n >= 10 ==> |Decimal(n)| == |Decimal(n / 10)| + 1
  {}

  lemma DecimalLength(n: nat)
    ensures |Decimal(n)| == 1 <==> n < 10
    ensures |Decimal(n)| == 2 <==> 10 <= n < 100
    ensures |Decimal(n)| == 3 <==> 100 <= n < 1000
    ensures |Decimal(n)| >= 1
  {
    OneDigitMore(n);
    OneDigitMore(n / 10);
    OneDigitMore(n / 10 / 10);
    OneDigitMore(n / 10 / 10 / 10);
    hide Decimal;
  }

  /** Ids are printed with at least four digits, and with no more than it takes beyond that. */
  lemma PaddedDigits(n: nat)
    ensures n < 10 ==> Padded(n) == "000" + [Digit(n)]
    ensures 10 <= n < 100 ==> Padded(n) == "00" + Decimal(n)
    ensures 100 <= n < 1000 ==> Padded(n) == "0" + Decimal(n)
    ensures n >= 1000 ==> Padded(n) == Decimal(n)
  {
    DecimalLength(n);
    OneDigitMore(n);
    hide Decimal, Digit;
    assert seq(3, _ => '0') == "000" && seq(2, _ => '0') == "00" && seq(1, _ => '0') == "0";
  }

  lemma FirstBatchId()
    ensures BatchId("reactor", 1) == "BATCH-reactor-0001"
  {
    PaddedDigits(1);
  }

  /** Different devices and numbers never share a batch id, whatever the device names contain. */
  lemma BatchIdInjective(d: string, m: nat, e: string, n: nat)
    requires BatchId(d, m) == BatchId(e, n)
    ensures d == e && m == n
  {
    hide Padded;
    LastDash("BATCH-" + d, m);
    LastDash("BATCH-" + e, n);
    var s := BatchId(d, m);
    assert |d| == |e|;
    assert d == s[6..6 + |d|] && e == s[6..6 + |d|];
    assert s[7 + |d|..] == Padded(m) && s[7 + |d|..] == Padded(n);
    ParsePadded(m);
    ParsePadded(n);
  }

  // ---- The effect of each statement on the rows ----

  predicate HasId(rows: Table, id: string) {
    exists i :: 0 <= i < |rows| && rows[i].batchId == id
  }

  /** The UNIQUE constraint on the batch id turns a second insert into a no-op. */
  function Created(rows: Table, id: string, device: string, now: int): Table {
    if HasId(rows, id) then rows else rows + [Record(id, device, Running, now, None, None)]
  }

  /** The batch id of the newest running record of a device. */
  function NewestRunning(rows: Table, device: string): Option<string> {
    if rows == [] then None else
      var last := rows[|rows| - 1];
      if last.device == device && last.status == Running then Some(last.batchId)
      else NewestRunning(rows[..|rows| - 1], device)
  }

  function Touched(r: Record, id: string, status: Status, notes: Option<string>, now: int): Record {
    if r.batchId != id then r
    else r.(status := status,
            endTime := if status == Running then r.endTime else Some(now),
            notes := if notes.Some? then notes else r.notes)
  }

  function Updated(rows: Table, id: string, status: Status, notes: Option<string>, now: int): Table {
    seq(|rows|, i requires 0 <= i < |rows| => Touched(rows[i], id, status, notes, now))
  }

  /**
   * An update sets the status of the records with the id; a final status dates the end, any other leaves it; notes are
   * replaced if there are new ones. Records with other ids stay as they are.
   */
  lemma UpdateIsExact(rows: Table, id: string, status: Status, notes: Option<string>, now: int, i: nat)
    requires i < |rows|
    ensures var (a, b) := (rows[i], Updated(rows, id, status, notes, now)[i]);
            && (a.batchId != id ==> b == a)
            && (a.batchId == id ==>
                  && b.status == status && b.batchId == id && b.device == a.device && b.startTime == a.startTime
                  && (status == Completed || status == Aborted ==> b.endTime == Some(now))
                  && (status == Running ==> b.endTime == a.endTime)
                  && (notes.Some? ==> b.notes == notes) && (notes.None? ==> b.notes == a.notes))
  {}

  /** No two records share a batch id. */
  predicate UniqueIds(rows: Table) {
    forall i, j :: 0 <= i < j < |rows| ==> rows[i].batchId != rows[j].batchId
  }

  /** The UNIQUE constraint: inserting keeps ids unique, and a second insert of an id changes nothing. */
  lemma CreatedKeepsUnique(rows: Table, id: string, device: string, now: int)
    requires UniqueIds(rows)
    ensures UniqueIds(Created(rows, id, device, now))
    ensures (exists i :: 0 <= i < |rows| && rows[i].batchId == id) ==> Created(rows, id, device, now) == rows
    ensures (forall i :: 0 <= i < |rows| ==> rows[i].batchId != id) ==>
              Created(rows, id, device, now) == rows + [Record(id, device, Running, now, None, None)]
  {}

  class BatchTable {
    var rows: Table

    constructor ()
      ensures rows == []
    {
      rows := [];
    }

    method CreateBatch(id: string, device: string, now: int) returns (row: Option<nat>)
      modifies this
      ensures rows == Created(old(rows), id, device, now)
      ensures row == if HasId(old(rows), id) then None else Some(|old(rows)|)
    {
      if HasId(rows, id) {
        return None;
      }
      row := Some(|rows|);
      rows := rows + [Record(id, device, Running, now, None, None)];
    }

    method GetRunningBatch(device: string) returns (id: Option<string>)
      ensures id == NewestRunning(rows, device)
    {
      var i := |rows|;
      assert rows[..i] == rows;
      while i > 0
        invariant 0 <= i <= |rows| && NewestRunning(rows[..i], device) == NewestRunning(rows, device)
      {
        i := i - 1;
        assert rows[..i + 1][..i] == rows[..i];
        if rows[i].device == device && rows[i].status == Running {
          return Some(rows[i].batchId);
        }
      }
      id := None;
    }

    method UpdateBatchStatus(id: string, status: Status, notes: Option<string>, now: int)
      modifies this
      ensures rows == Updated(old(rows), id, status, notes, now)
    {
      var was := rows;
      rows := seq(|was|, i requires 0 <= i < |was| => Touched(was[i], id, status, notes, now));
    }
  }

  // ---- The tracker ----

  /** What a poller keeps between polls, across reconnects. */
  datatype Tracker = Tracker(prev: Option<nat>, counter: nat)

  const EMERGENCY := "Emergency stop"

  /** The record of `device` that is running, if any, is given its final status. */
  function Closed(rows: Table, device: string, status: Status, notes: Option<string>, now: int): Table {
    match NewestRunning(rows, device)
    case Some(id) => Updated(rows, id, status, notes, now)
    case None => rows
  }

  function Observed(device: string, t: Tracker, rows: Table, code: nat, now: int): (Tracker, Table) {
    var prev := t.prev.GetOr(code);
    if prev == IDLE && code == HEATING then
      (Tracker(Some(code), t.counter + 1), Created(rows, BatchId(device, t.counter + 1), device, now))
    else if prev != COMPLETE && code == COMPLETE then
      (Tracker(Some(code), t.counter), Closed(rows, device, Completed, None, now))
    else if prev != IDLE && prev != COMPLETE && code == IDLE then
      (Tracker(Some(code), t.counter), Closed(rows, device, Aborted, Some(EMERGENCY), now))
    else (Tracker(Some(code), t.counter), rows)
  }

  class BatchTracker {
    const device: string
    var prevBatchState: Option<nat>
    var batchCounter: nat

    function State(): Tracker
      reads this
    {
      Tracker(prevBatchState, batchCounter)
    }

    constructor (device: string)
      ensures this.device == device && State() == Tracker(None, 0)
    {
      this.device := device;
      prevBatchState := None;
      batchCounter := 0;
    }

    /** One successful read that includes the batch state register. */
    method Observe(db: BatchTable, code: nat, now: int)
      modifies this, db
      ensures (State(), db.rows) == Observed(device, old(State()), old(db.rows), code, now)
    {
      var prev := prevBatchState.GetOr(code);
      if prev == IDLE && code == HEATING {
        batchCounter := batchCounter + 1;
        var _ := db.CreateBatch(BatchId(device, batchCounter), device, now);
      }
      if prev != COMPLETE && code == COMPLETE {
        var running := db.GetRunningBatch(device);
        if running.Some? {
          db.UpdateBatchStatus(running.value, Completed, None, now);
        }
      }
      if prev != IDLE && prev != COMPLETE && code == IDLE {
        var running := db.GetRunningBatch(device);
        if running.Some? {
          db.UpdateBatchStatus(running.value, Aborted, Some(EMERGENCY), now);
        }
      }
      prevBatchState := Some(code);
    }
  }

  // ---- The offline specification: what the records should be, read off the observations ----

  datatype Observation = Observation(code: nat, now: int)

  predicate StartsAt(obs: seq<Observation>, p: int) {
    1 <= p < |obs| && obs[p - 1].code == IDLE && obs[p].code == HEATING
  }

  /** The positions at which a batch starts, in order. */
  function Starts(obs: seq<Observation>): seq<nat> {
    if obs == [] then [] else
      var last := |obs| - 1;
      Starts(obs[..last]) + (if StartsAt(obs, last) then [last] else [])
  }

  predicate Ends(o: Observation) {
    o.code == IDLE || o.code == COMPLETE
  }

  /** The record of the n-th batch, started at p, as it stands at position q and later. */
  function Outcome(device: string, n: nat, obs: seq<Observation>, p: nat, q: nat): Record
    requires p < q <= |obs|
    decreases |obs| - q
  {
    if q == |obs| then Record(BatchId(device, n), device, Running, obs[p].now, None, None)
    else if obs[q].code == COMPLETE then
      Record(BatchId(device, n), device, Completed, obs[p].now, Some(obs[q].now), None)
    else if obs[q].code == IDLE then
      Record(BatchId(device, n), device, Aborted, obs[p].now, Some(obs[q].now), Some(EMERGENCY))
    else Outcome(device, n, obs, p, q + 1)
  }

  lemma {:induction false} StartsInRange(obs: seq<Observation>)
    ensures forall i :: 0 <= i < |Starts(obs)| ==> StartsAt(obs, Starts(obs)[i])
    ensures forall i, j :: 0 <= i < j < |Starts(obs)| ==> Starts(obs)[i] < Starts(obs)[j]
  {
    if obs != [] {
      var prefix := obs[..|obs| - 1];
      StartsInRange(prefix);
      assert forall p :: StartsAt(prefix, p) ==> StartsAt(obs, p);
    }
  }

  lemma {:induction false} StartsComplete(obs: seq<Observation>, p: nat)
    requires StartsAt(obs, p)
    ensures p in Starts(obs)
  {
    if p < |obs| - 1 {
      StartsComplete(obs[..|obs| - 1], p);
    }
  }

  /** One record per start: completed or aborted by whichever of COMPLETE and IDLE comes first, else running. */
  function Expected(device: string, obs: seq<Observation>): Table {
    StartsInRange(obs);
    seq(|Starts(obs)|, i requires 0 <= i < |Starts(obs)| =>
      Outcome(device, i + 1, obs, Starts(obs)[i], Starts(obs)[i] + 1))
  }

  // ---- Runs: the polls of many devices, in the order in which they happened ----

  datatype Poll = Poll(device: string, code: nat, now: int)

  datatype World = World(trackers: map<string, Tracker>, rows: Table)

  function TrackerOf(w: World, device: string): Tracker {
    if device in w.trackers then w.trackers[device] else Tracker(None, 0)
  }

  function Step(w: World, poll: Poll): World {
    var (t, rows) := Observed(poll.device, TrackerOf(w, poll.device), w.rows, poll.code, poll.now);
    World(w.trackers[poll.device := t], rows)
  }

  function After(polls: seq<Poll>): World {
    if polls == [] then World(map[], []) else Step(After(polls[..|polls| - 1]), polls[|polls| - 1])
  }

  function SeenBy(polls: seq<Poll>, device: string): seq<Observation> {
    if polls == [] then [] else
      var poll := polls[|polls| - 1];
      SeenBy(polls[..|polls| - 1], device) + (if poll.device == device then [Observation(poll.code, poll.now)] else [])
  }

  /** The records of one device, oldest first. */
  function RowsOf(rows: Table, device: string): Table {
    if rows == [] then [] else
      RowsOf(rows[..|rows| - 1], device) + (if rows[|rows| - 1].device == device then [rows[|rows| - 1]] else [])
  }

  // -- what the table operations do to the records of one device --

  lemma {:induction false} NewestRunningOf(rows: Table, device: string)
    ensures NewestRunning(RowsOf(rows, device), device) == NewestRunning(rows, device)
  {
    if rows != [] {
      var prefix, last := rows[..|rows| - 1], rows[|rows| - 1];
      NewestRunningOf(prefix, device);
      if last.device == device {
        assert RowsOf(rows, device)[..|RowsOf(rows, device)| - 1] == RowsOf(prefix, device);
      } else {
        assert RowsOf(rows, device) == RowsOf(prefix, device);
      }
    }
  }

  lemma {:induction false} UpdatedOf(rows: Table, device: string, id: string, status: Status, notes: Option<string>,
                                     now: int)
    ensures RowsOf(Updated(rows, id, status, notes, now), device)
         == Updated(RowsOf(rows, device), id, status, notes, now)
  {
    if rows != [] {
      var prefix := rows[..|rows| - 1];
      UpdatedOf(prefix, device, id, status, notes, now);
      assert Updated(rows, id, status, notes, now)[..|rows| - 1] == Updated(prefix, id, status, notes, now);
    }
  }

  lemma {:induction false} RowIsListed(rows: Table, i: nat)
    requires i < |rows|
    ensures rows[i] in RowsOf(rows, rows[i].device)
  {
    if i < |rows| - 1 {
      RowIsListed(rows[..|rows| - 1], i);
    }
  }

  lemma {:induction false} ListedIsRow(rows: Table, device: string)
    ensures forall i :: 0 <= i < |RowsOf(rows, device)| ==>
              RowsOf(rows, device)[i] in rows && RowsOf(rows, device)[i].device == device
  {
    if rows != [] {
      ListedIsRow(rows[..|rows| - 1], device);
    }
  }

  // -- how the expected records change with one more observation --

  /** An observation closes the record of a batch that is still open. */
  function Finished(r: Record, o: Observation): Record {
    Touched(r, r.batchId, if o.code == COMPLETE then Completed else Aborted,
            if o.code == COMPLETE then None else Some(EMERGENCY), o.now)
  }

  predicate IsOpen(obs: seq<Observation>, p: nat) {
    p < |obs| && forall q :: p < q < |obs| ==> !Ends(obs[q])
  }

  lemma {:induction false} OutcomeStep(device: string, n: nat, obs: seq<Observation>, o: Observation, p: nat, q: nat)
    requires p < q <= |obs|
    requires forall r :: p < r < q ==> !Ends(obs[r])
    ensures var before, after := Outcome(device, n, obs, p, q), Outcome(device, n, obs + [o], p, q);
            && before.batchId == BatchId(device, n) && before.device == device
            && (before.status == Running <==> IsOpen(obs, p))
            && after == (if IsOpen(obs, p) && Ends(o) then Finished(before, o) else before)
    decreases |obs| - q
  {
    var more := obs + [o];
    if q < |obs| {
      assert more[q] == obs[q];
      if !Ends(obs[q]) {
        OutcomeStep(device, n, obs, o, p, q + 1);
      }
    } else {
      assert Outcome(device, n, more, p, q) ==
             if Ends(o) then Outcome(device, n, more, p, q) else Outcome(device, n, more, p, q + 1);
    }
  }

  /** The first observation after p that ends a batch. */
  predicate EndsFirst(obs: seq<Observation>, p: nat, r: int) {
    p < r < |obs| && Ends(obs[r]) && forall m :: p < m < r ==> !Ends(obs[m])
  }

  /** The status of a record says which observation ended the batch, if one did. */
  lemma {:induction false} OutcomeStatus(device: string, n: nat, obs: seq<Observation>, p: nat, q: nat, r: int)
    requires p < q <= |obs| && forall m :: p < m < q ==> !Ends(obs[m])
    requires EndsFirst(obs, p, r) || (r == -1 && forall m :: p < m < |obs| ==> !Ends(obs[m]))
    ensures Outcome(device, n, obs, p, q).status
         == if r == -1 then Running else if obs[r].code == COMPLETE then Completed else Aborted
    decreases |obs| - q
  {
    if q < |obs| && !Ends(obs[q]) {
      OutcomeStatus(device, n, obs, p, q + 1, r);
    } else if q < |obs| {
      assert r == q;
    }
  }

  lemma ExpectedLength(device: string, obs: seq<Observation>)
    ensures |Expected(device, obs)| == |Starts(obs)|
  {}

  lemma ExpectedIs(device: string, obs: seq<Observation>, i: nat)
    requires i < |Starts(obs)|
    ensures Starts(obs)[i] < |obs| && |Expected(device, obs)| == |Starts(obs)|
    ensures Expected(device, obs)[i] == Outcome(device, i + 1, obs, Starts(obs)[i], Starts(obs)[i] + 1)
  {
    StartsInRange(obs);
    assert StartsAt(obs, Starts(obs)[i]);
  }

  lemma ExpectedShape(device: string, obs: seq<Observation>)
    ensures |Expected(device, obs)| == |Starts(obs)|
    ensures forall i :: 0 <= i < |Starts(obs)| ==>
              && Starts(obs)[i] < |obs|
              && Expected(device, obs)[i].batchId == BatchId(device, i + 1)
              && Expected(device, obs)[i].device == device
              && (Expected(device, obs)[i].status == Running <==> IsOpen(obs, Starts(obs)[i]))
  {
    StartsInRange(obs);
    ExpectedLength(device, obs);
    forall i | 0 <= i < |Starts(obs)|
      ensures var r := Expected(device, obs)[i];
              && r.batchId == BatchId(device, i + 1) && r.device == device
              && (r.status == Running <==> IsOpen(obs, Starts(obs)[i]))
    {
      ExpectedIs(device, obs, i);
      hide Expected, Outcome, BatchId, IsOpen, Starts;
      OutcomeStep(device, i + 1, obs, Observation(0, 0), Starts(obs)[i], Starts(obs)[i] + 1);
    }
  }

  /** A new batch starts after an IDLE, and that ended every earlier one. */
  lemma OnlyLastOpen(obs: seq<Observation>)
    ensures forall i :: 0 <= i < |Starts(obs)| - 1 ==> !IsOpen(obs, Starts(obs)[i])
    ensures forall i :: 0 <= i < |Starts(obs)| && obs != [] && Ends(obs[|obs| - 1]) ==> !IsOpen(obs, Starts(obs)[i])
  {
    StartsInRange(obs);
    forall i | 0 <= i < |Starts(obs)| - 1
      ensures !IsOpen(obs, Starts(obs)[i])
    {
      var p, q := Starts(obs)[i], Starts(obs)[i + 1];
      assert StartsAt(obs, p) && StartsAt(obs, q);
      assert p < q - 1 && Ends(obs[q - 1]);
    }
    forall i | 0 <= i < |Starts(obs)| && Ends(obs[|obs| - 1])
      ensures !IsOpen(obs, Starts(obs)[i])
    {
      assert StartsAt(obs, Starts(obs)[i]);
    }
  }

  /** Some batch is still running; it is the last one. */
  predicate LastOpen(obs: seq<Observation>) {
    Starts(obs) != [] && IsOpen(obs, Starts(obs)[|Starts(obs)| - 1])
  }

  lemma {:induction false} NoneRunning(rows: Table, device: string)
    requires forall i :: 0 <= i < |rows| ==> rows[i].status != Running
    ensures NewestRunning(rows, device) == None
  {
    if rows != [] {
      NoneRunning(rows[..|rows| - 1], device);
    }
  }

  lemma LastRunning(rows: Table, device: string)
    requires rows != [] && rows[|rows| - 1].device == device && rows[|rows| - 1].status == Running
    ensures NewestRunning(rows, device) == Some(rows[|rows| - 1].batchId)
  {}

  lemma RunningIsLast(device: string, obs: seq<Observation>)
    ensures NewestRunning(Expected(device, obs), device)
         == if LastOpen(obs) then Some(BatchId(device, |Starts(obs)|)) else None
  {
    hide Expected, NewestRunning, Starts, BatchId, IsOpen;
    ExpectedShape(device, obs);
    OnlyLastOpen(obs);
    if LastOpen(obs) {
      LastRunning(Expected(device, obs), device);
    } else {
      NoneRunning(Expected(device, obs), device);
    }
  }

  lemma StartsStep(obs: seq<Observation>, o: Observation)
    ensures Starts(obs + [o]) == Starts(obs) + if StartsAt(obs + [o], |obs|) then [|obs|] else []
  {
    assert (obs + [o])[..|obs|] == obs;
  }

  function FinishedAll(rows: Table, id: string, o: Observation): Table {
    Updated(rows, id, if o.code == COMPLETE then Completed else Aborted,
            if o.code == COMPLETE then None else Some(EMERGENCY), o.now)
  }

  lemma {:induction false} ExpectedAt(device: string, obs: seq<Observation>, o: Observation, i: nat)
    requires i < |Starts(obs)|
    ensures i < |Expected(device, obs)| && i < |Expected(device, obs + [o])| && Starts(obs)[i] < |obs|
    ensures Expected(device, obs + [o])[i]
         == if IsOpen(obs, Starts(obs)[i]) && Ends(o) then Finished(Expected(device, obs)[i], o)
            else Expected(device, obs)[i]
  {
    hide *;
    StartsStep(obs, o);
    ExpectedIs(device, obs, i);
    ExpectedIs(device, obs + [o], i);
    OutcomeStep(device, i + 1, obs, o, Starts(obs)[i], Starts(obs)[i] + 1);
  }

  lemma ExpectedNew(device: string, obs: seq<Observation>, o: Observation)
    requires StartsAt(obs + [o], |obs|)
    ensures |Starts(obs + [o])| == |Starts(obs)| + 1
    ensures Expected(device, obs + [o])[|Starts(obs)|]
         == Record(BatchId(device, |Starts(obs)| + 1), device, Running, o.now, None, None)
  {
    StartsStep(obs, o);
  }

  lemma FinishLast(rows: Table, after: Table, id: string, o: Observation)
    requires |after| == |rows| > 0
    requires rows[|rows| - 1].batchId == id && after[|rows| - 1] == Finished(rows[|rows| - 1], o)
    requires forall i :: 0 <= i < |rows| - 1 ==> rows[i].batchId != id && after[i] == rows[i]
    ensures after == FinishedAll(rows, id, o)
  {}

  lemma OneMore(device: string, obs: seq<Observation>, o: Observation)
    ensures |Expected(device, obs)| == |Starts(obs)|
    ensures |Expected(device, obs + [o])| == |Starts(obs)| + if StartsAt(obs + [o], |obs|) then 1 else 0
  {
    ExpectedLength(device, obs);
    ExpectedLength(device, obs + [o]);
    StartsStep(obs, o);
    hide Expected, Starts, StartsAt;
  }

  /** The record of a batch that is not the last one is closed already. */
  lemma EarlierUnchanged(device: string, obs: seq<Observation>, o: Observation, i: nat)
    requires i < |Starts(obs)| - 1
    ensures i < |Expected(device, obs)| && i < |Expected(device, obs + [o])|
    ensures Expected(device, obs + [o])[i] == Expected(device, obs)[i]
    ensures Expected(device, obs)[i].batchId != BatchId(device, |Starts(obs)|)
  {
    OnlyLastOpen(obs);
    ExpectedShape(device, obs);
    hide Expected, Starts, BatchId, IsOpen, Finished;
    ExpectedAt(device, obs, o, i);
    if BatchId(device, i + 1) == BatchId(device, |Starts(obs)|) {
      BatchIdInjective(device, i + 1, device, |Starts(obs)|);
    }
  }

  lemma {:induction false} LastChanges(device: string, obs: seq<Observation>, o: Observation)
    requires Starts(obs) != []
    ensures var n := |Starts(obs)|;
            && n == |Expected(device, obs)| <= |Expected(device, obs + [o])|
            && Expected(device, obs)[n - 1].batchId == BatchId(device, n)
            && Expected(device, obs + [o])[n - 1]
               == if LastOpen(obs) && Ends(o) then Finished(Expected(device, obs)[n - 1], o)
                  else Expected(device, obs)[n - 1]
  {
    OneMore(device, obs, o);
    ExpectedShape(device, obs);
    hide Expected, Starts, BatchId, IsOpen, Finished, StartsAt;
    ExpectedAt(device, obs, o, |Starts(obs)| - 1);
  }

  /** The n-th record changes only if its batch is open and the observation ends it. */
  lemma {:induction false} ExpectedPointwise(device: string, obs: seq<Observation>, o: Observation)
    ensures var before, after, n := Expected(device, obs), Expected(device, obs + [o]), |Starts(obs)|;
            && |before| == n && |after| == (if StartsAt(obs + [o], |obs|) then n + 1 else n)
            && (forall i :: 0 <= i < n - 1 ==> after[i] == before[i] && before[i].batchId != BatchId(device, n))
            && (n > 0 ==> after[n - 1] == (if LastOpen(obs) && Ends(o) then Finished(before[n - 1], o)
                                           else before[n - 1]))
            && (n > 0 ==> before[n - 1].batchId == BatchId(device, n))
  {
    OneMore(device, obs, o);
    hide *;
    if Starts(obs) != [] {
      LastChanges(device, obs, o);
    }
    forall i | 0 <= i < |Starts(obs)| - 1
      ensures Expected(device, obs + [o])[i] == Expected(device, obs)[i]
      ensures Expected(device, obs)[i].batchId != BatchId(device, |Starts(obs)|)
    {
      EarlierUnchanged(device, obs, o, i);
    }
  }

  lemma ExpectedStep(device: string, obs: seq<Observation>, o: Observation)
    ensures var before, after, n := Expected(device, obs), Expected(device, obs + [o]), |Starts(obs)|;
            after ==
              if StartsAt(obs + [o], |obs|) then
                before + [Record(BatchId(device, n + 1), device, Running, o.now, None, None)]
              else if LastOpen(obs) && Ends(o) then FinishedAll(before, BatchId(device, n), o)
              else before
  {
    var before, after, n := Expected(device, obs), Expected(device, obs + [o]), |Starts(obs)|;
    ExpectedPointwise(device, obs, o);
    hide Expected, Starts, BatchId, IsOpen, Finished, FinishedAll;
    if StartsAt(obs + [o], |obs|) {
      assert !Ends(o);
      ExpectedNew(device, obs, o);
    } else if LastOpen(obs) && Ends(o) {
      FinishLast(before, after, BatchId(device, n), o);
    }
  }

  // -- the tracker keeps the records equal to the expected ones --

  ghost predicate Matches(w: World, device: string, obs: seq<Observation>) {
    && RowsOf(w.rows, device) == Expected(device, obs)
    && TrackerOf(w, device) == Tracker(if obs == [] then None else Some(obs[|obs| - 1].code), |Starts(obs)|)
  }

  lemma ListedId(rows: Table, device: string, obs: seq<Observation>, r: Record) returns (k: nat)
    requires RowsOf(rows, device) == Expected(device, obs) && r in RowsOf(rows, device)
    ensures k < |Starts(obs)| && r.batchId == BatchId(device, k + 1)
  {
    ExpectedShape(device, obs);
    k :| 0 <= k < |Expected(device, obs)| && Expected(device, obs)[k] == r;
  }

  /** No listed record has the next id of some device. */
  lemma NotTheNextId(w: World, d: string, theirs: seq<Observation>, device: string, mine: seq<Observation>, r: Record)
    requires Matches(w, d, theirs) && Matches(w, device, mine) && r in RowsOf(w.rows, d)
    ensures r.batchId != BatchId(device, TrackerOf(w, device).counter + 1)
  {
    var n := TrackerOf(w, device).counter;
    var k := ListedId(w.rows, d, theirs, r);
    hide BatchId, RowsOf, Expected;
    if BatchId(d, k + 1) == BatchId(device, n + 1) {
      BatchIdInjective(d, k + 1, device, n + 1);
    }
  }

  lemma FreeIfMatching(w: World, polls: seq<Poll>, device: string)
    requires forall d :: Matches(w, d, SeenBy(polls, d))
    ensures !HasId(w.rows, BatchId(device, TrackerOf(w, device).counter + 1))
  {
    hide SeenBy, TrackerOf, BatchId, RowsOf, Matches;
    forall i | 0 <= i < |w.rows|
      ensures w.rows[i].batchId != BatchId(device, TrackerOf(w, device).counter + 1)
    {
      var d := w.rows[i].device;
      RowIsListed(w.rows, i);
      NotTheNextId(w, d, SeenBy(polls, d), device, SeenBy(polls, device), w.rows[i]);
    }
  }

  lemma OthersUntouched(rows: Table, device: string, obs: seq<Observation>, other: string, n: nat, status: Status,
                        notes: Option<string>, now: int)
    requires RowsOf(rows, device) == Expected(device, obs) && other != device
    ensures RowsOf(Updated(rows, BatchId(other, n), status, notes, now), device) == RowsOf(rows, device)
  {
    UpdatedOf(rows, device, BatchId(other, n), status, notes, now);
    ExpectedShape(device, obs);
    forall i | 0 <= i < |RowsOf(rows, device)|
      ensures RowsOf(rows, device)[i].batchId != BatchId(other, n)
    {
      if BatchId(device, i + 1) == BatchId(other, n) {
        BatchIdInjective(device, i + 1, other, n);
      }
    }
  }

  lemma AppendedRow(rows: Table, r: Record, device: string)
    ensures RowsOf(rows + [r], device) == RowsOf(rows, device) + if r.device == device then [r] else []
  {
    assert (rows + [r])[..|rows|] == rows;
  }

  /** Seen from the observations: a poll starts a batch, ends the one that is running, or leaves the records alone. */
  function RowsAfter(rows: Table, device: string, obs: seq<Observation>, o: Observation): Table {
    var n := |Starts(obs)|;
    if StartsAt(obs + [o], |obs|) then Created(rows, BatchId(device, n + 1), device, o.now)
    else if LastOpen(obs) && Ends(o) then FinishedAll(rows, BatchId(device, n), o)
    else rows
  }

  lemma LastIsOver(obs: seq<Observation>)
    requires obs == [] || Ends(obs[|obs| - 1])
    ensures !LastOpen(obs)
  {
    OnlyLastOpen(obs);
  }

  lemma LastStarts(obs: seq<Observation>, o: Observation)
    ensures StartsAt(obs + [o], |obs|) <==> obs != [] && obs[|obs| - 1].code == IDLE && o.code == HEATING
  {}

  lemma ClosedMeans(device: string, rows: Table, obs: seq<Observation>, o: Observation)
    requires NewestRunning(rows, device) == if LastOpen(obs) then Some(BatchId(device, |Starts(obs)|)) else None
    ensures var closed := if LastOpen(obs) then FinishedAll(rows, BatchId(device, |Starts(obs)|), o) else rows;
            && (o.code == COMPLETE ==> Closed(rows, device, Completed, None, o.now) == closed)
            && (o.code == IDLE ==> Closed(rows, device, Aborted, Some(EMERGENCY), o.now) == closed)
  {
    hide Starts, LastOpen, BatchId, NewestRunning, Updated;
  }

  /** The tracker's three rules, once it is known what they would find. */
  lemma ObservedCases(device: string, t: Tracker, rows: Table, code: nat, now: int, open: bool, closed: Table)
    requires t.prev.None? || t.prev.value == IDLE || t.prev.value == COMPLETE ==> !open
    requires !open ==> closed == rows
    requires code == COMPLETE ==> Closed(rows, device, Completed, None, now) == closed
    requires code == IDLE ==> Closed(rows, device, Aborted, Some(EMERGENCY), now) == closed
    ensures var starts := t.prev == Some(IDLE) && code == HEATING;
            Observed(device, t, rows, code, now) ==
              (Tracker(Some(code), t.counter + if starts then 1 else 0),
               if starts then Created(rows, BatchId(device, t.counter + 1), device, now)
               else if code == COMPLETE || code == IDLE then closed else rows)
  {
    hide Closed, Created, BatchId;
  }

  lemma StartsCount(obs: seq<Observation>, o: Observation)
    ensures |Starts(obs + [o])| == |Starts(obs)| + if StartsAt(obs + [o], |obs|) then 1 else 0
  {
    hide Starts, StartsAt;
    StartsStep(obs, o);
  }

  /** The records with the running one, if there is one, ended by the observation. */
  function EndedBy(rows: Table, device: string, obs: seq<Observation>, o: Observation): Table {
    if LastOpen(obs) then FinishedAll(rows, BatchId(device, |Starts(obs)|), o) else rows
  }

  lemma RowsAfterCases(rows: Table, device: string, obs: seq<Observation>, o: Observation, starts: bool)
    requires starts == StartsAt(obs + [o], |obs|)
    ensures RowsAfter(rows, device, obs, o)
         == if starts then Created(rows, BatchId(device, |Starts(obs)| + 1), device, o.now)
            else if o.code == COMPLETE || o.code == IDLE then EndedBy(rows, device, obs, o) else rows
  {
    hide Starts, StartsAt, LastOpen, BatchId, FinishedAll, Created;
  }

  function LastCode(obs: seq<Observation>): Option<nat> {
    if obs == [] then None else Some(obs[|obs| - 1].code)
  }

  /** The tracker's view of what was observed last. */
  lemma LastCodeMeans(obs: seq<Observation>, o: Observation)
    ensures StartsAt(obs + [o], |obs|) <==> LastCode(obs) == Some(IDLE) && o.code == HEATING
    ensures LastCode(obs).None? || LastCode(obs).value == IDLE || LastCode(obs).value == COMPLETE ==> !LastOpen(obs)
  {
    LastStarts(obs, o);
    if obs == [] || Ends(obs[|obs| - 1]) {
      LastIsOver(obs);
    }
    hide StartsAt, LastOpen;
  }

  lemma ObservedMeans(device: string, rows: Table, obs: seq<Observation>, o: Observation)
    requires NewestRunning(rows, device) == if LastOpen(obs) then Some(BatchId(device, |Starts(obs)|)) else None
    ensures Observed(device, Tracker(LastCode(obs), |Starts(obs)|), rows, o.code, o.now)
         == (Tracker(Some(o.code), |Starts(obs + [o])|), RowsAfter(rows, device, obs, o))
  {
    StartsCount(obs, o);
    LastCodeMeans(obs, o);
    ClosedMeans(device, rows, obs, o);
    RowsAfterCases(rows, device, obs, o, StartsAt(obs + [o], |obs|));
    assert EndedBy(rows, device, obs, o)
        == if LastOpen(obs) then FinishedAll(rows, BatchId(device, |Starts(obs)|), o) else rows;
    hide *;
    ObservedCases(device, Tracker(LastCode(obs), |Starts(obs)|), rows, o.code, o.now, LastOpen(obs),
                  EndedBy(rows, device, obs, o));
  }

  lemma PollMeans(w: World, obs: seq<Observation>, poll: Poll)
    requires Matches(w, poll.device, obs)
    ensures var o := Observation(poll.code, poll.now);
            Step(w, poll) == World(w.trackers[poll.device := Tracker(Some(o.code), |Starts(obs + [o])|)],
                                   RowsAfter(w.rows, poll.device, obs, o))
  {
    RunningIsLast(poll.device, obs);
    NewestRunningOf(w.rows, poll.device);
    hide Observed, Starts, RowsAfter, RowsOf, NewestRunning, LastOpen, BatchId, Expected;
    ObservedMeans(poll.device, w.rows, obs, Observation(poll.code, poll.now));
  }

  lemma RowsMatchOwn(rows: Table, device: string, obs: seq<Observation>, o: Observation)
    requires RowsOf(rows, device) == Expected(device, obs) && !HasId(rows, BatchId(device, |Starts(obs)| + 1))
    ensures RowsOf(RowsAfter(rows, device, obs, o), device) == Expected(device, obs + [o])
  {
    var n := |Starts(obs)|;
    ExpectedStep(device, obs, o);
    hide Expected, Starts, StartsAt, LastOpen, BatchId, RowsOf, Updated;
    if StartsAt(obs + [o], |obs|) {
      AppendedRow(rows, Record(BatchId(device, n + 1), device, Running, o.now, None, None), device);
    } else if LastOpen(obs) && Ends(o) {
      UpdatedOf(rows, device, BatchId(device, n), if o.code == COMPLETE then Completed else Aborted,
                if o.code == COMPLETE then None else Some(EMERGENCY), o.now);
    }
  }

  lemma RowsMatchOther(rows: Table, device: string, obs: seq<Observation>, other: string, own: seq<Observation>,
                       o: Observation)
    requires RowsOf(rows, device) == Expected(device, obs) && other != device
    ensures RowsOf(RowsAfter(rows, other, own, o), device) == Expected(device, obs)
  {
    var n := |Starts(own)|;
    hide Expected, Starts, StartsAt, LastOpen, BatchId, RowsOf, Updated;
    if StartsAt(own + [o], |own|) {
      AppendedRow(rows, Record(BatchId(other, n + 1), other, Running, o.now, None, None), device);
      assert RowsOf(rows, device) + [] == RowsOf(rows, device);
    } else if LastOpen(own) && Ends(o) {
      OthersUntouched(rows, device, obs, other, n, if o.code == COMPLETE then Completed else Aborted,
                      if o.code == COMPLETE then None else Some(EMERGENCY), o.now);
    }
  }

  lemma StepMatchesOwn(w: World, obs: seq<Observation>, poll: Poll)
    requires Matches(w, poll.device, obs)
    requires !HasId(w.rows, BatchId(poll.device, TrackerOf(w, poll.device).counter + 1))
    ensures Matches(Step(w, poll), poll.device, obs + [Observation(poll.code, poll.now)])
  {
    PollMeans(w, obs, poll);
    hide Step, RowsAfter, RowsOf, Starts, Expected, HasId, BatchId;
    RowsMatchOwn(w.rows, poll.device, obs, Observation(poll.code, poll.now));
  }

  lemma StepMatchesOther(w: World, device: string, obs: seq<Observation>, own: seq<Observation>, poll: Poll)
    requires Matches(w, device, obs) && Matches(w, poll.device, own) && device != poll.device
    ensures Matches(Step(w, poll), device, obs)
  {
    PollMeans(w, own, poll);
    hide Step, RowsAfter, RowsOf, Starts, Expected;
    RowsMatchOther(w.rows, device, obs, poll.device, own, Observation(poll.code, poll.now));
  }

  lemma {:induction false} AllMatch(polls: seq<Poll>)
    ensures forall d :: Matches(After(polls), d, SeenBy(polls, d))
  {
    if polls != [] {
      var prefix, poll := polls[..|polls| - 1], polls[|polls| - 1];
      var w := After(prefix);
      AllMatch(prefix);
      FreeIfMatching(w, prefix, poll.device);
      forall d
        ensures Matches(After(polls), d, SeenBy(polls, d))
      {
        assert After(polls) == Step(w, poll);
        assert Matches(w, d, SeenBy(prefix, d)) && Matches(w, poll.device, SeenBy(prefix, poll.device));
        if d == poll.device {
          StepMatchesOwn(w, SeenBy(prefix, d), poll);
        } else {
          StepMatchesOther(w, d, SeenBy(prefix, d), SeenBy(prefix, poll.device), poll);
          assert SeenBy(polls, d) == SeenBy(prefix, d);
        }
      }
    } else {
      forall d
        ensures Matches(After(polls), d, SeenBy(polls, d))
      {
        assert Starts(SeenBy(polls, d)) == [];
      }
    }
  }

  /** In every run the next batch id is free, so the UNIQUE constraint never rejects a batch. */
  lemma {:induction false} NextIdIsFree(polls: seq<Poll>, device: string)
    ensures !HasId(After(polls).rows, BatchId(device, TrackerOf(After(polls), device).counter + 1))
  {
    AllMatch(polls);
    FreeIfMatching(After(polls), polls, device);
  }

  /** Whatever the stream of codes and however devices interleave, the records are the expected ones. */
  lemma RecordsAsExpected(polls: seq<Poll>, device: string)
    ensures RowsOf(After(polls).rows, device) == Expected(device, SeenBy(polls, device))
  {
    AllMatch(polls);
    assert Matches(After(polls), device, SeenBy(polls, device));
  }

  // ---- Consequences ----

  /** Every observed start of a batch has its own record, with the outcome that the later observations give it. */
  lemma EveryStartIsRecorded(polls: seq<Poll>, device: string, p: nat) returns (n: nat)
    requires StartsAt(SeenBy(polls, device), p)
    ensures var (rows, obs) := (RowsOf(After(polls).rows, device), SeenBy(polls, device));
            n < |rows| && n < |Starts(obs)| && Starts(obs)[n] == p && rows[n] == Outcome(device, n + 1, obs, p, p + 1)
  {
    var obs := SeenBy(polls, device);
    hide After, SeenBy, RowsOf, Starts, StartsAt, Expected, Outcome;
    RecordsAsExpected(polls, device);
    StartsComplete(obs, p);
    n :| 0 <= n < |Starts(obs)| && Starts(obs)[n] == p;
    ExpectedIs(device, obs, n);
  }

  lemma AtMostOneRunning(polls: seq<Poll>, device: string)
    ensures var rows, obs := RowsOf(After(polls).rows, device), SeenBy(polls, device);
            && (forall i :: 0 <= i < |rows| - 1 ==> rows[i].status != Running)
            && (obs != [] && Ends(obs[|obs| - 1]) ==> forall i :: 0 <= i < |rows| ==> rows[i].status != Running)
  {
    RecordsAsExpected(polls, device);
    ExpectedShape(device, SeenBy(polls, device));
    OnlyLastOpen(SeenBy(polls, device));
  }

  lemma {:induction false} SeenByGrows(polls: seq<Poll>, n: nat, device: string)
    requires n <= |polls|
    ensures SeenBy(polls[..n], device) <= SeenBy(polls, device)
  {
    if n == |polls| {
      assert polls[..n] == polls;
    } else {
      assert polls[..|polls| - 1][..n] == polls[..n];
      SeenByGrows(polls[..|polls| - 1], n, device);
    }
  }

  lemma ClosedStays(device: string, obs: seq<Observation>, o: Observation, i: nat)
    requires i < |Expected(device, obs)| && Expected(device, obs)[i].status != Running
    ensures i < |Expected(device, obs + [o])| && Expected(device, obs + [o])[i] == Expected(device, obs)[i]
  {
    ExpectedShape(device, obs);
    hide Expected, Starts, IsOpen, BatchId;
    ExpectedAt(device, obs, o, i);
  }

  lemma {:induction false} ExpectedKeepsClosed(device: string, obs: seq<Observation>, n: nat)
    requires n <= |obs|
    ensures var before, after := Expected(device, obs[..n]), Expected(device, obs);
            |before| <= |after| &&
            forall i :: 0 <= i < |before| && before[i].status != Running ==> after[i] == before[i]
  {
    hide Expected;
    if n == |obs| {
      assert obs[..n] == obs;
    } else {
      var prefix, o := obs[..|obs| - 1], obs[|obs| - 1];
      assert prefix[..n] == obs[..n] && obs == prefix + [o];
      ExpectedKeepsClosed(device, prefix, n);
      OneMore(device, prefix, o);
      forall i: nat | i < |Expected(device, prefix)| && Expected(device, prefix)[i].status != Running
        ensures Expected(device, obs)[i] == Expected(device, prefix)[i]
      {
        ClosedStays(device, prefix, o, i);
      }
    }
  }

  /** A record that was completed or aborted once is never touched again, in any field. */
  lemma ClosedRecordsAreFrozen(polls: seq<Poll>, n: nat, device: string)
    requires n <= |polls|
    ensures var before, after := RowsOf(After(polls[..n]).rows, device), RowsOf(After(polls).rows, device);
            |before| <= |after| &&
            forall i :: 0 <= i < |before| && before[i].status != Running ==> after[i] == before[i]
  {
    RecordsAsExpected(polls[..n], device);
    RecordsAsExpected(polls, device);
    SeenByGrows(polls, n, device);
    var obs := SeenBy(polls, device);
    var k := |SeenBy(polls[..n], device)|;
    assert obs[..k] == SeenBy(polls[..n], device);
    ExpectedKeepsClosed(device, obs, k);
  }

  function Count(rows: Table, status: Status): nat {
    if rows == [] then 0 else Count(rows[..|rows| - 1], status) + (if rows[|rows| - 1].status == status then 1 else 0)
  }

  lemma {:induction false} CountSplits(rows: Table)
    ensures Count(rows, Running) + Count(rows, Completed) + Count(rows, Aborted) == |rows|
  {
    if rows != [] {
      CountSplits(rows[..|rows| - 1]);
    }
  }

  lemma {:induction false} CountNone(rows: Table, status: Status)
    requires forall i :: 0 <= i < |rows| ==> rows[i].status != status
    ensures Count(rows, status) == 0
  {
    if rows != [] {
      CountNone(rows[..|rows| - 1], status);
    }
  }

  /** Every start created one batch, and each is completed, aborted or the one running batch. */
  lemma {:induction false} BatchesAreConserved(polls: seq<Poll>, device: string)
    ensures var rows := RowsOf(After(polls).rows, device);
            && |Starts(SeenBy(polls, device))| == TrackerOf(After(polls), device).counter == |rows|
            && |rows| == Count(rows, Completed) + Count(rows, Aborted) + Count(rows, Running)
            && Count(rows, Running) <= 1
  {
    AllMatch(polls);
    assert Matches(After(polls), device, SeenBy(polls, device));
    var rows := RowsOf(After(polls).rows, device);
    hide After, SeenBy, Starts, Expected, RowsOf;
    ExpectedShape(device, SeenBy(polls, device));
    AtMostOneRunning(polls, device);
    CountSplits(rows);
    if rows != [] {
      CountNone(rows[..|rows| - 1], Running);
    }
  }
}
