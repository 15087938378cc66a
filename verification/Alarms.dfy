/** The alarm rows of `db.rs` and the alarm part of the polling loop of `protocol.rs`. */
module Alarms {
  import opened Wrappers

  datatype Threshold = Threshold(register: nat, warnHigh: Option<nat>, critHigh: Option<nat>,
                                 warnLow: Option<nat>, critLow: Option<nat>)

  /** Temperature and pressure. */
  const THRESHOLDS := [Threshold(1028, Some(85), Some(100), None, None),
                       Threshold(1029, Some(1200), Some(1400), None, None)]

  datatype Priority = Critical | High

  datatype State = Active | Acknowledged | Shelved | Cleared

  datatype Alarm = Alarm(device: string, register: nat, priority: Priority, state: State, value: nat, limit: nat,
                         ackedBy: Option<string>, ackedAt: Option<int>,
                         shelvedUntil: Option<int>, shelvedBy: Option<string>, clearedAt: Option<int>)

  datatype Key = Key(device: string, register: nat)

  /** Ids are handed out in order and rows are never deleted, so an id is a position, counted here from 0. */
  type Table = seq<Alarm>

  predicate IsOpen(a: Alarm) {
    a.state == Active || a.state == Acknowledged
  }

  predicate OpenFor(a: Alarm, key: Key) {
    IsOpen(a) && a.device == key.device && a.register == key.register
  }

  predicate ValidId(rows: Table, id: int) {
    0 <= id < |rows|
  }

  /** The ids of the open alarms of a key, oldest first. */
  function OpenIds(rows: Table, key: Key): seq<nat> {
    if rows == [] then [] else
      OpenIds(rows[..|rows| - 1], key) + (if OpenFor(rows[|rows| - 1], key) then [|rows| - 1] else [])
  }

  lemma {:induction false} OpenIdsAreOpen(rows: Table, key: Key)
    ensures forall i :: 0 <= i < |OpenIds(rows, key)| ==>
              ValidId(rows, OpenIds(rows, key)[i]) && OpenFor(rows[OpenIds(rows, key)[i]], key)
    ensures forall i, j :: 0 <= i < j < |OpenIds(rows, key)| ==> OpenIds(rows, key)[i] < OpenIds(rows, key)[j]
  {
    if rows != [] {
      OpenIdsAreOpen(rows[..|rows| - 1], key);
    }
  }

  lemma {:induction false} OpenIdsAreAll(rows: Table, key: Key)
    ensures forall id :: ValidId(rows, id) && OpenFor(rows[id], key) ==> id in OpenIds(rows, key)
  {
    if rows != [] {
      OpenIdsAreAll(rows[..|rows| - 1], key);
    }
  }

  lemma NoneOpen(rows: Table, key: Key)
    ensures OpenIds(rows, key) == [] <==> forall id :: ValidId(rows, id) ==> !OpenFor(rows[id], key)
  {
    OpenIdsAreOpen(rows, key);
    OpenIdsAreAll(rows, key);
    if OpenIds(rows, key) != [] {
      var id := OpenIds(rows, key)[0];
      assert ValidId(rows, id) && OpenFor(rows[id], key);
    }
  }

  lemma NewestIsLast(rows: Table, key: Key, id: nat)
    requires ValidId(rows, id) && OpenFor(rows[id], key)
    requires forall j :: id < j < |rows| ==> !OpenFor(rows[j], key)
    ensures OpenIds(rows, key) != [] && Newest(OpenIds(rows, key)) == Some(id)
  {
    OpenIdsAreOpen(rows, key);
    OpenIdsAreAll(rows, key);
    var ids := OpenIds(rows, key);
    var i :| 0 <= i < |ids| && ids[i] == id;
  }

  function Newest(ids: seq<nat>): Option<nat> {
    if ids == [] then None else Some(ids[|ids| - 1])
  }

  // ---- The effect of each statement on the rows ----

  function RaisedRow(key: Key, priority: Priority, value: nat, limit: nat): Alarm {
    Alarm(key.device, key.register, priority, Active, value, limit, None, None, None, None, None)
  }

  function Acked(rows: Table, id: int, user: string, now: int): Table {
    if ValidId(rows, id) && rows[id].state == Active
    then rows[id := rows[id].(state := Acknowledged, ackedBy := Some(user), ackedAt := Some(now))]
    else rows
  }

  /** Shelving lasts at most 480 minutes. */
  function ShelveEnd(now: int, minutes: nat): int {
    now + (if minutes <= 480 then minutes else 480) * 60
  }

  function ShelvedRows(rows: Table, id: int, user: string, until: int): Table {
    if ValidId(rows, id) && rows[id].state != Cleared
    then rows[id := rows[id].(state := Shelved, shelvedUntil := Some(until), shelvedBy := Some(user))]
    else rows
  }

  function ClearedRows(rows: Table, id: int, now: int): Table {
    if ValidId(rows, id) && rows[id].state != Cleared
    then rows[id := rows[id].(state := Cleared, clearedAt := Some(now))]
    else rows
  }

  predicate Expired(a: Alarm, now: int) {
    a.state == Shelved && a.shelvedUntil.Some? && a.shelvedUntil.value < now
  }

  function Unshelved(rows: Table, now: int): Table {
    seq(|rows|, i requires 0 <= i < |rows| =>
      if Expired(rows[i], now) then rows[i].(state := Active, shelvedUntil := None, shelvedBy := None) else rows[i])
  }

  class AlarmTable {
    var rows: Table

    constructor ()
      ensures rows == []
    {
      rows := [];
    }

    method RaiseAlarm(key: Key, priority: Priority, value: nat, limit: nat) returns (id: nat)
      modifies this
      ensures rows == old(rows) + [RaisedRow(key, priority, value, limit)] && id == |old(rows)|
    {
      id := |rows|;
      rows := rows + [RaisedRow(key, priority, value, limit)];
    }

    method HasActiveAlarm(key: Key) returns (has: bool)
      ensures has <==> exists id :: 0 <= id < |rows| && (rows[id].state == Active || rows[id].state == Acknowledged)
                                    && rows[id].device == key.device && rows[id].register == key.register
      ensures has <==> OpenIds(rows, key) != []
    {
      has := false;
      for i := 0 to |rows|
        invariant has <==> exists id :: 0 <= id < i && OpenFor(rows[id], key)
      {
        if OpenFor(rows[i], key) {
          has := true;
        }
      }
      NoneOpen(rows, key);
      assert has <==> exists id :: 0 <= id < |rows| && OpenFor(rows[id], key);
    }

    /** The open alarm with the greatest id. */
    method GetActiveAlarmId(key: Key) returns (found: Option<nat>)
      ensures found.None? <==> forall id :: ValidId(rows, id) ==> !OpenFor(rows[id], key)
      ensures found.Some? ==> ValidId(rows, found.value) && OpenFor(rows[found.value], key) &&
                              forall id :: found.value < id < |rows| ==> !OpenFor(rows[id], key)
      ensures found == Newest(OpenIds(rows, key))
    {
      found := None;
      var i := |rows|;
      while i > 0
        invariant 0 <= i <= |rows| && found == None
        invariant forall id :: i <= id < |rows| ==> !OpenFor(rows[id], key)
      {
        if OpenFor(rows[i - 1], key) {
          found := Some(i - 1);
          NewestIsLast(rows, key, i - 1);
          return;
        }
        i := i - 1;
      }
      NoneOpen(rows, key);
    }

    method AckAlarm(id: int, user: string, now: int) returns (ok: bool)
      modifies this
      ensures ok <==> ValidId(old(rows), id) && old(rows)[id].state == Active
      ensures rows == Acked(old(rows), id, user, now)
    {
      if !ValidId(rows, id) || rows[id].state != Active {
        return false;
      }
      rows := rows[id := rows[id].(state := Acknowledged, ackedBy := Some(user), ackedAt := Some(now))];
      ok := true;
    }

    method ShelveAlarm(id: int, user: string, minutes: nat, now: int) returns (ok: bool)
      modifies this
      ensures ok <==> ValidId(old(rows), id) && old(rows)[id].state != Cleared
      ensures rows == ShelvedRows(old(rows), id, user, ShelveEnd(now, minutes))
    {
      var mins := if minutes <= 480 then minutes else 480;
      var until := now + mins * 60;
      if !ValidId(rows, id) || rows[id].state == Cleared {
        return false;
      }
      rows := rows[id := rows[id].(state := Shelved, shelvedUntil := Some(until), shelvedBy := Some(user))];
      ok := true;
    }

    method ClearAlarm(id: int, now: int)
      modifies this
      ensures rows == ClearedRows(old(rows), id, now)
    {
      if ValidId(rows, id) && rows[id].state != Cleared {
        rows := rows[id := rows[id].(state := Cleared, clearedAt := Some(now))];
      }
    }

    method UnshelveExpired(now: int)
      modifies this
      ensures rows == Unshelved(old(rows), now)
    {
      var was := rows;
      rows := seq(|was|, i requires 0 <= i < |was| =>
        if Expired(was[i], now) then was[i].(state := Active, shelvedUntil := None, shelvedBy := None) else was[i]);
    }
  }

  // ---- One poll of one threshold ----

  /** The alarm a reading raises. The warning branch belongs to thresholds without a critical limit. */
  function ToRaise(th: Threshold, value: nat): Option<(Priority, nat)> {
    if th.critHigh.Some? then
      if value >= th.critHigh.value then Some((Critical, th.critHigh.value)) else None
    else if th.warnHigh.Some? then
      if value >= th.warnHigh.value then Some((High, th.warnHigh.value)) else None
    else None
  }

  /** Below 95 % of the high warning and above 105 % of the low one. */
  predicate Safe(th: Threshold, value: nat) {
    && (th.warnHigh.Some? ==> 100 * value < 95 * th.warnHigh.value)
    && (th.warnLow.Some? ==> 100 * value > 105 * th.warnLow.value)
  }

  function Polled(rows: Table, device: string, th: Threshold, value: nat, now: int): Table {
    var key := Key(device, th.register);
    var ids := OpenIds(rows, key);
    if ids == [] then
      match ToRaise(th, value)
      case Some((priority, limit)) => rows + [RaisedRow(key, priority, value, limit)]
      case None => rows
    else if Safe(th, value) then ClearedRows(rows, Newest(ids).value, now) else rows
  }

  /** What the loop body does with one threshold: nothing if the register was not read. */
  function PolledOne(rows: Table, device: string, regs: map<nat, nat>, th: nat, now: int): Table
    requires th < |THRESHOLDS|
  {
    var t := THRESHOLDS[th];
    if t.register in regs then Polled(rows, device, t, regs[t.register], now) else rows
  }

  function PolledAll(rows: Table, device: string, regs: map<nat, nat>, now: int, upTo: nat): Table
    requires upTo <= |THRESHOLDS|
  {
    if upTo == 0 then rows
    else PolledOne(PolledAll(rows, device, regs, now, upTo - 1), device, regs, upTo - 1, now)
  }

  /** The alarm part of a poll, with nobody else touching the table in the meantime. */
  method MonitorAlarms(db: AlarmTable, device: string, regs: map<nat, nat>, now: int)
    modifies db
    ensures db.rows == PolledAll(old(db.rows), device, regs, now, |THRESHOLDS|)
  {
    var n := 0;
    while n < |THRESHOLDS|
      invariant n <= |THRESHOLDS|
      invariant db.rows == PolledAll(old(db.rows), device, regs, now, n)
    {
      var th := THRESHOLDS[n];
      if th.register in regs {
        var val := regs[th.register];
        var key := Key(device, th.register);
        var has := db.HasActiveAlarm(key);
        if th.critHigh.Some? {
          if val >= th.critHigh.value && !has {
            var _ := db.RaiseAlarm(key, Critical, val, th.critHigh.value);
          }
        } else if th.warnHigh.Some? {
          if val >= th.warnHigh.value && !has {
            var _ := db.RaiseAlarm(key, High, val, th.warnHigh.value);
          }
        }
        if has {
          var belowWarn := th.warnHigh.None? || 100 * val < 95 * th.warnHigh.value;
          var aboveLow := th.warnLow.None? || 100 * val > 105 * th.warnLow.value;
          if belowWarn && aboveLow {
            var found := db.GetActiveAlarmId(key);
            if found.Some? {
              db.ClearAlarm(found.value, now);
            }
          }
        }
      }
      n := n + 1;
    }
  }
}
