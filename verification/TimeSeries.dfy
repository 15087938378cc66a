/** The readings table of `tsdb.rs`, whose queries compare timestamps as text. */
module TimeSeries {
  import opened Timestamps

  datatype PlcData = PlcData(device: string, register: nat, value: real, at: DateTime)

  /** A row as it is stored. */
  datatype Row = Row(device: string, register: nat, value: real, timestamp: string)

  function Stored(d: PlcData): Row {
    Row(d.device, d.register, d.value, Rfc3339(d.at))
  }

  // ---- The statements, on text ----

  /** DELETE ... WHERE timestamp < cutoff */
  function Purged(rows: seq<Row>, cutoff: string): seq<Row> {
    if rows == [] then [] else
      Purged(rows[..|rows| - 1], cutoff)
      + (if Less(rows[|rows| - 1].timestamp, cutoff) then [] else [rows[|rows| - 1]])
  }

  predicate InRange(r: Row, device: string, from: string, until: string) {
    r.device == device && !Less(r.timestamp, from) && !Less(until, r.timestamp)
  }

  /** Puts a row behind those that are as late or later. */
  function Placed(r: Row, rows: seq<Row>): seq<Row> {
    if rows == [] || Less(rows[0].timestamp, r.timestamp) then [r] + rows else [rows[0]] + Placed(r, rows[1..])
  }

  /** WHERE device_id = ? AND timestamp BETWEEN ... ORDER BY timestamp DESC */
  function Ranged(rows: seq<Row>, device: string, from: string, until: string): seq<Row> {
    if rows == [] then [] else
      var earlier, r := Ranged(rows[..|rows| - 1], device, from, until), rows[|rows| - 1];
      if InRange(r, device, from, until) then Placed(r, earlier) else earlier
  }

  /** A negative LIMIT is none. */
  function Limited(rows: seq<Row>, limit: int): seq<Row> {
    if 0 <= limit < |rows| then rows[..limit] else rows
  }

  // ---- What they mean, on instants ----

  function Kept(data: seq<PlcData>, cutoff: int): seq<PlcData> {
    if data == [] then [] else
      Kept(data[..|data| - 1], cutoff)
      + (if Instant(data[|data| - 1].at) < cutoff then [] else [data[|data| - 1]])
  }

  ghost predicate Represents(rows: seq<Row>, data: seq<PlcData>) {
    |rows| == |data| && forall i :: 0 <= i < |rows| ==> Valid(data[i].at) && rows[i] == Stored(data[i])
  }

  class SqliteTimeSeries {
    var rows: seq<Row>
    /** The readings behind the rows. */
    ghost var data: seq<PlcData>

    ghost predicate Consistent()
      reads this
    {
      Represents(rows, data)
    }

    constructor ()
      ensures Consistent() && data == []
    {
      rows, data := [], [];
    }

    method Insert(d: PlcData)
      requires Consistent() && Valid(d.at)
      modifies this
      ensures Consistent() && data == old(data) + [d]
    {
      rows := rows + [Stored(d)];
      data := data + [d];
    }

    /** Deletes exactly the readings before the cutoff instant. */
    method PurgeOlderThan(cutoff: DateTime) returns (deleted: nat)
      requires Consistent() && Valid(cutoff)
      modifies this
      ensures Consistent() && data == Kept(old(data), Instant(cutoff))
      ensures deleted == |old(data)| - |data|
    {
      var before := |rows|;
      PurgeMeansInstants(rows, data, cutoff);
      rows := Purged(rows, Rfc3339(cutoff));
      data := Kept(data, Instant(cutoff));
      deleted := before - |rows|;
    }

    /** The texts of the bounds come from the caller. */
    method QueryRange(device: string, from: string, until: string, limit: int) returns (found: seq<Row>)
      ensures found == Limited(Ranged(rows, device, from, until), limit)
    {
      var sorted := [];
      for i := 0 to |rows|
        invariant sorted == Ranged(rows[..i], device, from, until)
      {
        assert rows[..i + 1][..i] == rows[..i];
        if InRange(rows[i], device, from, until) {
          sorted := Placed(rows[i], sorted);
        }
      }
      assert rows[..|rows|] == rows;
      found := Limited(sorted, limit);
    }
  }

  lemma {:induction false} PurgeMeansInstants(rows: seq<Row>, data: seq<PlcData>, cutoff: DateTime)
    requires Represents(rows, data) && Valid(cutoff)
    ensures Represents(Purged(rows, Rfc3339(cutoff)), Kept(data, Instant(cutoff)))
    ensures |Kept(data, Instant(cutoff))| <= |data|
  {
    hide Less, Rfc3339, Instant, Valid;
    if rows != [] {
      var n := |rows| - 1;
      PurgeMeansInstants(rows[..n], data[..n], cutoff);
      TextOrderIsTimeOrder(data[n].at, cutoff);
    }
  }

  ghost predicate LatestFirst(data: seq<PlcData>) {
    forall i, j :: 0 <= i < j < |data| ==> Instant(data[i].at) >= Instant(data[j].at)
  }

  predicate Within(d: PlcData, device: string, from: DateTime, until: DateTime) {
    d.device == device && Instant(from) <= Instant(d.at) <= Instant(until)
  }

  lemma RepresentsCons(d: PlcData, rows: seq<Row>, data: seq<PlcData>)
    requires Valid(d.at) && Represents(rows, data)
    ensures Represents([Stored(d)] + rows, [d] + data)
  {
    hide Stored, Valid;
  }

  lemma RepresentsTail(rows: seq<Row>, data: seq<PlcData>)
    requires Represents(rows, data) && LatestFirst(data) && rows != []
    ensures rows[0] == Stored(data[0]) && Valid(data[0].at) && data == [data[0]] + data[1..]
    ensures Represents(rows[1..], data[1..]) && LatestFirst(data[1..])
    ensures |data| > 1 ==> Instant(data[1].at) <= Instant(data[0].at)
  {
    hide Stored, Valid, Instant;
  }

  lemma {:induction false} PlacedMeansInstants(r: Row, d: PlcData, rows: seq<Row>, data: seq<PlcData>)
      returns (placed: seq<PlcData>)
    requires Valid(d.at) && r == Stored(d) && Represents(rows, data) && LatestFirst(data)
    ensures Represents(Placed(r, rows), placed) && LatestFirst(placed)
    ensures multiset(placed) == multiset(data) + multiset{d}
    ensures placed != [] && (placed[0] == d || (data != [] && placed[0] == data[0]))
    decreases |rows|
  {
    if rows != [] {
      RepresentsTail(rows, data);
      TextOrderIsTimeOrder(data[0].at, d.at);
    } else {
      assert data == [];
    }
    hide Less, Rfc3339, Instant, Valid, Represents, LatestFirst;
    if rows == [] || Less(rows[0].timestamp, r.timestamp) {
      placed := [d] + data;
      RepresentsCons(d, rows, data);
      LatestFirstCons(d, data);
    } else {
      var rest := PlacedMeansInstants(r, d, rows[1..], data[1..]);
      placed := [data[0]] + rest;
      RepresentsCons(data[0], Placed(r, rows[1..]), rest);
      LatestFirstCons(data[0], rest);
    }
  }

  lemma LatestFirstCons(d: PlcData, rest: seq<PlcData>)
    requires LatestFirst(rest) && (rest != [] ==> Instant(rest[0].at) <= Instant(d.at))
    ensures LatestFirst([d] + rest)
  {
    hide Instant;
  }

  function Selected(data: seq<PlcData>, device: string, from: DateTime, until: DateTime): seq<PlcData> {
    if data == [] then [] else
      Selected(data[..|data| - 1], device, from, until)
      + (if Within(data[|data| - 1], device, from, until) then [data[|data| - 1]] else [])
  }

  lemma {:induction false} RangeMeansWithin(r: Row, d: PlcData, device: string, from: DateTime, until: DateTime)
    requires Valid(d.at) && r == Stored(d) && Valid(from) && Valid(until)
    ensures InRange(r, device, Rfc3339(from), Rfc3339(until)) <==> Within(d, device, from, until)
  {
    TextOrderIsTimeOrder(d.at, from);
    TextOrderIsTimeOrder(until, d.at);
    hide Less, Rfc3339, Instant, Valid;
  }

  lemma RepresentsLast(rows: seq<Row>, data: seq<PlcData>)
    requires Represents(rows, data) && rows != []
    ensures var n := |rows| - 1;
            |data| == n + 1 && Represents(rows[..n], data[..n]) && Valid(data[n].at) && rows[n] == Stored(data[n])
  {
    hide Stored, Valid;
  }

  lemma SelectedStep(data: seq<PlcData>, device: string, from: DateTime, until: DateTime)
    requires data != []
    ensures var (n, d) := (|data| - 1, data[|data| - 1]);
            multiset(Selected(data, device, from, until))
            == multiset(Selected(data[..n], device, from, until))
               + if Within(d, device, from, until) then multiset{d} else multiset{}
  {
    hide Within;
  }

  /** With printed bounds, a range query finds exactly the readings in the time range, latest first. */
  lemma {:induction false} RangeMeansInstants(rows: seq<Row>, data: seq<PlcData>, device: string,
                                              from: DateTime, until: DateTime) returns (found: seq<PlcData>)
    requires Represents(rows, data) && Valid(from) && Valid(until)
    ensures Represents(Ranged(rows, device, Rfc3339(from), Rfc3339(until)), found)
    ensures LatestFirst(found) && multiset(found) == multiset(Selected(data, device, from, until))
  {
    if rows == [] {
      found := [];
    } else {
      var n := |rows| - 1;
      var earlier := Ranged(rows[..n], device, Rfc3339(from), Rfc3339(until));
      RepresentsLast(rows, data);
      SelectedStep(data, device, from, until);
      hide Represents, LatestFirst, Placed, Selected, InRange, Within, Stored, Valid, Rfc3339;
      found := RangeMeansInstants(rows[..n], data[..n], device, from, until);
      RangeMeansWithin(rows[n], data[n], device, from, until);
      if Within(data[n], device, from, until) {
        found := PlacedMeansInstants(rows[n], data[n], earlier, found);
      }
    }
  }

  /**
   * A limit keeps the latest of what a range query finds: as many as it says, if there are as many, and none that was
   * dropped is later than one that was kept.
   */
  lemma LimitKeepsLatest(rows: seq<Row>, data: seq<PlcData>, device: string, from: DateTime, until: DateTime,
                         limit: int) returns (kept: seq<PlcData>, dropped: seq<PlcData>)
    requires Represents(rows, data) && Valid(from) && Valid(until)
    ensures Represents(Limited(Ranged(rows, device, Rfc3339(from), Rfc3339(until)), limit), kept)
    ensures multiset(kept + dropped) == multiset(Selected(data, device, from, until))
    ensures limit < 0 ==> dropped == []
    ensures limit >= 0 ==> |kept| <= limit && (dropped != [] ==> |kept| == limit)
    ensures forall i, j :: 0 <= i < |kept| && 0 <= j < |dropped| ==> Instant(kept[i].at) >= Instant(dropped[j].at)
  {
    hide *;
    var found := RangeMeansInstants(rows, data, device, from, until);
    var n := if 0 <= limit < |found| then limit else |found|;
    kept, dropped := found[..n], found[n..];
    CutJoins(found, n);
    CutLatestFirst(found, n);
    LimitCuts(Ranged(rows, device, Rfc3339(from), Rfc3339(until)), found, limit);
  }

  lemma LimitCuts(rows: seq<Row>, data: seq<PlcData>, limit: int)
    requires Represents(rows, data)
    ensures Represents(Limited(rows, limit), data[..if 0 <= limit < |data| then limit else |data|])
  {
    hide Stored, Valid;
  }

  lemma CutJoins(data: seq<PlcData>, n: nat)
    requires n <= |data|
    ensures data[..n] + data[n..] == data
  {}

  lemma CutLatestFirst(data: seq<PlcData>, n: nat)
    requires LatestFirst(data) && n <= |data|
    ensures forall i, j :: 0 <= i < n && 0 <= j < |data| - n ==> Instant(data[..n][i].at) >= Instant(data[n..][j].at)
  {
    hide Instant;
  }
}
