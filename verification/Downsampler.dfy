/** `_groupByTimestamp` of `history_screen.dart`: raw rows to per-second snapshots to averaged buckets. */
module Downsampler {
  import opened Wrappers
  import opened Numbers

  /** A row of the history; `time` is in microseconds, None if the timestamp does not parse. */
  datatype Row = Row(time: Option<int>, register: int, value: real)

  datatype Snapshot = Snapshot(time: int, temp: real, pressure: real, humidity: real, flow: real,
                               agitator: real, pH: real, progress: real, batchState: int)

  function Blank(time: int): Snapshot {
    Snapshot(time, 0.0, 0.0, 0.0, 0.0, 0.0, 0.0, 0.0, 0)
  }

  function With(s: Snapshot, row: Row): Snapshot {
    match row.register
    case 1028 => s.(temp := row.value)
    case 1029 => s.(pressure := row.value)
    case 1030 => s.(humidity := row.value)
    case 1031 => s.(flow := row.value)
    case 1032 => s.(batchState := Trunc(row.value))
    case 1033 => s.(progress := row.value)
    case 1034 => s.(agitator := row.value)
    case 1035 => s.(pH := row.value / 10.0)
    case _ => s
  }

  /** The local calendar second that is printed for an instant; `zone` maps seconds to local seconds. */
  function KeyOf(zone: int -> int, time: int): int {
    zone(time / 1_000_000)
  }

  predicate Has(zone: int -> int, row: Row, key: int) {
    row.time.Some? && KeyOf(zone, row.time.value) == key
  }

  // ---- Step 1: one snapshot per second ----

  /** The keys of the rows, in order of first appearance. */
  function Keys(zone: int -> int, raw: seq<Row>): seq<int> {
    if raw == [] then [] else
      var earlier, row := Keys(zone, raw[..|raw| - 1]), raw[|raw| - 1];
      if row.time.Some? && KeyOf(zone, row.time.value) !in earlier then earlier + [KeyOf(zone, row.time.value)]
      else earlier
  }

  function SnapOf(zone: int -> int, raw: seq<Row>, key: int): Option<Snapshot> {
    if raw == [] then None else
      var earlier, row := SnapOf(zone, raw[..|raw| - 1], key), raw[|raw| - 1];
      if Has(zone, row, key) then Some(With(earlier.GetOr(Blank(row.time.value)), row)) else earlier
  }

  lemma {:induction false} KeysAndSnaps(zone: int -> int, raw: seq<Row>)
    ensures forall key :: key in Keys(zone, raw) <==> SnapOf(zone, raw, key).Some?
    ensures forall key :: SnapOf(zone, raw, key).Some? ==> KeyOf(zone, SnapOf(zone, raw, key).value.time) == key
    ensures forall i, j :: 0 <= i < j < |Keys(zone, raw)| ==> Keys(zone, raw)[i] != Keys(zone, raw)[j]
  {
    if raw != [] {
      KeysAndSnaps(zone, raw[..|raw| - 1]);
    }
  }

  /** A snapshot is dated by the first row of its second ... */
  lemma {:induction false} DatedByFirst(zone: int -> int, raw: seq<Row>, n: nat, key: int)
    requires n < |raw| && Has(zone, raw[n], key) && forall i :: 0 <= i < n ==> !Has(zone, raw[i], key)
    ensures SnapOf(zone, raw, key).Some? && SnapOf(zone, raw, key).value.time == raw[n].time.value
  {
    if n < |raw| - 1 {
      DatedByFirst(zone, raw[..|raw| - 1], n, key);
    } else {
      NoSnap(zone, raw[..n], key);
    }
  }

  lemma {:induction false} NoSnap(zone: int -> int, raw: seq<Row>, key: int)
    requires forall i :: 0 <= i < |raw| ==> !Has(zone, raw[i], key)
    ensures SnapOf(zone, raw, key) == None
  {
    if raw != [] {
      NoSnap(zone, raw[..|raw| - 1], key);
    }
  }

  /** Conversion to a whole number drops the fraction. */
  predicate TruncatesTo(value: real, code: int) {
    if value >= 0.0 then code as real <= value < code as real + 1.0 else code as real - 1.0 < value <= code as real
  }

  /**
   * What a snapshot shows for a register: 1028 to 1031 are temperature, pressure, humidity and flow, 1032 is the
   * batch state, 1033 the progress, 1034 the agitator, and 1035 ten times the pH.
   */
  predicate Shows(s: Snapshot, register: int, value: real) {
    && (register == 1028 ==> s.temp == value)
    && (register == 1029 ==> s.pressure == value)
    && (register == 1030 ==> s.humidity == value)
    && (register == 1031 ==> s.flow == value)
    && (register == 1032 ==> TruncatesTo(value, s.batchState))
    && (register == 1033 ==> s.progress == value)
    && (register == 1034 ==> s.agitator == value)
    && (register == 1035 ==> s.pH == value / 10.0)
  }

  lemma RowShows(s: Snapshot, row: Row, register: int, value: real)
    ensures With(s, row).time == s.time
    ensures Shows(With(s, row), row.register, row.value)
    ensures register != row.register ==> Shows(With(s, row), register, value) == Shows(s, register, value)
  {}

  /** ... and shows, for every register, the value of the last row of its second ... */
  lemma {:induction false} HoldsLast(zone: int -> int, raw: seq<Row>, n: nat, key: int)
    requires n < |raw| && Has(zone, raw[n], key)
    requires forall i :: n < i < |raw| && Has(zone, raw[i], key) ==> raw[i].register != raw[n].register
    ensures SnapOf(zone, raw, key).Some? && Shows(SnapOf(zone, raw, key).value, raw[n].register, raw[n].value)
  {
    var last := raw[|raw| - 1];
    var earlier := SnapOf(zone, raw[..|raw| - 1], key);
    if n < |raw| - 1 {
      HoldsLast(zone, raw[..|raw| - 1], n, key);
      RowShows(earlier.value, last, raw[n].register, raw[n].value);
    } else {
      RowShows(earlier.GetOr(Blank(last.time.value)), last, 0, 0.0);
    }
    hide Shows, With, Has;
  }

  /** ... or 0, if its second has no row of the register. */
  lemma {:induction false} ZeroWithoutRow(zone: int -> int, raw: seq<Row>, key: int, register: int)
    requires SnapOf(zone, raw, key).Some?
    requires forall i :: 0 <= i < |raw| && Has(zone, raw[i], key) ==> raw[i].register != register
    ensures Shows(SnapOf(zone, raw, key).value, register, 0.0)
  {
    var last := raw[|raw| - 1];
    var earlier := SnapOf(zone, raw[..|raw| - 1], key);
    if earlier.Some? {
      ZeroWithoutRow(zone, raw[..|raw| - 1], key, register);
    }
    if Has(zone, last, key) {
      RowShows(earlier.GetOr(Blank(last.time.value)), last, register, 0.0);
      BlankShowsZero(last.time.value, register);
    }
    hide Shows, With, Has, Blank;
  }

  lemma BlankShowsZero(time: int, register: int)
    ensures Shows(Blank(time), register, 0.0)
  {}

  /** Rows share a snapshot exactly if their local seconds are the same. */
  lemma KeyIsSecond(zone: int -> int, time: int, second: int)
    requires second * 1_000_000 <= time < second * 1_000_000 + 1_000_000
    ensures KeyOf(zone, time) == zone(second)
  {}

  predicate Increasing(list: seq<Snapshot>) {
    forall i, j :: 0 <= i < j < |list| ==> list[i].time < list[j].time
  }

  predicate Distinct(list: seq<Snapshot>) {
    forall i, j :: 0 <= i < j < |list| ==> list[i].time != list[j].time
  }

  function Insert(s: Snapshot, list: seq<Snapshot>): seq<Snapshot> {
    if list == [] || s.time < list[0].time then [s] + list else [list[0]] + Insert(s, list[1..])
  }

  /** What `List.sort` leaves behind when no two times are equal. */
  function SortByTime(list: seq<Snapshot>): seq<Snapshot> {
    if list == [] then [] else Insert(list[|list| - 1], SortByTime(list[..|list| - 1]))
  }

  lemma {:induction false} InsertSorts(s: Snapshot, list: seq<Snapshot>)
    requires Increasing(list) && forall i :: 0 <= i < |list| ==> list[i].time != s.time
    ensures Increasing(Insert(s, list))
    ensures forall x :: x in Insert(s, list) <==> x == s || x in list
    decreases |list|
  {
    if list == [] || s.time < list[0].time {
      assert Insert(s, list) == [s] + list;
    } else {
      InsertSorts(s, list[1..]);
      var rest := Insert(s, list[1..]);
      forall i | 0 <= i < |rest|
        ensures list[0].time < rest[i].time
      {
        assert rest[i] in rest;
        assert rest[i] == s || rest[i] in list[1..];
      }
      assert list == [list[0]] + list[1..];
      assert Insert(s, list) == [list[0]] + rest;
    }
  }

  /** Sorting distinct times gives the same snapshots in increasing order. */
  lemma {:induction false} SortSorts(list: seq<Snapshot>)
    requires Distinct(list)
    ensures Increasing(SortByTime(list))
    ensures forall x :: x in SortByTime(list) <==> x in list
  {
    if list != [] {
      var n := |list| - 1;
      SortSorts(list[..n]);
      var sorted := SortByTime(list[..n]);
      assert forall i :: 0 <= i < |sorted| ==> sorted[i] in list[..n];
      InsertSorts(list[n], sorted);
      assert forall x :: x in list <==> x == list[n] || x in list[..n];
    }
  }

  lemma {:induction false} InsertAtEnd(s: Snapshot, list: seq<Snapshot>)
    requires forall i :: 0 <= i < |list| ==> list[i].time < s.time
    ensures Insert(s, list) == list + [s]
    decreases |list|
  {
    if list != [] {
      InsertAtEnd(s, list[1..]);
    }
  }

  lemma {:induction false} SortKeepsIncreasing(list: seq<Snapshot>)
    requires Increasing(list)
    ensures SortByTime(list) == list
  {
    if list != [] {
      SortKeepsIncreasing(list[..|list| - 1]);
      InsertAtEnd(list[|list| - 1], list[..|list| - 1]);
    }
  }

  function Snaps(zone: int -> int, raw: seq<Row>, keys: seq<int>): seq<Snapshot>
    requires forall i :: 0 <= i < |keys| ==> SnapOf(zone, raw, keys[i]).Some?
  {
    seq(|keys|, i requires 0 <= i < |keys| => SnapOf(zone, raw, keys[i]).value)
  }

  function SecList(zone: int -> int, raw: seq<Row>): seq<Snapshot> {
    KeysAndSnaps(zone, raw);
    SortByTime(Snaps(zone, raw, Keys(zone, raw)))
  }

  /** The list holds exactly the snapshots of all seconds, at strictly increasing times. */
  lemma SecListIsExact(zone: int -> int, raw: seq<Row>)
    ensures Increasing(SecList(zone, raw))
    ensures forall s :: s in SecList(zone, raw) <==> IsSnapshot(zone, raw, s)
  {
    KeysAndSnaps(zone, raw);
    hide SnapOf, Keys, SortByTime;
    var keys := Keys(zone, raw);
    var snaps := Snaps(zone, raw, keys);
    assert forall i :: 0 <= i < |snaps| ==> SnapOf(zone, raw, keys[i]) == Some(snaps[i]);
    SortSorts(snaps);
    forall s | IsSnapshot(zone, raw, s)
      ensures s in snaps
    {
      var key :| SnapOf(zone, raw, key) == Some(s);
      var i :| 0 <= i < |keys| && keys[i] == key;
      assert s == snaps[i];
    }
  }

  ghost predicate IsSnapshot(zone: int -> int, raw: seq<Row>, s: Snapshot) {
    exists key :: SnapOf(zone, raw, key) == Some(s)
  }

  // ---- Step 2: buckets ----

  /** Milliseconds since the epoch, truncated. */
  function Millis(time: int): int {
    if time >= 0 then time / 1000 else -((-time) / 1000)
  }

  /** The number of the bucket that a snapshot falls into. */
  function Buckets(first: Snapshot, interval: int): Snapshot -> int
    requires interval > 0
  {
    (s: Snapshot) => (Millis(s.time) - Millis(first.time)) / (interval * 1000)
  }

  lemma DivMonotone(x: int, y: int, d: int)
    requires d > 0 && x <= y
    ensures x / d <= y / d
  {
    if y / d < x / d {
      MulLess(d, y / d, x / d);
    }
  }

  lemma MulLess(d: int, a: int, b: int)
    requires d > 0 && a < b
    ensures d * a + d <= d * b
  {
    var k := b - a - 1;
    assert d * k >= 0;
    assert b == a + 1 + k;
    assert d * b == d * a + d + d * k;
  }

  ghost predicate Monotone(bucket: Snapshot -> int) {
    forall a: Snapshot, b: Snapshot :: a.time <= b.time ==> bucket(a) <= bucket(b)
  }

  lemma MillisMonotone(s: int, t: int)
    requires s <= t
    ensures Millis(s) <= Millis(t)
  {
    if s >= 0 {
      DivMonotone(s, t, 1000);
    } else if t < 0 {
      DivMonotone(-t, -s, 1000);
    }
  }

  lemma BucketIs(first: Snapshot, interval: int, s: Snapshot)
    requires interval > 0
    ensures Buckets(first, interval)(s) == (Millis(s.time) - Millis(first.time)) / (interval * 1000)
  {
    hide Millis;
  }

  /** Milliseconds are whole thousands of microseconds, rounded toward the epoch. */
  lemma MillisAre(time: int)
    ensures time >= 0 ==> 1000 * Millis(time) <= time < 1000 * Millis(time) + 1000
    ensures time < 0 ==> 1000 * Millis(time) - 1000 < time <= 1000 * Millis(time)
  {}

  /** Bucket b holds the snapshots of its interval, counted from the first one. */
  lemma BucketHolds(first: Snapshot, interval: int, s: Snapshot, b: int)
    requires interval > 0
    ensures Buckets(first, interval)(s) == b <==>
            b * (interval * 1000) <= Millis(s.time) - Millis(first.time) < b * (interval * 1000) + interval * 1000
  {
    BucketIs(first, interval, s);
    hide Millis, Buckets;
    QuotientIs(Millis(s.time) - Millis(first.time), interval * 1000, b);
  }

  lemma QuotientIs(x: int, d: int, q: int)
    requires d > 0
    ensures x / d == q <==> q * d <= x < q * d + d
  {
    var (p, m) := (x / d, x % d);
    assert x == p * d + m && 0 <= m < d;
    if p < q {
      MulLess(d, p, q);
    } else if q < p {
      MulLess(d, q, p);
    }
  }

  lemma BucketsMonotone(first: Snapshot, interval: int)
    requires interval > 0
    ensures Monotone(Buckets(first, interval))
  {
    forall a: Snapshot, b: Snapshot | a.time <= b.time
      ensures Buckets(first, interval)(a) <= Buckets(first, interval)(b)
    {
      BucketIs(first, interval, a);
      BucketIs(first, interval, b);
      MillisMonotone(a.time, b.time);
      hide Millis, Buckets;
      DivMonotone(Millis(a.time) - Millis(first.time), Millis(b.time) - Millis(first.time), interval * 1000);
    }
  }

  /** One more snapshot joins the last group if it falls into the same bucket, and starts a group otherwise. */
  function Joined(groups: seq<seq<Snapshot>>, s: Snapshot, bucket: Snapshot -> int): seq<seq<Snapshot>> {
    var g := |groups| - 1;
    if groups != [] && groups[g] != [] && bucket(groups[g][0]) == bucket(s)
    then groups[..g] + [groups[g] + [s]]
    else groups + [[s]]
  }

  function Groups(list: seq<Snapshot>, bucket: Snapshot -> int): seq<seq<Snapshot>> {
    if list == [] then [] else Joined(Groups(list[..|list| - 1], bucket), list[|list| - 1], bucket)
  }

  function Flatten(groups: seq<seq<Snapshot>>): seq<Snapshot> {
    if groups == [] then [] else Flatten(groups[..|groups| - 1]) + groups[|groups| - 1]
  }

  predicate OneBucket(group: seq<Snapshot>, bucket: Snapshot -> int) {
    forall k :: 0 <= k < |group| ==> bucket(group[k]) == bucket(group[0])
  }

  /** No group is empty, a group lies in one bucket, and later groups lie in later buckets. */
  ghost predicate Bucketed(groups: seq<seq<Snapshot>>, bucket: Snapshot -> int) {
    && (forall i :: 0 <= i < |groups| ==> groups[i] != [] && OneBucket(groups[i], bucket))
    && (forall i, j :: 0 <= i < j < |groups| ==> bucket(groups[i][0]) < bucket(groups[j][0]))
  }

  lemma JoinedFlattens(groups: seq<seq<Snapshot>>, s: Snapshot, bucket: Snapshot -> int)
    ensures Flatten(Joined(groups, s, bucket)) == Flatten(groups) + [s]
  {
    var after, g := Joined(groups, s, bucket), |groups| - 1;
    if |after| == |groups| {
      assert after[..g] == groups[..g];
      assert Flatten(groups[..g]) + (groups[g] + [s]) == (Flatten(groups[..g]) + groups[g]) + [s];
    } else {
      assert after[..|groups|] == groups;
    }
  }

  lemma LongerInBucket(group: seq<Snapshot>, s: Snapshot, bucket: Snapshot -> int)
    requires group != [] && OneBucket(group, bucket) && bucket(group[0]) == bucket(s)
    ensures OneBucket(group + [s], bucket) && (group + [s])[0] == group[0]
  {}

  lemma JoinedBucketed(groups: seq<seq<Snapshot>>, s: Snapshot, bucket: Snapshot -> int)
    requires Bucketed(groups, bucket)
    requires groups != [] ==> bucket(groups[|groups| - 1][0]) <= bucket(s)
    ensures Bucketed(Joined(groups, s, bucket), bucket)
  {
    var g := |groups| - 1;
    if groups != [] && bucket(groups[g][0]) == bucket(s) {
      LongerInBucket(groups[g], s, bucket);
    } else {
      assert OneBucket([s], bucket);
    }
    hide OneBucket;
  }

  /** The last group ends with the last snapshot. */
  lemma {:induction false} GroupsEnd(list: seq<Snapshot>, bucket: Snapshot -> int)
    requires list != []
    ensures Groups(list, bucket) != []
    ensures var last := Groups(list, bucket)[|Groups(list, bucket)| - 1];
            last != [] && last[|last| - 1] == list[|list| - 1]
  {}

  /** The groups cut the list into consecutive, non-empty pieces, one per bucket. */
  lemma {:induction false} GroupsPartition(list: seq<Snapshot>, bucket: Snapshot -> int)
    requires Monotone(bucket) && Increasing(list)
    ensures Flatten(Groups(list, bucket)) == list && Bucketed(Groups(list, bucket), bucket)
  {
    if list != [] {
      var n := |list| - 1;
      var s, groups := list[n], Groups(list[..n], bucket);
      GroupsPartition(list[..n], bucket);
      JoinedFlattens(groups, s, bucket);
      assert list == list[..n] + [s];
      if n > 0 {
        GroupsEnd(list[..n], bucket);
        assert bucket(list[n - 1]) <= bucket(s);
        var last := groups[|groups| - 1];
        assert bucket(last[|last| - 1]) == bucket(last[0]);
      }
      JoinedBucketed(groups, s, bucket);
    }
  }

  // ---- Step 3: averages ----

  datatype Channel = Temp | Pressure | Humidity | Flow | Agitator | PH

  function Get(s: Snapshot, c: Channel): real {
    match c
    case Temp => s.temp
    case Pressure => s.pressure
    case Humidity => s.humidity
    case Flow => s.flow
    case Agitator => s.agitator
    case PH => s.pH
  }

  function Sum(group: seq<Snapshot>, c: Channel): real {
    if group == [] then 0.0 else Sum(group[..|group| - 1], c) + Get(group[|group| - 1], c)
  }

  function Count(group: seq<Snapshot>, code: int): nat {
    if group == [] then 0 else
      Count(group[..|group| - 1], code) + (if group[|group| - 1].batchState == code then 1 else 0)
  }

  /** The code is in the group, none is more frequent, and none that is as frequent appears earlier. */
  ghost predicate IsMode(group: seq<Snapshot>, code: int) {
    exists p :: 0 <= p < |group| && group[p].batchState == code && EarliestMode(group, p)
  }

  ghost predicate EarliestMode(group: seq<Snapshot>, p: int)
    requires 0 <= p < |group|
  {
    && (forall q :: 0 <= q < |group| ==> Count(group, group[q].batchState) <= Count(group, group[p].batchState))
    && (forall q :: 0 <= q < p ==> Count(group, group[q].batchState) < Count(group, group[p].batchState))
  }

  lemma ModeIsUnique(group: seq<Snapshot>, a: int, b: int)
    requires IsMode(group, a) && IsMode(group, b)
    ensures a == b
  {
    var p :| 0 <= p < |group| && group[p].batchState == a && EarliestMode(group, p);
    var q :| 0 <= q < |group| && group[q].batchState == b && EarliestMode(group, q);
    assert p == q;
  }

  /** The first position, among the first n, whose code is the most frequent in the group. */
  function Best(group: seq<Snapshot>, n: nat): (p: nat)
    requires 0 < n <= |group|
    ensures p < n
  {
    if n == 1 then 0 else
      var p := Best(group, n - 1);
      if Count(group, group[n - 1].batchState) > Count(group, group[p].batchState) then n - 1 else p
  }

  lemma {:induction false} BestIsFirst(group: seq<Snapshot>, n: nat)
    requires 0 < n <= |group|
    ensures var p := Best(group, n);
            && (forall q :: 0 <= q < n ==> Count(group, group[q].batchState) <= Count(group, group[p].batchState))
            && (forall q :: 0 <= q < p ==> Count(group, group[q].batchState) < Count(group, group[p].batchState))
  {
    if n > 1 {
      BestIsFirst(group, n - 1);
    }
  }

  function Mode(group: seq<Snapshot>): int
    requires group != []
  {
    BestIsFirst(group, |group|);
    group[Best(group, |group|)].batchState
  }

  lemma ModeIsMode(group: seq<Snapshot>)
    requires group != []
    ensures IsMode(group, Mode(group))
  {
    BestIsFirst(group, |group|);
    assert EarliestMode(group, Best(group, |group|));
  }

  function Quotient(x: real, n: nat): real
    requires n > 0
  {
    x / n as real
  }

  function Times(n: nat, x: real): real {
    n as real * x
  }

  lemma TimesQuotient(x: real, n: nat)
    requires n > 0
    ensures Times(n, Quotient(x, n)) == x
  {}

  lemma QuotientBetween(sum: real, n: nat, low: real, high: real)
    requires n > 0 && Times(n, low) <= sum <= Times(n, high)
    ensures low <= Quotient(sum, n) <= high
  {}

  lemma TimesNext(n: nat, x: real)
    ensures Times(n + 1, x) == Times(n, x) + x
  {}

  function Average(group: seq<Snapshot>): Snapshot
    requires group != []
  {
    var n := |group|;
    Snapshot(group[n / 2].time,
             Quotient(Sum(group, Temp), n), Quotient(Sum(group, Pressure), n), Quotient(Sum(group, Humidity), n),
             Quotient(Sum(group, Flow), n), Quotient(Sum(group, Agitator), n), Quotient(Sum(group, PH), n),
             group[|group| - 1].progress, Mode(group))
  }

  function Averages(groups: seq<seq<Snapshot>>): seq<Snapshot>
    requires forall i :: 0 <= i < |groups| ==> groups[i] != []
  {
    seq(|groups|, i requires 0 <= i < |groups| => Average(groups[i]))
  }

  lemma AverageIs(group: seq<Snapshot>, c: Channel)
    requires group != []
    ensures Get(Average(group), c) == Quotient(Sum(group, c), |group|)
  {}

  lemma {:induction false} SumBetween(group: seq<Snapshot>, c: Channel, low: real, high: real)
    requires forall i :: 0 <= i < |group| ==> low <= Get(group[i], c) <= high
    ensures Times(|group|, low) <= Sum(group, c) <= Times(|group|, high)
  {
    if group != [] {
      var n := |group| - 1;
      SumBetween(group[..n], c, low, high);
      TimesNext(n, low);
      TimesNext(n, high);
    }
  }

  /** An averaged value lies between any bounds that hold for its bucket, in particular its minimum and maximum. */
  lemma AverageBetween(group: seq<Snapshot>, c: Channel, low: real, high: real)
    requires group != [] && forall i :: 0 <= i < |group| ==> low <= Get(group[i], c) <= high
    ensures low <= Get(Average(group), c) <= high
  {
    AverageIs(group, c);
    SumBetween(group, c, low, high);
    hide *;
    QuotientBetween(Sum(group, c), |group|, low, high);
  }

  /** Field by field: bounds of the group are bounds of its average. */
  lemma AverageFieldsBetween(group: seq<Snapshot>, low: Snapshot, high: Snapshot)
    requires group != []
    requires forall i :: 0 <= i < |group| ==>
               && low.temp <= group[i].temp <= high.temp && low.pressure <= group[i].pressure <= high.pressure
               && low.humidity <= group[i].humidity <= high.humidity && low.flow <= group[i].flow <= high.flow
               && low.agitator <= group[i].agitator <= high.agitator && low.pH <= group[i].pH <= high.pH
    ensures var avg := Average(group);
            && low.temp <= avg.temp <= high.temp && low.pressure <= avg.pressure <= high.pressure
            && low.humidity <= avg.humidity <= high.humidity && low.flow <= avg.flow <= high.flow
            && low.agitator <= avg.agitator <= high.agitator && low.pH <= avg.pH <= high.pH
  {
    AverageBetween(group, Temp, low.temp, high.temp);
    AverageBetween(group, Pressure, low.pressure, high.pressure);
    AverageBetween(group, Humidity, low.humidity, high.humidity);
    AverageBetween(group, Flow, low.flow, high.flow);
    AverageBetween(group, Agitator, low.agitator, high.agitator);
    AverageBetween(group, PH, low.pH, high.pH);
    hide Average;
  }

  /** An average is dated by the middle of its group, shows its last progress, and its most frequent batch state. */
  lemma AverageShows(group: seq<Snapshot>)
    requires group != []
    ensures var avg := Average(group);
            && avg.time == group[|group| / 2].time && avg.progress == group[|group| - 1].progress
            && IsMode(group, avg.batchState)
  {
    ModeIsMode(group);
    hide Mode, IsMode;
  }

  /** An average counted as often as there are snapshots in its group. */
  function Mass(group: seq<Snapshot>, c: Channel): real
    requires group != []
  {
    Times(|group|, Get(Average(group), c))
  }

  lemma {:induction false} MassIsSum(group: seq<Snapshot>, c: Channel)
    requires group != []
    ensures Mass(group, c) == Sum(group, c)
  {
    AverageIs(group, c);
    TimesQuotient(Sum(group, c), |group|);
  }

  /** The averages, each weighted with the size of its group. */
  function Weighted(groups: seq<seq<Snapshot>>, c: Channel): real
    requires forall i :: 0 <= i < |groups| ==> groups[i] != []
  {
    if groups == [] then 0.0 else
      var g := |groups| - 1;
      Weighted(groups[..g], c) + Mass(groups[g], c)
  }

  lemma {:induction false} SumConcat(a: seq<Snapshot>, b: seq<Snapshot>, c: Channel)
    ensures Sum(a + b, c) == Sum(a, c) + Sum(b, c)
    decreases |b|
  {
    if b == [] {
      assert a + b == a;
    } else {
      assert (a + b)[..|a + b| - 1] == a + b[..|b| - 1];
      SumConcat(a, b[..|b| - 1], c);
    }
  }

  /** Averaging loses nothing: the weighted averages add up to the sum over all snapshots. */
  lemma {:induction false} WeightedIsSum(groups: seq<seq<Snapshot>>, c: Channel)
    requires forall i :: 0 <= i < |groups| ==> groups[i] != []
    ensures Weighted(groups, c) == Sum(Flatten(groups), c)
  {
    if groups != [] {
      var g := |groups| - 1;
      WeightedIsSum(groups[..g], c);
      SumConcat(Flatten(groups[..g]), groups[g], c);
      MassIsSum(groups[g], c);
      hide Mass;
    }
  }

  /** The averaged snapshots are dated within their buckets, so their times strictly increase. */
  lemma AveragesIncrease(groups: seq<seq<Snapshot>>, bucket: Snapshot -> int)
    requires Monotone(bucket) && Bucketed(groups, bucket)
    ensures Increasing(Averages(groups))
  {
    forall i, j | 0 <= i < j < |groups|
      ensures Average(groups[i]).time < Average(groups[j]).time
    {
      var (a, b) := (groups[i][|groups[i]| / 2], groups[j][|groups[j]| / 2]);
      assert bucket(a) == bucket(groups[i][0]) < bucket(groups[j][0]) == bucket(b);
      assert b.time <= a.time ==> bucket(b) <= bucket(a);
    }
  }

  // ---- The method ----

  lemma {:induction false} GroupsNonEmpty(list: seq<Snapshot>, bucket: Snapshot -> int)
    ensures forall i :: 0 <= i < |Groups(list, bucket)| ==> Groups(list, bucket)[i] != []
  {
    if list != [] {
      GroupsNonEmpty(list[..|list| - 1], bucket);
    }
  }

  function Downsampled(list: seq<Snapshot>, interval: int): seq<Snapshot> {
    if list == [] || interval <= 1 then list else
      var bucket := Buckets(list[0], interval);
      GroupsNonEmpty(list, bucket);
      Averages(Groups(list, bucket))
  }

  /** The codes of a group, in order of first appearance. */
  function Codes(group: seq<Snapshot>): seq<int> {
    if group == [] then [] else
      var earlier, code := Codes(group[..|group| - 1]), group[|group| - 1].batchState;
      if code in earlier then earlier else earlier + [code]
  }

  lemma {:induction false} CodesAll(group: seq<Snapshot>)
    ensures forall q :: 0 <= q < |group| ==> group[q].batchState in Codes(group)
  {
    if group != [] {
      CodesAll(group[..|group| - 1]);
    }
  }

  /** Where a code first appears: all that appear before it are listed before it. */
  lemma {:induction false} FirstAppearance(group: seq<Snapshot>, j: nat) returns (p: nat)
    requires j < |Codes(group)|
    ensures p < |group| && group[p].batchState == Codes(group)[j]
    ensures forall q :: 0 <= q < p ==> group[q].batchState in Codes(group)[..j]
  {
    var prefix := group[..|group| - 1];
    if j < |Codes(prefix)| {
      p := FirstAppearance(prefix, j);
      assert Codes(group)[..j] == Codes(prefix)[..j];
    } else {
      p := |group| - 1;
      CodesAll(prefix);
      assert Codes(group)[..j] == Codes(prefix);
    }
  }

  lemma {:induction false} CountPositive(group: seq<Snapshot>)
    ensures forall code :: code in Codes(group) <==> Count(group, code) > 0
  {
    if group != [] {
      CountPositive(group[..|group| - 1]);
    }
  }

  /** Counts how often each code occurs, then keeps the first of the most frequent ones. */
  method MostFrequent(group: seq<Snapshot>) returns (code: int)
    requires group != []
    ensures IsMode(group, code)
  {
    var order: seq<int>, stateFreq: map<int, nat> := [], map[];
    for i := 0 to |group|
      invariant order == Codes(group[..i])
      invariant forall c :: c in stateFreq <==> c in order
      invariant forall c :: c in stateFreq ==> stateFreq[c] == Count(group[..i], c)
    {
      assert group[..i + 1][..i] == group[..i];
      CountPositive(group[..i]);
      var c := group[i].batchState;
      if c !in stateFreq {
        order := order + [c];
        stateFreq := stateFreq[c := 0];
      }
      stateFreq := stateFreq[c := stateFreq[c] + 1];
    }
    assert group[..|group|] == group;
    CodesAll(group);
    assert group[0].batchState in order;
    forall k | 0 <= k < |order|
      ensures order[k] in stateFreq
    {
      var c := order[k];
      assert c in order;
      assert c in stateFreq;
    }
    var best := 0;
    for j := 1 to |order|
      invariant forall k :: 0 <= k < |order| ==> order[k] in stateFreq
      invariant 0 <= best < |order| && best <= j
      invariant forall k :: 0 <= k < j ==> stateFreq[order[k]] <= stateFreq[order[best]]
      invariant forall k :: 0 <= k < best ==> stateFreq[order[k]] < stateFreq[order[best]]
    {
      if !(stateFreq[order[best]] >= stateFreq[order[j]]) {
        best := j;
      }
    }
    code := order[best];
    BestCodeIsMode(group, best);
  }

  lemma BestCodeIsMode(group: seq<Snapshot>, best: nat)
    requires best < |Codes(group)|
    requires forall k :: 0 <= k < |Codes(group)| ==> Count(group, Codes(group)[k]) <= Count(group, Codes(group)[best])
    requires forall k :: 0 <= k < best ==> Count(group, Codes(group)[k]) < Count(group, Codes(group)[best])
    ensures IsMode(group, Codes(group)[best])
  {
    hide Codes, Count;
    CodesAll(group);
    var p := FirstAppearance(group, best);
    assert EarliestMode(group, p);
  }

  method AverageOf(group: seq<Snapshot>) returns (avg: Snapshot)
    requires group != []
    ensures avg == Average(group)
  {
    var n := |group|;
    var state := MostFrequent(group);
    ModeIsMode(group);
    ModeIsUnique(group, state, Mode(group));
    avg := Snapshot(group[n / 2].time,
                    Quotient(Sum(group, Temp), n), Quotient(Sum(group, Pressure), n), Quotient(Sum(group, Humidity), n),
                    Quotient(Sum(group, Flow), n), Quotient(Sum(group, Agitator), n), Quotient(Sum(group, PH), n),
                    group[n - 1].progress, state);
  }

  /** The first loop: the per-second snapshots, in order of first appearance. */
  method GroupBySecond(zone: int -> int, raw: seq<Row>) returns (snaps: seq<Snapshot>)
    ensures SortByTime(snaps) == SecList(zone, raw)
  {
    var order: seq<int>, secMap: map<int, Snapshot> := [], map[];
    for i := 0 to |raw|
      invariant order == Keys(zone, raw[..i])
      invariant forall key :: key in secMap <==> key in order
      invariant forall key :: key in secMap ==> SnapOf(zone, raw[..i], key) == Some(secMap[key])
    {
      assert raw[..i + 1][..i] == raw[..i];
      KeysAndSnaps(zone, raw[..i]);
      var row := raw[i];
      if row.time.Some? {
        var key := KeyOf(zone, row.time.value);
        if key !in secMap {
          order := order + [key];
          secMap := secMap[key := Blank(row.time.value)];
        }
        secMap := secMap[key := With(secMap[key], row)];
      }
    }
    assert raw[..|raw|] == raw;
    KeysAndSnaps(zone, raw);
    assert forall i :: 0 <= i < |order| ==> order[i] in order;
    snaps := seq(|order|, i requires 0 <= i < |order| && order[i] in secMap => secMap[order[i]]);
    assert snaps == Snaps(zone, raw, Keys(zone, raw));
  }

  /** The second loop: the buckets, in order of first appearance. */
  method GroupByBucket(list: seq<Snapshot>, bucket: Snapshot -> int) returns (groups: seq<seq<Snapshot>>)
    requires Monotone(bucket) && Increasing(list)
    ensures groups == Groups(list, bucket)
  {
    hide Groups, Joined, Bucketed, Monotone, Increasing;
    var order: seq<int>, buckets: map<int, seq<Snapshot>> := [], map[];
    NoGroups(list, bucket);
    for i := 0 to |list|
      invariant Holds(order, buckets, Groups(list[..i], bucket), bucket)
    {
      var s := list[i];
      var b := bucket(s);
      GroupsStep(list, i, bucket);
      LastGroupBefore(list, i, bucket);
      HoldsJoined(order, buckets, Groups(list[..i], bucket), s, bucket);
      if b !in buckets {
        order := order + [b];
        buckets := buckets[b := []];
      }
      buckets := buckets[b := buckets[b] + [s]];
    }
    assert list[..|list|] == list;
    groups := seq(|order|, j requires 0 <= j < |order| && order[j] in buckets => buckets[order[j]]);
  }

  lemma NoGroups(list: seq<Snapshot>, bucket: Snapshot -> int)
    ensures Groups(list[..0], bucket) == []
  {}

  lemma GroupsStep(list: seq<Snapshot>, i: nat, bucket: Snapshot -> int)
    requires i < |list|
    ensures Groups(list[..i + 1], bucket) == Joined(Groups(list[..i], bucket), list[i], bucket)
  {
    assert list[..i + 1][..i] == list[..i];
  }

  /** The map of buckets and its insertion order represent the groups. */
  predicate Holds(order: seq<int>, buckets: map<int, seq<Snapshot>>, groups: seq<seq<Snapshot>>,
                  bucket: Snapshot -> int)
  {
    && |order| == |groups|
    && (forall b :: b in buckets ==> b in order)
    && (forall j :: 0 <= j < |order| ==>
          order[j] in buckets && buckets[order[j]] == groups[j] && groups[j] != [] && order[j] == bucket(groups[j][0]))
  }

  lemma LastGroupBefore(list: seq<Snapshot>, i: nat, bucket: Snapshot -> int)
    requires Monotone(bucket) && Increasing(list) && i < |list|
    ensures var groups := Groups(list[..i], bucket);
            Bucketed(groups, bucket) && (groups != [] ==> bucket(groups[|groups| - 1][0]) <= bucket(list[i]))
  {
    GroupsPartition(list[..i], bucket);
    if i > 0 {
      GroupsEnd(list[..i], bucket);
      var last := Groups(list[..i], bucket)[|Groups(list[..i], bucket)| - 1];
      assert bucket(last[|last| - 1]) == bucket(last[0]);
    }
  }

  /** Only the last group can lie in the bucket of a later snapshot. */
  lemma LastOrNew(order: seq<int>, buckets: map<int, seq<Snapshot>>, groups: seq<seq<Snapshot>>, s: Snapshot,
                  bucket: Snapshot -> int)
    requires Holds(order, buckets, groups, bucket) && Bucketed(groups, bucket)
    requires groups != [] ==> bucket(groups[|groups| - 1][0]) <= bucket(s)
    ensures bucket(s) in buckets <==> groups != [] && order[|order| - 1] == bucket(s)
    ensures forall j :: 0 <= j < |order| - 1 ==> order[j] != bucket(s)
  {
    hide OneBucket;
    if bucket(s) in buckets {
      var b := bucket(s);
      assert b in order;
      var j :| 0 <= j < |order| && order[j] == bucket(s);
      assert j == |order| - 1;
    }
  }

  lemma HoldsJoined(order: seq<int>, buckets: map<int, seq<Snapshot>>, groups: seq<seq<Snapshot>>, s: Snapshot,
                    bucket: Snapshot -> int)
    requires Holds(order, buckets, groups, bucket) && Bucketed(groups, bucket)
    requires groups != [] ==> bucket(groups[|groups| - 1][0]) <= bucket(s)
    ensures var b := bucket(s);
            if b in buckets then Holds(order, buckets[b := buckets[b] + [s]], Joined(groups, s, bucket), bucket)
            else Holds(order + [b], buckets[b := [] + [s]], Joined(groups, s, bucket), bucket)
  {
    LastOrNew(order, buckets, groups, s, bucket);
    hide Bucketed;
    assert [] + [s] == [s];
  }

  method AverageAll(groups: seq<seq<Snapshot>>) returns (averaged: seq<Snapshot>)
    requires forall i :: 0 <= i < |groups| ==> groups[i] != []
    ensures averaged == Averages(groups)
  {
    averaged := [];
    for g := 0 to |groups|
      invariant averaged == Averages(groups)[..g]
    {
      var avg := AverageOf(groups[g]);
      averaged := averaged + [avg];
    }
  }

  method GroupByTimestamp(zone: int -> int, raw: seq<Row>, interval: int) returns (out: seq<Snapshot>)
    ensures out == Downsampled(SecList(zone, raw), interval)
  {
    hide Groups, Bucketed, Monotone, Increasing, SortByTime, Averages, SecList;
    var snaps := GroupBySecond(zone, raw);
    var secList := SortByTime(snaps);
    if secList == [] || interval <= 1 {
      return secList;
    }
    var bucket := Buckets(secList[0], interval);
    SecListIsExact(zone, raw);
    BucketsMonotone(secList[0], interval);
    var groups := GroupByBucket(secList, bucket);
    GroupsNonEmpty(secList, bucket);
    var averaged := AverageAll(groups);
    GroupsPartition(secList, bucket);
    AveragesIncrease(groups, bucket);
    SortKeepsIncreasing(averaged);
    out := SortByTime(averaged);
  }

  /** What the chart can rely on, for every history and every bucket size. */
  lemma {:induction false} DownsamplingTheorem(zone: int -> int, raw: seq<Row>, interval: int)
    ensures var list, out := SecList(zone, raw), Downsampled(SecList(zone, raw), interval);
            && Increasing(out)
            && (list != [] && interval > 1 ==>
                  var groups := Groups(list, Buckets(list[0], interval));
                  && Flatten(groups) == list && Bucketed(groups, Buckets(list[0], interval))
                  && out == Averages(groups)
                  && forall c :: Weighted(groups, c) == Sum(list, c))
  {
    SecListIsExact(zone, raw);
    var list := SecList(zone, raw);
    hide SecList, SortByTime, Bucketed, Monotone, Increasing, Flatten, Groups, Averages, Weighted, Sum;
    if list != [] && interval > 1 {
      var bucket := Buckets(list[0], interval);
      BucketsMonotone(list[0], interval);
      GroupsPartition(list, bucket);
      AveragesIncrease(Groups(list, bucket), bucket);
      forall c
        ensures Weighted(Groups(list, bucket), c) == Sum(list, c)
      {
        WeightedIsSum(Groups(list, bucket), c);
      }
    }
  }

  /** Intervals of up to a second leave the per-second list as it is. */
  lemma FineIntervalsKeepTheList(list: seq<Snapshot>, interval: int)
    requires list == [] || interval <= 1
    ensures Downsampled(list, interval) == list
  {}
}
