/** One turn of the polling loop of `protocol.rs`: a read, the alarms, the batch tracker. */
module Polling {
  import opened Wrappers
  import Alarms
  import Batches

  const BATCH_STATE := 1032

  /** Register addresses are 16 bits wide and wrap around. */
  function Address(start: nat, i: nat): nat {
    (start + i) % 65536
  }

  function RegMap(start: nat, values: seq<nat>): map<nat, nat> {
    if values == [] then map[] else
      var n := |values| - 1;
      RegMap(start, values[..n])[Address(start, n) := values[n]]
  }

  /** Up to 65536 values all have an address of their own, and nothing else has one. */
  lemma {:induction false} RegMapIsExact(start: nat, values: seq<nat>)
    requires |values| <= 65536
    ensures forall i :: 0 <= i < |values| ==>
              Address(start, i) in RegMap(start, values) && RegMap(start, values)[Address(start, i)] == values[i]
    ensures forall a :: a in RegMap(start, values) ==> exists i :: 0 <= i < |values| && a == Address(start, i)
  {
    if values != [] {
      var n := |values| - 1;
      RegMapIsExact(start, values[..n]);
      forall i | 0 <= i < n
        ensures Address(start, i) != Address(start, n)
      {
        OwnAddress(start, i, n);
      }
      assert forall i :: 0 <= i < n ==> values[..n][i] == values[i];
      hide Address;
      assert Address(start, n) == Address(start, n);
    }
  }

  /** An address is the place in 16 bits: past the last one it starts again at 0. */
  lemma AddressIs(start: nat, i: nat)
    ensures Address(start, i) < 65536
    ensures start + i < 65536 ==> Address(start, i) == start + i
    ensures 65536 <= start + i < 131072 ==> Address(start, i) == start + i - 65536
  {}

  lemma OwnAddress(start: nat, i: nat, n: nat)
    requires i < n < 65536
    ensures Address(start, i) != Address(start, n)
  {}

  class Poller {
    const device: string
    const registerStart: nat
    const tracker: Batches.BatchTracker

    constructor (device: string, registerStart: nat)
      ensures this.device == device && this.registerStart == registerStart
      ensures fresh(tracker) && tracker.device == device && tracker.State() == Batches.Tracker(None, 0)
    {
      this.device, this.registerStart := device, registerStart;
      tracker := new Batches.BatchTracker(device);
    }

    /** `read` is what the device answers, None if the read failed. */
    method Poll(alarms: Alarms.AlarmTable, batches: Batches.BatchTable, read: Option<seq<nat>>, now: int)
      requires tracker.device == device
      modifies tracker, alarms, batches
      ensures read.None? ==>
                && alarms.rows == old(alarms.rows) && batches.rows == old(batches.rows)
                && tracker.State() == old(tracker.State())
      ensures read.Some? ==>
                var regs := RegMap(registerStart, read.value);
                && alarms.rows == Alarms.PolledAll(old(alarms.rows), device, regs, now, |Alarms.THRESHOLDS|)
                && (tracker.State(), batches.rows)
                   == if BATCH_STATE in regs
                      then Batches.Observed(device, old(tracker.State()), old(batches.rows), regs[BATCH_STATE], now)
                      else (old(tracker.State()), old(batches.rows))
    {
      if read.None? {
        return;
      }
      var registers, regs := read.value, map[];
      for i := 0 to |registers|
        invariant regs == RegMap(registerStart, registers[..i])
      {
        assert registers[..i + 1][..i] == registers[..i];
        regs := regs[Address(registerStart, i) := registers[i]];
      }
      assert registers[..|registers|] == registers;
      Alarms.MonitorAlarms(alarms, device, regs, now);
      if BATCH_STATE in regs {
        tracker.Observe(batches, regs[BATCH_STATE], now);
      }
    }
  }
}
