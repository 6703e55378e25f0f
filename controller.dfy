/** `HIDController`: the scan that rebuilds its device list, the reporter loop, and the
    supervisor that restarts it, as methods that change the controller's state and
    append to the record of calls it has made to the host. Each is proved to behave as
    the corresponding function of the Dispatch module. */
module Controller {
  import opened Values
  import opened ReportBuffer
  import opened Matcher
  import opened Dispatch

  class HIDController {
    /** `config['devices']`: the configured descriptors, in file order. */
    const devices: seq<Record>
    /** `config.get('polling_frequency_ms')` */
    const pollingFrequencyMs: Option<int>
    /** `self.device_list`: the matches of the latest scan. */
    var deviceList: seq<Record>
    /** What the controller has done so far, in order: the host calls (enumerate, open,
        write, close), each scan's start log line and each sleep. */
    var trace: seq<Event>

    constructor (devices: seq<Record>, pollingFrequencyMs: Option<int>)
      ensures this.devices == devices && this.pollingFrequencyMs == pollingFrequencyMs
      ensures deviceList == [] && trace == []
    {
      this.devices := devices;
      this.pollingFrequencyMs := pollingFrequencyMs;
      deviceList := [];
      trace := [];
    }

    /** `scan_devices()`: reset the device list, then for each descriptor enumerate the
        host afresh and append every live device it matches, enriched. An enumeration
        that raises, or a live device whose check raises on a missing field, leaves the
        list as far as it got and reports the exception. */
    method ScanDevices(h: Host) returns (raised: bool)
      modifies this`deviceList, this`trace
      ensures var s := ScanEffect(devices, h, old(trace));
              deviceList == s.list && trace == s.trace && raised == s.raised
    {
      trace := trace + [ScanStart];
      deviceList := [];
      raised := false;
      var j := 0;
      while j < |devices|
        invariant 0 <= j <= |devices|
        invariant ScanFrom(devices[j..], h, deviceList, trace) == ScanEffect(devices, h, old(trace))
      {
        var desc := devices[j];
        ghost var before := deviceList;
        var live := h.devicesAt(|trace|);
        var failed := h.failsAt(|trace|);
        assert devices[j..][0] == desc && devices[j..][1..] == devices[j + 1..];
        trace := trace + [Enumerate];
        if failed {
          return true;
        }
        raised := AppendMatches(desc, live);
        if raised {
          return;
        }
        assert live[..|live|] == live;
        assert deviceList == before + Group(desc, live);
        j := j + 1;
      }
    }

    /** The inner loop of `scan_devices` for one descriptor: append each live device it
        matches, enriched, in enumeration order, until a device whose check raises. */
    method AppendMatches(desc: Record, live: seq<Record>) returns (failed: bool)
      modifies this`deviceList
      ensures var stop := FirstLookupFailure(desc, live);
              failed == (stop < |live|) && deviceList == old(deviceList) + Group(desc, live[..stop])
    {
      var k := 0;
      while k < |live|
        invariant 0 <= k <= |live|
        invariant forall m :: 0 <= m < k ==> !LookupFails(desc, live[m])
        invariant deviceList == old(deviceList) + Group(desc, live[..k])
      {
        var l := live[k];
        if LookupFails(desc, l) {
          return true;
        }
        GroupExtend(desc, live, k);
        if Matches(desc, l) {
          var enriched := EnrichRecord(l, desc);
          deviceList := deviceList + [enriched];
        }
        k := k + 1;
      }
      assert live[..k] == live;
      return false;
    }

    /** One device of a pass: log it, create a handle and open its path, then for each
        byte-string size a buffer by its comma-separated tokens, parse it and write it,
        then close. The first lookup, call or parse that raises ends the device's turn. */
    method SendReports(d: Record, device0: Option<Handle>, eval: string -> EvalOutcome, h: Host)
      returns (device: Option<Handle>, failed: bool)
      modifies this`trace
      ensures var p := DeviceEffect(d, device0, eval, h, old(trace));
              device == p.device && trace == p.trace && failed == p.raised
    {
      if !Loggable(d) {
        return device0, true;
      }
      if PathKey !in d {
        return Some(Handle(None)), true;
      }
      var path := d[PathKey];
      device := Some(Handle(Some(path)));
      failed := h.failsAt(|trace|);
      trace := trace + [Open(path)];
      if failed {
        return;
      }
      if ByteStringsKey !in d || !Iterable(d[ByteStringsKey]) {
        failed := true;
        return;
      }
      var items := Items(d[ByteStringsKey]);
      ghost var writes := WritesEffect(items, eval, h, trace);
      var m := 0;
      while m < |items| && !failed
        invariant 0 <= m <= |items|
        invariant !failed ==> WritesEffect(items[m..], eval, h, trace) == writes
        invariant failed ==> Step(trace, true) == writes
      {
        var raw := items[m];
        if !raw.VStr? {
          failed := true;
        } else {
          var buf := ParseUserBuf(eval(raw.s), TokenCount(raw.s));
          if buf.LengthError? {
            failed := true;
          } else {
            failed := h.failsAt(|trace|);
            trace := trace + [Write(buf.buf)];
          }
        }
        assert items[m..][1..] == items[m + 1..];
        m := m + 1;
      }
      if failed {
        return;
      }
      assert items[m..] == [];
      failed := h.failsAt(|trace|);
      trace := trace + [Close(Handle(Some(path)))];
    }

    /** The `for d in device_list` pass of the reporter loop: each device in list order
        gets the handle and its reports; the first exception ends the pass. */
    method DispatchPass(list: seq<Record>, device0: Option<Handle>, eval: string -> EvalOutcome, h: Host)
      returns (device: Option<Handle>, failed: bool)
      modifies this`trace
      ensures var p := PassEffect(list, device0, eval, h, old(trace));
              device == p.device && trace == p.trace && failed == p.raised
    {
      device, failed := device0, false;
      ghost var pass := PassEffect(list, device0, eval, h, trace);
      var k := 0;
      while k < |list| && !failed
        invariant 0 <= k <= |list|
        invariant !failed ==> PassEffect(list[k..], device, eval, h, trace) == pass
        invariant failed ==> PassStep(device, trace, true) == pass
      {
        device, failed := SendReports(list[k], device, eval, h);
        assert list[k..][1..] == list[k + 1..];
        k := k + 1;
      }
      assert !failed ==> list[k..] == [];
    }

    /** The `except` branch of the reporter loop: close the last device handle if
        there is one, then sleep once. A raising close escapes (`crashed`) before the
        sleep; a refused sleep escapes after it. */
    method Recover(ghost counter: nat, device: Option<Handle>, ms: int, h: Host) returns (crashed: bool)
      modifies this`trace
      ensures RecoverEffect(LoopState(counter, device, deviceList, old(trace)), ms, h)
              == Ended(if crashed then Crashed else Stopped, LoopState(counter, device, deviceList, trace))
    {
      crashed := false;
      if device.Some? {
        crashed := h.failsAt(|trace|);
        trace := trace + [Close(device.value)];
        if crashed {
          return;
        }
      }
      trace := trace + [Sleep(ms)];
      crashed := SleepRaises(ms);
    }

    /** One pass of the `while True` body of the reporter loop: the `try` (rescan on an
        even counter, count, dispatch `list`, sleep) and, on an exception, the `except`.
        `end` is None when the loop goes on. */
    method Cycle(list: seq<Record>, ms: int, eval: string -> EvalOutcome, h: Host, i0: nat, device0: Option<Handle>)
      returns (i: nat, device: Option<Handle>, end: Option<LoopEnd>)
      modifies this`deviceList, this`trace
      ensures var c := CycleEffect(list, ms, devices, eval, h, LoopState(i0, device0, old(deviceList), old(trace)));
              var s := LoopState(i, device, deviceList, trace);
              c == if end.None? then Continue(s) else Ended(end.value, s)
    {
      ghost var scanned, passed := CycleSplit(list, ms, devices, eval, h, LoopState(i0, device0, deviceList, trace));
      i, device := i0, device0;
      var failed := false;
      if i % 2 == 0 {
        failed := ScanDevices(h);
      }
      if !failed {
        i := i + 1;
        device, failed := DispatchPass(list, device, eval, h);
      }
      end := FinishCycle(i, device, failed, ms, h);
    }

    /** The end of a cycle: the `except` branch after an exception, otherwise the
        sleep, whose refusal of a period also goes to the `except` branch. */
    method FinishCycle(i: nat, device: Option<Handle>, raised: bool, ms: int, h: Host) returns (end: Option<LoopEnd>)
      modifies this`trace
      ensures var s := LoopState(i, device, deviceList, trace);
              CycleTail(ms, h, LoopState(i, device, deviceList, old(trace)), raised)
                == if end.None? then Continue(s) else Ended(end.value, s)
    {
      if !raised {
        trace := trace + [Sleep(ms)];
        if !SleepRaises(ms) {
          return None;
        }
      }
      var crashed := Recover(i, device, ms, h);
      end := Some(if crashed then Crashed else Stopped);
    }

    /** A cycle as the reporter loop sees it: the loop from the state before it, with
        `fuel` cycles left, is the loop from the state after it with one fewer, or ends
        where the cycle ended. */
    method BudgetedCycle(list: seq<Record>, ms: int, eval: string -> EvalOutcome, h: Host, i0: nat, device0: Option<Handle>, ghost fuel: nat)
      returns (i: nat, device: Option<Handle>, end: Option<LoopEnd>)
      requires fuel > 0
      modifies this`deviceList, this`trace
      ensures var s0 := LoopState(i0, device0, old(deviceList), old(trace));
              var s := LoopState(i, device, deviceList, trace);
              && (end.None? ==> LoopEffect(list, ms, devices, eval, h, s0, fuel) == LoopEffect(list, ms, devices, eval, h, s, fuel - 1))
              && (end.Some? ==> LoopEffect(list, ms, devices, eval, h, s0, fuel) == LoopResult(end.value, s, fuel - 1))
    {
      ghost var s0 := LoopState(i0, device0, deviceList, trace);
      i, device, end := Cycle(list, ms, eval, h, i0, device0);
      LoopAdvance(list, ms, devices, eval, h, s0, LoopState(i, device, deviceList, trace), end, fuel);
    }

    /** `start_reporter_tasks(list, ms)`, for at most `fuel` cycles. Each cycle rescans
        when the counter is even, counts, sends the reports of every device of `list` (the
        argument, which a rescan does not replace), and sleeps. On an exception it closes
        the last device handle, sleeps once and leaves the loop; an exception from that
        close, or from a refused sleep, escapes. */
    method StartReporterTasks(list: seq<Record>, ms: int, eval: string -> EvalOutcome, h: Host, fuel: nat)
      returns (end: LoopEnd, fuelLeft: nat)
      modifies this`deviceList, this`trace
      ensures var r := LoopEffect(list, ms, devices, eval, h, LoopState(0, None, old(deviceList), old(trace)), fuel);
              end == r.end && fuelLeft == r.fuelLeft && deviceList == r.last.deviceList && trace == r.last.trace
    {
      var device: Option<Handle> := None;
      var i: nat := 0;
      fuelLeft := fuel;
      ghost var goal := LoopEffect(list, ms, devices, eval, h, LoopState(0, None, deviceList, trace), fuel);
      while fuelLeft > 0
        invariant goal == LoopEffect(list, ms, devices, eval, h, LoopState(i, device, deviceList, trace), fuelLeft)
        decreases fuelLeft
      {
        var stop: Option<LoopEnd>;
        i, device, stop := BudgetedCycle(list, ms, eval, h, i, device, fuelLeft);
        fuelLeft := fuelLeft - 1;
        if stop.Some? {
          return stop.value, fuelLeft;
        }
      }
      return OutOfCycles, 0;
    }

    /** `start()`: one scan (an exception from it is not caught), then rerun the
        reporter loop on the current device list after every `break`. */
    method Start(eval: string -> EvalOutcome, h: Host, fuel: nat) returns (end: LoopEnd)
      modifies this`deviceList, this`trace
      ensures var r := StartEffect(devices, PollingMs(pollingFrequencyMs), eval, h, old(trace), fuel);
              end == r.end && deviceList == r.deviceList && trace == r.trace
    {
      var ms := PollingMs(pollingFrequencyMs);
      var raised := ScanDevices(h);
      if raised {
        return Crashed;
      }
      ghost var goal := RunsEffect(devices, ms, eval, h, deviceList, trace, fuel);
      var left := fuel;
      while left > 0
        invariant goal == RunsEffect(devices, ms, eval, h, deviceList, trace, left)
        decreases left
      {
        var runEnd, l := StartReporterTasks(deviceList, ms, eval, h, left);
        if runEnd != Stopped {
          return runEnd;
        }
        left := l;
      }
      end := OutOfCycles;
    }
  }
}
