/** The behaviour of the scan, the report dispatch pass, the polling cycle, the
    reporter loop (`start_reporter_tasks`) and the supervisor (`start`), stated as
    functions over the trace of host calls, log lines and sleeps they produce. */
module Dispatch {
  import opened Values
  import opened ReportBuffer
  import opened Matcher

  /** One step of the controller's trace. `Enumerate`, `Open`, `Write` and `Close` are
      calls to the host (`Enumerate` is one `hid.enumerate()`). `ScanStart` is the log
      line that starts a scan, and `Sleep` the pause of a cycle; neither calls the host. */
  datatype Event =
    | ScanStart
    | Enumerate
    | Open(path: Value)
    | Write(buf: seq<Value>)
    | Close(handle: Handle)
    | Sleep(ms: int)

  /** A `hid.device()` handle, named by the path it was created to open; `None` when
      the record has no `path`, so the handle is never opened. */
  datatype Handle = Handle(path: Option<Value>)

  /** The host, as the controller sees it: what an enumeration made at trace position
      `p` returns, and whether the enumerate, open, write or close call made at trace
      position `p` raises. */
  datatype Host = Host(devicesAt: nat -> seq<Record>, failsAt: nat -> bool)

  /** `config.get('polling_frequency_ms', 2000)`: the configured period, 2000 ms when
      there is none. */
  function PollingMs(configured: Option<int>): (ms: int)
    ensures configured.None? ==> ms == 2000
    ensures configured.Some? ==> ms == configured.value
  {
    if configured.Some? then configured.value else 2000
  }

  datatype ScanStep = ScanStep(list: seq<Record>, trace: seq<Event>, raised: bool)

  /** Whether the scan step for a descriptor raised: its enumerate call raised, or the
      check of one of the live devices it returned did. */
  predicate ScanStepRaises(desc: Record, h: Host, p: nat) {
    h.failsAt(p) || FirstLookupFailure(desc, h.devicesAt(p)) < |h.devicesAt(p)|
  }

  /** What the step of a descriptor that raised contributes: nothing when its
      enumerate raised, otherwise the matches among the devices before the one whose
      lookup raised. */
  function RaisedStepMatches(desc: Record, h: Host, p: nat): seq<Record> {
    if h.failsAt(p) then []
    else
      var live := h.devicesAt(p);
      Group(desc, live[..FirstLookupFailure(desc, live)])
  }

  /** The rest of a scan: one fresh enumeration per remaining descriptor, its group
      appended to `acc`; a raising enumeration ends the scan with the list so far, and a
      live device whose check raises ends it with the matches before that device. */
  function ScanFrom(descs: seq<Record>, h: Host, acc: seq<Record>, t: seq<Event>): (s: ScanStep)
    ensures t <= s.trace && |s.trace| <= |t| + |descs|
    ensures !s.raised ==> |s.trace| == |t| + |descs|
    ensures s.raised ==> |t| < |s.trace|
    decreases |descs|
  {
    if descs == [] then ScanStep(acc, t, false)
    else if ScanStepRaises(descs[0], h, |t|) then
      ScanStep(acc + RaisedStepMatches(descs[0], h, |t|), t + [Enumerate], true)
    else ScanFrom(descs[1..], h, acc + Group(descs[0], h.devicesAt(|t|)), t + [Enumerate])
  }

  /** `scan_devices()`: the device list is rebuilt from empty. The scan's log line comes
      first, then one enumeration per descriptor until one raises. */
  function ScanEffect(descs: seq<Record>, h: Host, t: seq<Event>): (s: ScanStep)
    ensures t + [ScanStart] <= s.trace
    ensures !s.raised ==> |s.trace| == |t| + 1 + |descs|
    ensures s.raised ==> |t| + 1 < |s.trace| <= |t| + 1 + |descs|
  {
    ScanFrom(descs, h, [], t + [ScanStart])
  }

  datatype Step = Step(trace: seq<Event>, raised: bool)

  /** The writes of one device: each byte-string is split to size its buffer, parsed,
      and written. A byte-string that is not a string (no `split`), a parsed value that
      is neither a list nor a tuple (`len` raises), or a raising write ends the device's
      writes with an exception; a failed evaluation writes the empty buffer and goes on. */
  function WritesEffect(items: seq<Value>, eval: string -> EvalOutcome, h: Host, t: seq<Event>): (w: Step)
    ensures t <= w.trace
    decreases |items|
  {
    if items == [] then Step(t, false)
    else if !items[0].VStr? then Step(t, true)
    else match ParseResult(eval(items[0].s), TokenCount(items[0].s))
      case LengthError => Step(t, true)
      case Parsed(buf) =>
        if h.failsAt(|t|) then Step(t + [Write(buf)], true)
        else WritesEffect(items[1..], eval, h, t + [Write(buf)])
  }

  /** Whether `for x in v` runs: lists and strings can be iterated, other values raise. */
  predicate Iterable(v: Value) {
    v.VList? || v.VStr?
  }

  /** What `for x in v` visits: a list's elements, or a string's characters as
      one-character strings. */
  function Items(v: Value): (r: seq<Value>)
    requires Iterable(v)
    ensures v.VList? ==> r == v.items
    ensures v.VStr? ==> |r| == |v.s| && forall k :: 0 <= k < |r| ==> r[k] == VStr([v.s[k]])
  {
    if v.VList? then v.items else seq(|v.s|, k requires 0 <= k < |v.s| => VStr([v.s[k]]))
  }

  datatype PassStep = PassStep(device: Option<Handle>, trace: seq<Event>, raised: bool)

  /** One device of a pass: log it, create a handle, open its path, write its
      byte-strings, close it. A record missing a log field raises before any call and
      leaves the previous handle; one without a path raises with a new, unopened handle;
      a missing or non-iterable `byte_strings` raises after the open. */
  function DeviceEffect(d: Record, device: Option<Handle>, eval: string -> EvalOutcome,
                        h: Host, t: seq<Event>): (p: PassStep)
    ensures t <= p.trace
    ensures !Loggable(d) ==> p == PassStep(device, t, true)
    ensures Loggable(d) && PathKey !in d ==> p == PassStep(Some(Handle(None)), t, true)
    ensures Loggable(d) && PathKey in d ==>
              p.device == Some(Handle(Some(d[PathKey]))) && |t| < |p.trace| && p.trace[|t|] == Open(d[PathKey])
  {
    if !Loggable(d) then PassStep(device, t, true)
    else if PathKey !in d then PassStep(Some(Handle(None)), t, true)
    else
      var path := d[PathKey];
      var handle := Handle(Some(path));
      var afterOpen := t + [Open(path)];
      if h.failsAt(|t|) then PassStep(Some(handle), afterOpen, true)
      else if ByteStringsKey !in d || !Iterable(d[ByteStringsKey]) then PassStep(Some(handle), afterOpen, true)
      else
        var w := WritesEffect(Items(d[ByteStringsKey]), eval, h, afterOpen);
        if w.raised then PassStep(Some(handle), w.trace, true)
        else PassStep(Some(handle), w.trace + [Close(handle)], h.failsAt(|w.trace|))
  }

  /** A dispatch pass over the rest of a list; the first exception ends the pass. */
  function PassEffect(list: seq<Record>, device: Option<Handle>, eval: string -> EvalOutcome,
                      h: Host, t: seq<Event>): (p: PassStep)
    ensures t <= p.trace
    decreases |list|
  {
    if list == [] then PassStep(device, t, false)
    else
      var p := DeviceEffect(list[0], device, eval, h, t);
      if p.raised then p else PassEffect(list[1..], p.device, eval, h, p.trace)
  }

  /** The local state of `start_reporter_tasks` and the controller's device list. */
  datatype LoopState = LoopState(counter: nat, device: Option<Handle>, deviceList: seq<Record>, trace: seq<Event>)

  /** How the reporter loop ended: `break` after an error, an exception out of the error
      handler itself, or the cycle budget of the model spent. */
  datatype LoopEnd = Stopped | Crashed | OutOfCycles

  datatype CycleStep = Continue(next: LoopState) | Ended(end: LoopEnd, last: LoopState)

  /** The longest pause `sleep` accepts, in milliseconds: a period is converted to a
      signed 64-bit count of nanoseconds, so one of 2^63 ns or more overflows. */
  const MaxSleepMs: int := 9223372036854

  /** Whether `sleep` raises for a polling period: a negative length is refused, and one
      too long for a 64-bit nanosecond count overflows. The default period and every
      period from 0 up to a year are accepted. */
  function SleepRaises(ms: int): (refused: bool)
    ensures ms < 0 ==> refused
    ensures 0 <= ms <= 365 * 24 * 60 * 60 * 1000 ==> !refused
    ensures ms == PollingMs(None) ==> !refused
  {
    ms < 0 || MaxSleepMs < ms
  }

  /** The `except` branch: close the last device handle if there is one, sleep once,
      leave the loop. A raising close, or a sleep refused for its period,
      escapes the loop. */
  function RecoverEffect(s: LoopState, ms: int, h: Host): (c: CycleStep)
    ensures c.Ended? && s.trace <= c.last.trace
  {
    var slept := if SleepRaises(ms) then Crashed else Stopped;
    match s.device
    case None => Ended(slept, s.(trace := s.trace + [Sleep(ms)]))
    case Some(handle) =>
      if h.failsAt(|s.trace|) then Ended(Crashed, s.(trace := s.trace + [Close(handle)]))
      else Ended(slept, s.(trace := s.trace + [Close(handle), Sleep(ms)]))
  }

  /** One iteration of the `while True` body: rescan on an even counter, count, dispatch
      to every device of `list` (the loop's argument, not the rescanned list), sleep. A
      sleep refused for its period raises inside the `try`, so the handler runs. */
  function CycleEffect(list: seq<Record>, ms: int, descs: seq<Record>, eval: string -> EvalOutcome,
                       h: Host, s: LoopState): (c: CycleStep)
    ensures s.trace <= (if c.Continue? then c.next.trace else c.last.trace)
  {
    var sc := if s.counter % 2 == 0 then ScanEffect(descs, h, s.trace) else ScanStep(s.deviceList, s.trace, false);
    var p := if sc.raised then PassStep(s.device, sc.trace, true) else PassEffect(list, s.device, eval, h, sc.trace);
    var st := LoopState(if sc.raised then s.counter else s.counter + 1, p.device, sc.list, p.trace);
    CycleTail(ms, h, st, p.raised)
  }

  /** The end of a cycle whose scan and pass left the state `st`: the handler if either
      raised, otherwise the sleep, whose refusal of a period also goes to the
      handler. Only a cycle that sleeps without an exception carries on. */
  function CycleTail(ms: int, h: Host, st: LoopState, raised: bool): (c: CycleStep)
    ensures st.trace <= (if c.Continue? then c.next.trace else c.last.trace)
    ensures c.Continue? <==> !raised && !SleepRaises(ms)
    ensures c.Continue? ==> c.next == st.(trace := st.trace + [Sleep(ms)])
  {
    if raised then RecoverEffect(st, ms, h)
    else if SleepRaises(ms) then RecoverEffect(st.(trace := st.trace + [Sleep(ms)]), ms, h)
    else Continue(st.(trace := st.trace + [Sleep(ms)]))
  }

  datatype LoopResult = LoopResult(end: LoopEnd, last: LoopState, fuelLeft: nat)

  /** `start_reporter_tasks(list, ms)` run for at most `fuel` cycles. A loop that uses
      up its budget has counted one per cycle. */
  function LoopEffect(list: seq<Record>, ms: int, descs: seq<Record>, eval: string -> EvalOutcome,
                      h: Host, s: LoopState, fuel: nat): (r: LoopResult)
    ensures s.trace <= r.last.trace
    ensures r.fuelLeft <= fuel && (fuel > 0 ==> r.fuelLeft < fuel)
    ensures r.end == OutOfCycles ==> r.fuelLeft == 0 && r.last.counter == s.counter + fuel
    decreases fuel, 1
  {
    if fuel == 0 then LoopResult(OutOfCycles, s, 0)
    else NextCycle(list, ms, descs, eval, h, s, fuel)
  }

  /** A loop with `fuel` cycles left runs one cycle from `s`, then goes on with the
      rest unless the cycle ended it. */
  function NextCycle(list: seq<Record>, ms: int, descs: seq<Record>, eval: string -> EvalOutcome,
                     h: Host, s: LoopState, fuel: nat): (r: LoopResult)
    requires fuel > 0
    ensures s.trace <= r.last.trace
    ensures r.fuelLeft < fuel
    ensures r.end == OutOfCycles ==> r.fuelLeft == 0 && r.last.counter == s.counter + fuel
    decreases fuel, 0
  {
    match CycleEffect(list, ms, descs, eval, h, s)
    case Continue(next) => LoopEffect(list, ms, descs, eval, h, next, fuel - 1)
    case Ended(end, last) => LoopResult(end, last, fuel - 1)
  }

  /** A cycle that went from `s0` to `s1` (and possibly ended) leaves the rest of the
      loop to `s1` with one cycle less. */
  lemma LoopAdvance(list: seq<Record>, ms: int, descs: seq<Record>, eval: string -> EvalOutcome,
                    h: Host, s0: LoopState, s1: LoopState, end: Option<LoopEnd>, fuel: nat)
    requires fuel > 0
    requires CycleEffect(list, ms, descs, eval, h, s0) == if end.None? then Continue(s1) else Ended(end.value, s1)
    ensures end.None? ==> LoopEffect(list, ms, descs, eval, h, s0, fuel) == LoopEffect(list, ms, descs, eval, h, s1, fuel - 1)
    ensures end.Some? ==> LoopEffect(list, ms, descs, eval, h, s0, fuel) == LoopResult(end.value, s1, fuel - 1)
  {
    LoopUnfold(list, ms, descs, eval, h, s0, fuel);
  }

  /** One step of the loop: a cycle, then the rest of the budget. */
  lemma LoopUnfold(list: seq<Record>, ms: int, descs: seq<Record>, eval: string -> EvalOutcome,
                   h: Host, s: LoopState, fuel: nat)
    requires fuel > 0
    ensures var c := CycleEffect(list, ms, descs, eval, h, s);
            LoopEffect(list, ms, descs, eval, h, s, fuel)
              == if c.Continue? then LoopEffect(list, ms, descs, eval, h, c.next, fuel - 1)
                 else LoopResult(c.end, c.last, fuel - 1)
  {
  }

  datatype RunResult = RunResult(end: LoopEnd, deviceList: seq<Record>, trace: seq<Event>)

  /** The `while True` of `start`: rerun the reporter loop on the current device list
      after every `break`, until the budget is spent or an exception escapes. */
  function RunsEffect(descs: seq<Record>, ms: int, eval: string -> EvalOutcome, h: Host,
                      deviceList: seq<Record>, t: seq<Event>, fuel: nat): (r: RunResult)
    ensures t <= r.trace
    decreases fuel
  {
    if fuel == 0 then RunResult(OutOfCycles, deviceList, t)
    else
      var r := LoopEffect(deviceList, ms, descs, eval, h, LoopState(0, None, deviceList, t), fuel);
      if r.end == Stopped then
        RunsEffect(descs, ms, eval, h, r.last.deviceList, r.last.trace, r.fuelLeft)
      else RunResult(r.end, r.last.deviceList, r.last.trace)
  }

  /** `start()`: one scan outside any handler, then the supervisor loop. */
  function StartEffect(descs: seq<Record>, ms: int, eval: string -> EvalOutcome, h: Host,
                       t: seq<Event>, fuel: nat): (r: RunResult)
    ensures t + [ScanStart] <= r.trace
    ensures r.end != Stopped
  {
    var sc := ScanEffect(descs, h, t);
    RunsNeverStop(descs, ms, eval, h, sc.list, sc.trace, fuel);
    if sc.raised then RunResult(Crashed, sc.list, sc.trace)
    else RunsEffect(descs, ms, eval, h, sc.list, sc.trace, fuel)
  }

  // ---------------------------------------------------------------------------
  // Scans

  /** With an enumeration of complete records that does not change, a scan that ends
      without an exception yields the configuration-major match list; one whose k-th
      enumeration raises yields the groups of the first k-1 descriptors. */
  lemma {:induction false} ScanFromStable(descs: seq<Record>, live: seq<Record>, h: Host,
                                          done: seq<Record>, t: seq<Event>)
    requires AllEnumerated(live) && forall p: nat :: h.devicesAt(p) == live
    ensures var s := ScanFrom(descs, h, ScanResult(done, live), t);
            var n := |s.trace| - |t|;
            s.list == ScanResult(done + descs[..n - (if s.raised then 1 else 0)], live)
  {
    var s := ScanFromHost(descs, h, ScanResult(done, live), t);
    StableStepList(descs, live, h, |t|, |s.trace| - |t|, s.raised, done, s.list);
  }

  /** The list a scan step leaves, as `ScanFromHost` describes it, is the scan of the
      descriptors whose steps completed when the enumeration is unchanging and complete. */
  lemma StableStepList(descs: seq<Record>, live: seq<Record>, h: Host, p: nat, n: nat, raised: bool,
                       done: seq<Record>, list: seq<Record>)
    requires AllEnumerated(live) && forall q: nat :: h.devicesAt(q) == live
    requires !raised ==> n == |descs| && list == ScanResult(done, live) + HostScan(descs, h, p)
    requires raised ==> 0 < n <= |descs|
    requires raised && 0 < n <= |descs| ==>
               && list == ScanResult(done, live) + HostScan(descs[..n - 1], h, p)
                          + RaisedStepMatches(descs[n - 1], h, p + n - 1)
               && ScanStepRaises(descs[n - 1], h, p + n - 1)
    ensures list == ScanResult(done + descs[..n - (if raised then 1 else 0)], live)
  {
    if !raised {
      assert descs[..n] == descs;
      HostScanStable(descs, live, h, p);
      ScanResultConcat(done, descs, live);
    } else {
      EnumeratedNeverFails(descs[n - 1], live);
      assert RaisedStepMatches(descs[n - 1], h, p + n - 1) == [];
      HostScanStable(descs[..n - 1], live, h, p);
      ScanResultConcat(done, descs[..n - 1], live);
      assert list == ScanResult(done, live) + ScanResult(descs[..n - 1], live) + [];
    }
  }

  lemma ScanStable(descs: seq<Record>, live: seq<Record>, h: Host, t: seq<Event>)
    requires AllEnumerated(live) && forall p: nat :: h.devicesAt(p) == live
    ensures var s := ScanEffect(descs, h, t);
            && (!s.raised ==> s.list == ScanResult(descs, live))
            && (s.raised ==> s.list == ScanResult(descs[..|s.trace| - |t| - 2], live))
  {
    var s := ScanEffect(descs, h, t);
    assert ScanResult([], live) == [];
    ScanFromStable(descs, live, h, [], t + [ScanStart]);
    var k := |s.trace| - |t| - 1 - (if s.raised then 1 else 0);
    assert [] + descs[..k] == descs[..k];
    if !s.raised {
      assert descs[..k] == descs;
    }
  }

  /** A scan makes one enumeration per descriptor and stops at the first step that
      raises. */
  lemma {:induction false} ScanFromTrace(descs: seq<Record>, h: Host, acc: seq<Record>, t: seq<Event>)
    ensures var s := ScanFrom(descs, h, acc, t);
            var n := |s.trace| - |t|;
            && n <= |descs|
            && (forall q :: |t| <= q < |s.trace| ==> s.trace[q] == Enumerate)
            && (!s.raised ==> n == |descs| && forall k :: 0 <= k < n ==> !ScanStepRaises(descs[k], h, |t| + k))
            && (s.raised ==> 0 < n && ScanStepRaises(descs[n - 1], h, |s.trace| - 1)
                             && forall k :: 0 <= k < n - 1 ==> !ScanStepRaises(descs[k], h, |t| + k))
    decreases |descs|
  {
    if descs != [] && !ScanStepRaises(descs[0], h, |t|) {
      var t' := t + [Enumerate];
      ScanFromTrace(descs[1..], h, acc + Group(descs[0], h.devicesAt(|t|)), t');
      assert forall k :: 1 <= k <= |descs[1..]| ==> descs[1..][k - 1] == descs[k];
    }
  }

  /** Every entry a scan adds can be logged, whatever the host returns: a match is
      logged before it is kept, and a device that cannot be logged ends the scan. */
  lemma {:induction false} ScanKeepsLoggable(descs: seq<Record>, h: Host, acc: seq<Record>, t: seq<Event>)
    requires AllLoggable(acc)
    ensures AllLoggable(ScanFrom(descs, h, acc, t).list)
    decreases |descs|
  {
    if descs != [] && !h.failsAt(|t|) {
      var live := h.devicesAt(|t|);
      var k := FirstLookupFailure(descs[0], live);
      GroupLoggable(descs[0], live[..k]);
      var g := Group(descs[0], live[..k]);
      assert AllLoggable(acc + g);
      if k == |live| {
        assert live[..k] == live;
        ScanKeepsLoggable(descs[1..], h, acc + g, t + [Enumerate]);
      }
    }
  }

  /** The configuration-major match list of a scan whose enumerations may differ: the
      group of the j-th descriptor is taken from the enumeration made at position
      `p + j`, as `hid.enumerate()` is called afresh for every descriptor. */
  function HostScan(descs: seq<Record>, h: Host, p: nat): seq<Record>
    decreases |descs|
  {
    if descs == [] then [] else Group(descs[0], h.devicesAt(p)) + HostScan(descs[1..], h, p + 1)
  }

  /** The groups of the first `n - 1` descriptors are the first descriptor's group,
      then the groups of the next `n - 2`. */
  lemma HostScanCons(descs: seq<Record>, h: Host, p: nat, n: nat)
    requires 2 <= n <= |descs|
    ensures HostScan(descs[..n - 1], h, p) == Group(descs[0], h.devicesAt(p)) + HostScan(descs[1..][..n - 2], h, p + 1)
    ensures descs[1..][n - 2] == descs[n - 1]
  {
    assert descs[..n - 1][1..] == descs[1..][..n - 2];
  }

  /** With an enumeration that never changes, `HostScan` is the scan of that one
      enumeration. */
  lemma {:induction false} HostScanStable(descs: seq<Record>, live: seq<Record>, h: Host, p: nat)
    requires forall q: nat :: h.devicesAt(q) == live
    ensures HostScan(descs, h, p) == ScanResult(descs, live)
    decreases |descs|
  {
    if descs != [] {
      HostScanStable(descs[1..], live, h, p + 1);
    }
  }

  /** Every entry of `HostScan` is a device of the enumeration made for some descriptor,
      matched by that descriptor (which has both strings) and enriched with it. */
  lemma {:induction false} HostScanSound(descs: seq<Record>, h: Host, p: nat, r: Record)
    requires r in HostScan(descs, h, p)
    ensures exists j, l :: 0 <= j < |descs| && l in h.devicesAt(p + j) && Matches(descs[j], l)
                           && r == Enrich(l, descs[j])
    decreases |descs|
  {
    if r in Group(descs[0], h.devicesAt(p)) {
      GroupSound(descs[0], h.devicesAt(p), r);
      var l :| l in h.devicesAt(p) && Matches(descs[0], l) && r == Enrich(l, descs[0]);
      assert 0 <= 0 < |descs| && l in h.devicesAt(p + 0);
    } else {
      HostScanSound(descs[1..], h, p + 1, r);
      var j, l :| 0 <= j < |descs[1..]| && l in h.devicesAt(p + 1 + j) && Matches(descs[1..][j], l)
                  && r == Enrich(l, descs[1..][j]);
      assert descs[1..][j] == descs[j + 1] && p + 1 + j == p + (j + 1);
    }
  }

  /** For any host, the rest of a scan appends to `acc` the groups of the descriptors
      whose steps ran without raising, each from its own enumeration, then what the
      step that raised, if any, contributes. */
  lemma {:induction false} ScanFromHost(descs: seq<Record>, h: Host, acc: seq<Record>, t: seq<Event>)
    returns (s: ScanStep)
    ensures s == ScanFrom(descs, h, acc, t)
    ensures !s.raised ==> s.list == acc + HostScan(descs, h, |t|)
    ensures s.raised ==> 0 < |s.trace| - |t| <= |descs|
    ensures var n := |s.trace| - |t|;
            s.raised && 0 < n <= |descs| ==>
              && s.list == acc + HostScan(descs[..n - 1], h, |t|) + RaisedStepMatches(descs[n - 1], h, |t| + n - 1)
              && ScanStepRaises(descs[n - 1], h, |t| + n - 1)
    decreases |descs|
  {
    s := ScanFrom(descs, h, acc, t);
    if descs == [] {
      assert acc + [] == acc;
    } else if ScanStepRaises(descs[0], h, |t|) {
      assert HostScan(descs[..0], h, |t|) == [];
      assert s.list == acc + HostScan(descs[..0], h, |t|) + RaisedStepMatches(descs[0], h, |t|);
    } else {
      var g := Group(descs[0], h.devicesAt(|t|));
      var t' := t + [Enumerate];
      var s' := ScanFromHost(descs[1..], h, acc + g, t');
      AppendAssoc(acc, g, HostScan(descs[1..], h, |t| + 1));
      if s.raised {
        var n := |s.trace| - |t|;
        assert s == s' && |s'.trace| - |t'| == n - 1;
        HostScanCons(descs, h, |t|, n);
        AppendAssoc(acc, g, HostScan(descs[1..][..n - 2], h, |t| + 1));
      }
    }
  }

  /** Every entry of what a raising step contributes is a device of that step's
      enumeration, matched by the descriptor and enriched with it. */
  lemma RaisedStepSound(desc: Record, h: Host, q: nat, r: Record)
    requires r in RaisedStepMatches(desc, h, q)
    ensures exists l :: l in h.devicesAt(q) && Matches(desc, l) && r == Enrich(l, desc)
  {
    var live := h.devicesAt(q);
    var k := FirstLookupFailure(desc, live);
    GroupSound(desc, live[..k], r);
    var l :| l in live[..k] && Matches(desc, l) && r == Enrich(l, desc);
    assert l in live;
  }

  /** Every entry of the groups of the first `m` descriptors is a device of the
      enumeration made for one of them, matched by it and enriched with it. */
  lemma PrefixScanSound(descs: seq<Record>, h: Host, p: nat, m: nat, r: Record)
    requires m <= |descs| && r in HostScan(descs[..m], h, p)
    ensures exists j, l :: 0 <= j < |descs| && l in h.devicesAt(p + j)
                           && Matches(descs[j], l) && r == Enrich(l, descs[j])
  {
    HostScanSound(descs[..m], h, p, r);
    var j, l :| 0 <= j < |descs[..m]| && l in h.devicesAt(p + j)
                && Matches(descs[..m][j], l) && r == Enrich(l, descs[..m][j]);
    assert descs[..m][j] == descs[j];
  }

  /** Every entry a scan step list adds to `acc` is a device of an enumeration made for
      a descriptor, matched by it and enriched with it, when the list is the groups of
      all descriptors, or of the first `n - 1` and what the n-th contributed by raising. */
  lemma StepListSound(descs: seq<Record>, h: Host, p: nat, n: nat, raised: bool,
                      acc: seq<Record>, list: seq<Record>, r: Record)
    requires !raised ==> list == acc + HostScan(descs, h, p)
    requires raised ==> 0 < n <= |descs|
    requires raised && 0 < n <= |descs| ==>
               list == acc + HostScan(descs[..n - 1], h, p) + RaisedStepMatches(descs[n - 1], h, p + n - 1)
    requires r in list && r !in acc
    ensures exists j, l :: 0 <= j < |descs| && l in h.devicesAt(p + j)
                           && Matches(descs[j], l) && r == Enrich(l, descs[j])
  {
    if !raised {
      HostScanSound(descs, h, p, r);
    } else {
      var front := HostScan(descs[..n - 1], h, p);
      var last := RaisedStepMatches(descs[n - 1], h, p + n - 1);
      AppendAssoc(acc, front, last);
      if r in front {
        PrefixScanSound(descs, h, p, n - 1, r);
      } else {
        RaisedStepSound(descs[n - 1], h, p + n - 1, r);
        var l :| l in h.devicesAt(p + n - 1) && Matches(descs[n - 1], l) && r == Enrich(l, descs[n - 1]);
        assert p + n - 1 == p + (n - 1);
      }
    }
  }

  /** For any host, a scan that does not raise rebuilds the device list as the
      configuration-major match list, each descriptor's group taken from its own
      enumeration. */
  lemma ScanOnHost(descs: seq<Record>, h: Host, t: seq<Event>)
    ensures var s := ScanEffect(descs, h, t);
            !s.raised ==> s.list == HostScan(descs, h, |t| + 1)
  {
    var s := ScanFromHost(descs, h, [], t + [ScanStart]);
    assert [] + HostScan(descs, h, |t| + 1) == HostScan(descs, h, |t| + 1);
  }

  /** For any host, every entry of a rebuilt device list, raising scan or not, is a
      device of the enumeration made for some descriptor that has both strings, matched
      by it and enriched with it. */
  lemma ScanOnHostSound(descs: seq<Record>, h: Host, t: seq<Event>, r: Record)
    requires r in ScanEffect(descs, h, t).list
    ensures exists j, l :: 0 <= j < |descs| && l in h.devicesAt(|t| + 1 + j)
                           && ManufacturerKey in descs[j] && ProductKey in descs[j]
                           && Matches(descs[j], l) && r == Enrich(l, descs[j])
  {
    var t0 := t + [ScanStart];
    var s := ScanFromHost(descs, h, [], t0);
    StepListSound(descs, h, |t0|, |s.trace| - |t0|, s.raised, [], s.list, r);
  }

  // ---------------------------------------------------------------------------
  // Dispatch passes

  /** A device whose configuration can be sent: it can be logged, has a path, and its
      `byte_strings` iterate over strings each of which evaluates to something
      `parse_user_buf` accepts. */
  predicate Sendable(d: Record, eval: string -> EvalOutcome) {
    && Loggable(d) && PathKey in d && ByteStringsKey in d && Iterable(d[ByteStringsKey])
    && forall v :: v in Items(d[ByteStringsKey]) ==> v.VStr? && !eval(v.s).Other?
  }

  predicate AllSendable(list: seq<Record>, eval: string -> EvalOutcome) {
    forall i :: 0 <= i < |list| ==> Sendable(list[i], eval)
  }

  /** The buffer written for one byte-string. */
  function BufferFor(text: string, eval: string -> EvalOutcome): seq<Value>
    requires !eval(text).Other?
  {
    ParseResult(eval(text), TokenCount(text)).buf
  }

  /** The writes of one device when nothing raises, independent of the host. */
  function Writes(items: seq<Value>, eval: string -> EvalOutcome): seq<Event>
    requires forall v :: v in items ==> v.VStr? && !eval(v.s).Other?
  {
    if items == [] then [] else [Write(BufferFor(items[0].s, eval))] + Writes(items[1..], eval)
  }

  /** The calls a device receives when nothing raises: open, one write per
      byte-string in order, close. */
  function Block(d: Record, eval: string -> EvalOutcome): seq<Event>
    requires Sendable(d, eval)
  {
    [Open(d[PathKey])] + Writes(Items(d[ByteStringsKey]), eval) + [Close(Handle(Some(d[PathKey])))]
  }

  /** The calls a pass makes when nothing raises: the devices' blocks, one after the
      other, in list order. */
  function Blocks(list: seq<Record>, eval: string -> EvalOutcome): seq<Event>
    requires AllSendable(list, eval)
  {
    if list == [] then [] else Block(list[0], eval) + Blocks(list[1..], eval)
  }

  /** The calls from trace position |t| on, `u`, follow the plan `t + plan` up to and
      including the first call that raises, and stop there: without a raise they are
      the whole plan and no call raised; with one, only the last call raised. */
  predicate Follows(h: Host, t: seq<Event>, plan: seq<Event>, u: seq<Event>, raised: bool) {
    && u <= t + plan
    && (!raised ==> u == t + plan)
    && (raised ==> |t| < |u| && h.failsAt(|u| - 1))
    && forall q :: |t| <= q < |u| - (if raised then 1 else 0) ==> !h.failsAt(q)
  }

  /** The writes of one device follow `Writes` up to and including the first call that
      raises, and stop there. */
  lemma {:induction false} WritesFollow(items: seq<Value>, eval: string -> EvalOutcome, h: Host, t: seq<Event>)
    requires forall v :: v in items ==> v.VStr? && !eval(v.s).Other?
    ensures var w := WritesEffect(items, eval, h, t);
            Follows(h, t, Writes(items, eval), w.trace, w.raised)
    decreases |items|
  {
    if items != [] {
      var t' := t + [Write(BufferFor(items[0].s, eval))];
      assert forall v :: v in items[1..] ==> v in items;
      WritesFollow(items[1..], eval, h, t');
      assert t + Writes(items, eval) == t' + Writes(items[1..], eval);
    }
  }

  /** One device's calls follow its block up to and including the first call that
      raises, and stop there. */
  lemma DeviceFollows(d: Record, device: Option<Handle>, eval: string -> EvalOutcome, h: Host, t: seq<Event>)
    requires Sendable(d, eval)
    ensures var p := DeviceEffect(d, device, eval, h, t);
            Follows(h, t, Block(d, eval), p.trace, p.raised)
  {
    var p := DeviceEffect(d, device, eval, h, t);
    var path := d[PathKey];
    var items := Items(d[ByteStringsKey]);
    var afterOpen := t + [Open(path)];
    var plan := Block(d, eval);
    assert t + plan == (afterOpen + Writes(items, eval)) + [Close(Handle(Some(path)))];
    if h.failsAt(|t|) {
      assert p.trace == afterOpen;
    } else {
      var w := WritesEffect(items, eval, h, afterOpen);
      WritesFollow(items, eval, h, afterOpen);
      if w.raised {
        assert p.trace == w.trace;
      } else {
        assert p.trace == w.trace + [Close(Handle(Some(path)))];
      }
    }
  }

  /** Following one plan without a raise, then a second, follows the two together. */
  lemma FollowsThen(h: Host, t: seq<Event>, a: seq<Event>, b: seq<Event>, u: seq<Event>, raised: bool)
    requires Follows(h, t, a, t + a, false) && Follows(h, t + a, b, u, raised)
    ensures Follows(h, t, a + b, u, raised)
  {
    assert t + (a + b) == (t + a) + b;
  }

  /** A pass makes exactly the calls of the devices' blocks, device after device with no
      interleaving, up to and including the first call that raises; a raise on one
      device means no later device is touched. Without a raise the pass is all blocks. */
  lemma {:induction false} PassFollowsBlocks(list: seq<Record>, device: Option<Handle>,
                                             eval: string -> EvalOutcome, h: Host, t: seq<Event>)
    requires AllSendable(list, eval)
    ensures var p := PassEffect(list, device, eval, h, t);
            Follows(h, t, Blocks(list, eval), p.trace, p.raised)
    decreases |list|
  {
    if list != [] {
      var d := list[0];
      var b0 := Block(d, eval);
      var rest := Blocks(list[1..], eval);
      assert Blocks(list, eval) == b0 + rest;
      DeviceFollows(d, device, eval, h, t);
      var p0 := DeviceEffect(d, device, eval, h, t);
      if !p0.raised {
        assert p0.trace == t + b0;
        PassFollowsBlocks(list[1..], p0.device, eval, h, p0.trace);
        var p := PassEffect(list[1..], p0.device, eval, h, p0.trace);
        FollowsThen(h, t, b0, rest, p.trace, p.raised);
      } else {
        assert t + b0 <= t + (b0 + rest);
      }
    }
  }

  /** Whether a byte-string cannot be sent: it is not a string (it has no `split`), or
      it evaluates to a value that is neither a list nor a tuple (`len` raises). */
  predicate Unsendable(v: Value, eval: string -> EvalOutcome) {
    !v.VStr? || eval(v.s).Other?
  }

  /** When the k-th byte-string is the first that cannot be sent and none of the writes
      before it raises, the device's writes are those of the first k byte-strings, and
      then it raises. */
  lemma {:induction false} WritesStopAtUnsendable(items: seq<Value>, eval: string -> EvalOutcome,
                                                  h: Host, t: seq<Event>, k: nat)
    requires k < |items| && Unsendable(items[k], eval)
    requires forall v :: v in items[..k] ==> v.VStr? && !eval(v.s).Other?
    requires forall q :: |t| <= q < |t| + k ==> !h.failsAt(q)
    ensures WritesEffect(items, eval, h, t) == Step(t + Writes(items[..k], eval), true)
    decreases k
  {
    if k == 0 {
      assert items[..0] == [];
    } else {
      assert items[0] in items[..k];
      var w := Write(BufferFor(items[0].s, eval));
      var rest := items[1..][..k - 1];
      assert rest == items[1..k];
      assert forall v :: v in rest ==> v in items[..k];
      WritesStopAtUnsendable(items[1..], eval, h, t + [w], k - 1);
      assert items[..k][0] == items[0] && items[..k][1..] == rest;
      assert Writes(items[..k], eval) == [w] + Writes(rest, eval);
      AppendAssoc(t, [w], Writes(rest, eval));
    }
  }

  /** A device that can be logged and has a path, whose k-th byte-string is the first
      that cannot be sent: when neither its open nor its first k writes raise, it is
      opened, receives those k writes and raises without being closed, and the handler
      will find that device's handle. */
  lemma DeviceStopsAtUnsendable(d: Record, device: Option<Handle>, eval: string -> EvalOutcome,
                                h: Host, t: seq<Event>, k: nat)
    requires Loggable(d) && PathKey in d && ByteStringsKey in d && Iterable(d[ByteStringsKey])
    requires k < |Items(d[ByteStringsKey])| && Unsendable(Items(d[ByteStringsKey])[k], eval)
    requires forall v :: v in Items(d[ByteStringsKey])[..k] ==> v.VStr? && !eval(v.s).Other?
    requires forall q :: |t| <= q <= |t| + k ==> !h.failsAt(q)
    ensures var p := DeviceEffect(d, device, eval, h, t);
            && p.raised
            && p.trace == t + [Open(d[PathKey])] + Writes(Items(d[ByteStringsKey])[..k], eval)
            && p.device == Some(Handle(Some(d[PathKey])))
  {
    WritesStopAtUnsendable(Items(d[ByteStringsKey]), eval, h, t + [Open(d[PathKey])], k);
  }

  /** A pass over sendable devices, then a device whose k-th byte-string is the first
      that cannot be sent, then any devices: when no call before that point raises, the
      pass makes the blocks of the sendable devices, then the open and first k writes of
      that device, and raises there. No later device is touched and no close follows. */
  lemma PassStopsAtUnsendable(prefix: seq<Record>, d: Record, rest: seq<Record>,
                               device: Option<Handle>, eval: string -> EvalOutcome,
                               h: Host, t: seq<Event>, k: nat)
    requires AllSendable(prefix, eval)
    requires Loggable(d) && PathKey in d && ByteStringsKey in d && Iterable(d[ByteStringsKey])
    requires k < |Items(d[ByteStringsKey])| && Unsendable(Items(d[ByteStringsKey])[k], eval)
    requires forall v :: v in Items(d[ByteStringsKey])[..k] ==> v.VStr? && !eval(v.s).Other?
    requires forall q :: |t| <= q <= |t| + |Blocks(prefix, eval)| + k ==> !h.failsAt(q)
    ensures var p := PassEffect(prefix + [d] + rest, device, eval, h, t);
            && p.raised
            && p.trace == t + Blocks(prefix, eval) + [Open(d[PathKey])] + Writes(Items(d[ByteStringsKey])[..k], eval)
            && p.device == Some(Handle(Some(d[PathKey])))
  {
    assert prefix + [d] + rest == prefix + ([d] + rest);
    PassAppend(prefix, [d] + rest, device, eval, h, t);
    PassFollowsBlocks(prefix, device, eval, h, t);
    var pa := PassEffect(prefix, device, eval, h, t);
    assert !pa.raised;
    DeviceStopsAtUnsendable(d, pa.device, eval, h, pa.trace, k);
    assert ([d] + rest)[0] == d;
  }

  /** A pass over two lists one after the other is the pass over the first, then, unless
      that raised, the pass over the second from where the first left off. */
  lemma {:induction false} PassAppend(a: seq<Record>, b: seq<Record>, device: Option<Handle>,
                                      eval: string -> EvalOutcome, h: Host, t: seq<Event>)
    ensures var pa := PassEffect(a, device, eval, h, t);
            PassEffect(a + b, device, eval, h, t) == if pa.raised then pa else PassEffect(b, pa.device, eval, h, pa.trace)
    decreases |a|
  {
    if a == [] {
      assert a + b == b;
    } else {
      assert (a + b)[0] == a[0] && (a + b)[1..] == a[1..] + b;
      var p0 := DeviceEffect(a[0], device, eval, h, t);
      if !p0.raised {
        PassAppend(a[1..], b, p0.device, eval, h, p0.trace);
      }
    }
  }

  /** A sendable device none of whose calls raises receives its whole block, and the
      handle is left on it. */
  lemma DeviceCompletes(d: Record, device: Option<Handle>, eval: string -> EvalOutcome, h: Host, t: seq<Event>)
    requires Sendable(d, eval)
    requires forall q :: |t| <= q < |t| + |Block(d, eval)| ==> !h.failsAt(q)
    ensures var p := DeviceEffect(d, device, eval, h, t);
            !p.raised && p.trace == t + Block(d, eval) && p.device == Some(Handle(Some(d[PathKey])))
  {
    DeviceFollows(d, device, eval, h, t);
  }

  /** A loggable device with a path but without an iterable `byte_strings` is opened, and then
      the pass raises with the handle on that device. */
  lemma MissingByteStringsAborts(d: Record, device: Option<Handle>, eval: string -> EvalOutcome, h: Host, t: seq<Event>)
    requires IsEnumerated(d) && (ByteStringsKey !in d || !Iterable(d[ByteStringsKey]))
    ensures var p := DeviceEffect(d, device, eval, h, t);
            p.raised && p.trace == t + [Open(d[PathKey])] && p.device == Some(Handle(Some(d[PathKey])))
  {
  }

  /** A string `byte_strings` is iterated character by character: each character is a
      byte-string of its own, and the size requested for it is 1 (it holds no comma) or
      2 (it is one). A character whose evaluation fails is written as the empty buffer.
      (A single character never evaluates to a list or tuple: a digit gives a number, so
      the device raises at it, as `WritesStopAtUnsendable` states.) */
  lemma StringByteStringsPerCharacter(text: string, eval: string -> EvalOutcome)
    requires forall c :: c in text ==> !eval([c]).Other?
    ensures forall v :: v in Items(VStr(text)) ==> v.VStr? && !eval(v.s).Other?
    ensures |Writes(Items(VStr(text)), eval)| == |text|
    ensures forall k :: 0 <= k < |text| ==>
              Writes(Items(VStr(text)), eval)[k] == Write(BufferFor([text[k]], eval))
              && TokenCount([text[k]]) == if text[k] == ',' then 2 else 1
    ensures forall k :: 0 <= k < |text| && eval([text[k]]).Fail? ==> BufferFor([text[k]], eval) == []
  {
    var items := Items(VStr(text));
    assert forall v :: v in items ==> exists k :: 0 <= k < |text| && v == VStr([text[k]]);
    WritesPointwise(items, eval);
    forall k | 0 <= k < |text|
      ensures TokenCount([text[k]]) == if text[k] == ',' then 2 else 1
    {
      assert multiset([text[k]])[','] == if text[k] == ',' then 1 else 0;
    }
  }

  /** The writes of a device are the buffers of its byte-strings, position by position. */
  lemma {:induction false} WritesPointwise(items: seq<Value>, eval: string -> EvalOutcome)
    requires forall v :: v in items ==> v.VStr? && !eval(v.s).Other?
    ensures |Writes(items, eval)| == |items|
    ensures forall k :: 0 <= k < |items| ==> Writes(items, eval)[k] == Write(BufferFor(items[k].s, eval))
    decreases |items|
  {
    if items != [] {
      assert forall v :: v in items[1..] ==> v in items;
      WritesPointwise(items[1..], eval);
    }
  }

  /** The calls made from trace position `from` on are all opens, writes and closes. */
  predicate TransportOnly(t: seq<Event>, from: nat) {
    forall q :: from <= q < |t| ==> t[q].Open? || t[q].Write? || t[q].Close?
  }

  /** A pass makes only open, write and close calls. */
  lemma {:induction false} PassCallsOnly(list: seq<Record>, device: Option<Handle>,
                                         eval: string -> EvalOutcome, h: Host, t: seq<Event>)
    ensures TransportOnly(PassEffect(list, device, eval, h, t).trace, |t|)
    decreases |list|
  {
    if list != [] {
      var p0 := DeviceEffect(list[0], device, eval, h, t);
      DeviceCallsOnly(list[0], device, eval, h, t);
      if !p0.raised {
        PassCallsOnly(list[1..], p0.device, eval, h, p0.trace);
        var p := PassEffect(list[1..], p0.device, eval, h, p0.trace);
        assert p0.trace <= p.trace;
        assert forall q :: |t| <= q < |p0.trace| ==> p.trace[q] == p0.trace[q];
      }
    }
  }

  lemma DeviceCallsOnly(d: Record, device: Option<Handle>, eval: string -> EvalOutcome, h: Host, t: seq<Event>)
    ensures TransportOnly(DeviceEffect(d, device, eval, h, t).trace, |t|)
  {
    if Loggable(d) && PathKey in d {
      var path := d[PathKey];
      var afterOpen := t + [Open(path)];
      assert afterOpen[|t|] == Open(path);
      if !h.failsAt(|t|) && ByteStringsKey in d && Iterable(d[ByteStringsKey]) {
        var items := Items(d[ByteStringsKey]);
        var w := WritesEffect(items, eval, h, afterOpen);
        WritesOnly(items, eval, h, afterOpen);
        assert w.trace[|t|] == Open(path);
        if !w.raised {
          var closed := w.trace + [Close(Handle(Some(path)))];
          assert closed[|w.trace|].Close?;
          assert forall q :: |t| <= q < |w.trace| ==> closed[q] == w.trace[q];
        }
      }
    }
  }

  predicate WritesOnlyFrom(t: seq<Event>, from: nat) {
    forall q :: from <= q < |t| ==> t[q].Write?
  }

  lemma {:induction false} WritesOnly(items: seq<Value>, eval: string -> EvalOutcome, h: Host, t: seq<Event>)
    ensures WritesOnlyFrom(WritesEffect(items, eval, h, t).trace, |t|)
    decreases |items|
  {
    if items != [] && items[0].VStr? {
      match ParseResult(eval(items[0].s), TokenCount(items[0].s))
      case LengthError =>
      case Parsed(buf) =>
        var t' := t + [Write(buf)];
        assert t'[|t|] == Write(buf);
        if !h.failsAt(|t|) {
          WritesOnly(items[1..], eval, h, t');
          var w := WritesEffect(items[1..], eval, h, t');
          assert WritesEffect(items, eval, h, t) == w;
          assert w.trace[|t|] == Write(buf);
        }
    }
  }

  // ---------------------------------------------------------------------------
  // Cycles and the loop

  /** A cycle scans exactly when its counter is even: then its first call is the scan;
      on an odd counter it neither scans nor enumerates. A cycle that carries on has
      counted one up and keeps the device list the scan produced (or the old one). */
  lemma CycleScansOnEvenCounter(list: seq<Record>, ms: int, descs: seq<Record>,
                                eval: string -> EvalOutcome, h: Host, s: LoopState)
    ensures var c := CycleEffect(list, ms, descs, eval, h, s);
            var t' := if c.Continue? then c.next.trace else c.last.trace;
            && (s.counter % 2 == 0 ==> |t'| > |s.trace| && t'[|s.trace|] == ScanStart)
            && (s.counter % 2 == 1 ==> forall q :: |s.trace| <= q < |t'| ==> t'[q] != ScanStart && t'[q] != Enumerate)
            && (c.Continue? ==> c.next.counter == s.counter + 1)
            && (c.Continue? ==>
                  c.next.deviceList == (if s.counter % 2 == 0 then ScanEffect(descs, h, s.trace).list else s.deviceList))
  {
    var sc, p := CycleSplit(list, ms, descs, eval, h, s);
    if s.counter % 2 == 0 {
      assert (s.trace + [ScanStart])[|s.trace|] == ScanStart;
    } else {
      PassCallsOnly(list, s.device, eval, h, s.trace);
    }
  }

  /** No call in positions [from, to) of the trace is a sleep. */
  predicate NoSleep(t: seq<Event>, from: nat, to: nat) {
    forall q :: from <= q < to && q < |t| ==> !t[q].Sleep?
  }

  /** With a period `sleep` accepts, a cycle sleeps exactly once, at its very end,
      unless the error handler's close raises, in which case it does not sleep. With a
      period `sleep` refuses the sleep raises and the cycle ends the loop with an exception. */
  lemma CycleSleepsOnce(list: seq<Record>, ms: int, descs: seq<Record>,
                        eval: string -> EvalOutcome, h: Host, s: LoopState)
    ensures var c := CycleEffect(list, ms, descs, eval, h, s);
            var t' := if c.Continue? then c.next.trace else c.last.trace;
            && (!SleepRaises(ms) && c.Ended? && c.end == Crashed ==> NoSleep(t', |s.trace|, |t'|))
            && (!SleepRaises(ms) && !(c.Ended? && c.end == Crashed) ==>
                  t'[|t'| - 1] == Sleep(ms) && NoSleep(t', |s.trace|, |t'| - 1))
            && (SleepRaises(ms) ==> c.Ended? && c.end == Crashed)
  {
    var sc, p := CycleSplit(list, ms, descs, eval, h, s);
    ScanNoSleep(descs, h, s, sc);
    if !sc.raised {
      PassCallsOnly(list, s.device, eval, h, sc.trace);
    }
    assert NoSleep(p.trace, |s.trace|, |p.trace|);
    var st := LoopState(if sc.raised then s.counter else s.counter + 1, p.device, sc.list, p.trace);
    if p.raised {
      RecoverNoSleep(st, ms, h, |s.trace|);
    } else {
      var u := p.trace + [Sleep(ms)];
      assert NoSleep(u, |s.trace|, |u| - 1);
    }
  }

  /** The scan step of a cycle (or its absence) makes no sleep. */
  lemma ScanNoSleep(descs: seq<Record>, h: Host, s: LoopState, sc: ScanStep)
    requires sc == if s.counter % 2 == 0 then ScanEffect(descs, h, s.trace) else ScanStep(s.deviceList, s.trace, false)
    ensures s.trace <= sc.trace && NoSleep(sc.trace, |s.trace|, |sc.trace|)
  {
    if s.counter % 2 == 0 {
      ScanFromTrace(descs, h, [], s.trace + [ScanStart]);
      assert (s.trace + [ScanStart])[|s.trace|] == ScanStart;
    }
  }

  /** The error handler adds at most its one sleep, as its last call, and none when
      its close raises. It ends the loop with a `break` exactly when neither its close
      nor its sleep raises. */
  lemma RecoverNoSleep(s: LoopState, ms: int, h: Host, from: nat)
    requires NoSleep(s.trace, from, |s.trace|)
    ensures var c := RecoverEffect(s, ms, h);
            var closeRaised := s.device.Some? && h.failsAt(|s.trace|);
            && (closeRaised ==> NoSleep(c.last.trace, from, |c.last.trace|))
            && (!closeRaised ==> c.last.trace[|c.last.trace| - 1] == Sleep(ms)
                                 && NoSleep(c.last.trace, from, |c.last.trace| - 1))
            && (c.end == Stopped <==> !closeRaised && !SleepRaises(ms))
  {
    var c := RecoverEffect(s, ms, h);
    assert forall q :: 0 <= q < |s.trace| ==> c.last.trace[q] == s.trace[q];
  }

  /** An error ends the loop after closing the last device handle created, if any (after
      an exception in the rescan that is the last device of an earlier cycle, already
      closed), and one sleep; the cycle's last calls are that close and that sleep. A
      raising close ends it there; a period `sleep` refuses makes it raise, so the
      exception escapes the loop. */
  lemma CycleErrorRecovery(list: seq<Record>, ms: int, descs: seq<Record>,
                           eval: string -> EvalOutcome, h: Host, s: LoopState)
    ensures var c := CycleEffect(list, ms, descs, eval, h, s);
            c.Ended? ==>
              && c.end != OutOfCycles
              && (c.last.device.None? ==>
                    c.last.trace[|c.last.trace| - 1] == Sleep(ms) && (c.end == Stopped <==> !SleepRaises(ms)))
              && (c.last.device.Some? && c.end == Stopped ==>
                    c.last.trace[|c.last.trace| - 2..] == [Close(c.last.device.value), Sleep(ms)])
              && (c.end == Crashed && !SleepRaises(ms) ==>
                    c.last.device.Some? && c.last.trace[|c.last.trace| - 1] == Close(c.last.device.value)
                    && h.failsAt(|c.last.trace| - 1))
              && (SleepRaises(ms) ==> c.end == Crashed)
  {
    var st, raised := CycleEndsInTail(list, ms, descs, eval, h, s);
    TailErrorRecovery(ms, h, st, raised);
  }

  /** Every cycle ends in its tail, from the state its scan and pass left. */
  lemma CycleEndsInTail(list: seq<Record>, ms: int, descs: seq<Record>,
                        eval: string -> EvalOutcome, h: Host, s: LoopState)
    returns (st: LoopState, raised: bool)
    ensures CycleEffect(list, ms, descs, eval, h, s) == CycleTail(ms, h, st, raised)
  {
    var sc, p := CycleSplit(list, ms, descs, eval, h, s);
    st, raised := LoopState(if sc.raised then s.counter else s.counter + 1, p.device, sc.list, p.trace), p.raised;
  }

  /** A cycle is its scan, its pass and its tail. */
  lemma CycleSplit(list: seq<Record>, ms: int, descs: seq<Record>, eval: string -> EvalOutcome,
                   h: Host, s: LoopState)
    returns (sc: ScanStep, p: PassStep)
    ensures sc == if s.counter % 2 == 0 then ScanEffect(descs, h, s.trace) else ScanStep(s.deviceList, s.trace, false)
    ensures p == if sc.raised then PassStep(s.device, sc.trace, true) else PassEffect(list, s.device, eval, h, sc.trace)
    ensures CycleEffect(list, ms, descs, eval, h, s)
            == CycleTail(ms, h, LoopState(if sc.raised then s.counter else s.counter + 1, p.device, sc.list, p.trace), p.raised)
  {
    sc := if s.counter % 2 == 0 then ScanEffect(descs, h, s.trace) else ScanStep(s.deviceList, s.trace, false);
    p := if sc.raised then PassStep(s.device, sc.trace, true) else PassEffect(list, s.device, eval, h, sc.trace);
  }

  /** The error recovery of a cycle is that of its end. */
  lemma TailErrorRecovery(ms: int, h: Host, st: LoopState, raised: bool)
    ensures var c := CycleTail(ms, h, st, raised);
            c.Ended? ==>
              && c.end != OutOfCycles
              && (c.last.device.None? ==>
                    c.last.trace[|c.last.trace| - 1] == Sleep(ms) && (c.end == Stopped <==> !SleepRaises(ms)))
              && (c.last.device.Some? && c.end == Stopped ==>
                    c.last.trace[|c.last.trace| - 2..] == [Close(c.last.device.value), Sleep(ms)])
              && (c.end == Crashed && !SleepRaises(ms) ==>
                    c.last.device.Some? && c.last.trace[|c.last.trace| - 1] == Close(c.last.device.value)
                    && h.failsAt(|c.last.trace| - 1))
              && (SleepRaises(ms) ==> c.end == Crashed)
  {
  }

  /** The list a cycle dispatches is the loop's argument whatever the rescan found: the
      cycle's calls after the scan follow the blocks of `list`. */
  lemma CycleDispatchesArgument(list: seq<Record>, ms: int, descs: seq<Record>,
                                eval: string -> EvalOutcome, h: Host, s: LoopState)
    requires AllSendable(list, eval)
    ensures var sc := if s.counter % 2 == 0 then ScanEffect(descs, h, s.trace) else ScanStep(s.deviceList, s.trace, false);
            var c := CycleEffect(list, ms, descs, eval, h, s);
            c.Continue? ==> !sc.raised && c.next.trace == sc.trace + Blocks(list, eval) + [Sleep(ms)]
  {
    var sc := if s.counter % 2 == 0 then ScanEffect(descs, h, s.trace) else ScanStep(s.deviceList, s.trace, false);
    if !sc.raised {
      PassFollowsBlocks(list, s.device, eval, h, sc.trace);
    }
  }

  /** A cycle keeps the controller's device list loggable: it either keeps it or
      replaces it by a scan that starts from the empty list. */
  lemma CycleKeepsLoggable(list: seq<Record>, ms: int, descs: seq<Record>,
                           eval: string -> EvalOutcome, h: Host, s: LoopState)
    ensures var c := CycleEffect(list, ms, descs, eval, h, s);
            AllLoggable(s.deviceList) ==>
              AllLoggable(if c.Continue? then c.next.deviceList else c.last.deviceList)
  {
    if s.counter % 2 == 0 {
      ScanKeepsLoggable(descs, h, [], s.trace + [ScanStart]);
    }
  }

  /** The supervisor never ends on its own after a `break`: it ends only when an
      exception escapes or the budget is spent. */
  lemma {:induction false} RunsNeverStop(descs: seq<Record>, ms: int, eval: string -> EvalOutcome, h: Host,
                                         deviceList: seq<Record>, t: seq<Event>, fuel: nat)
    ensures RunsEffect(descs, ms, eval, h, deviceList, t, fuel).end != Stopped
    decreases fuel
  {
    if fuel > 0 {
      var r := LoopEffect(deviceList, ms, descs, eval, h, LoopState(0, None, deviceList, t), fuel);
      if r.end == Stopped {
        RunsNeverStop(descs, ms, eval, h, r.last.deviceList, r.last.trace, r.fuelLeft);
      }
    }
  }
}
