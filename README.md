# HID helper controller — a Dafny model

`hid_helpers.py` drives USB HID devices from a configuration file. `HIDController`
does three things:

- it scans the host's HID enumeration against configured descriptors;
- it enriches each matched live device with the descriptor's fields (notably its
  `byte_strings`);
- it runs a polling loop. Every other cycle the loop rescans. Every cycle it opens each
  device of its list, writes one report per configured byte-string and closes it, then
  sleeps. Any exception closes the last device handle, sleeps once and leaves the
  loop. `start` performs an initial scan and restarts the loop for ever.

This project models that core in five modules:

- `Values` (values.dfy): configuration and enumeration values. A record is a
  `map<string, Value>`; values are integers, strings, lists or null.
- `ReportBuffer` (report_buffer.dfy): `parse_user_buf`, as a method that fills an
  array. It also models `str.split(',')`, which sizes each buffer.
- `Matcher` (matcher.dfy): matching and enrichment, as functions with their lemmas.
  `EnrichRecord` is the key-by-key enrichment loop. `ScanResult` is the scan against one
  unchanging enumeration (the groups of the descriptors, in configuration order);
  `Dispatch.HostScan` generalises it to a fresh enumeration per descriptor.
- `Dispatch` (dispatch.dfy): the specification of the scan, the per-device report
  sequence, the pass over a list, the error handler, one polling cycle, the bounded
  reporter loop and the supervisor. Each is a function producing the trace: the calls
  made to the host (enumerate, open, write, close), plus each scan's start log line
  and each sleep, which are not host calls. The lemmas state the properties of these
  traces. `HostScan` is the configuration-major match list of a scan in which each
  descriptor gets its own enumeration, which may differ from the others.
- `Controller` (controller.dfy): class `HIDController`. It holds the configured
  descriptors, the polling period, the mutable `deviceList` and the `trace`. Its
  methods are the imperative scan, report, pass, cycle, reporter loop and supervisor.
  Each is proved to produce exactly the state the matching `Dispatch` function
  describes.

The host is a value `Host(devicesAt, failsAt)`:

- `devicesAt(p)` is what an enumeration made at trace position `p` returns;
- `failsAt(p)` says whether the enumerate, open, write or close call at position `p`
  raises.

So every possible enumeration and failure pattern is covered by one universally
quantified parameter. The evaluation of configured text is a parameter
`eval: string -> EvalOutcome`. Its outcome is a failure, a list or tuple of values,
or some other value.

Behaviour of the code worth knowing:

- Scan results are configuration-major: grouped by descriptor, in enumeration order
  within a group. The host is enumerated afresh for each descriptor, so a device that
  matches two descriptors appears twice. It is not "first match wins".
- `parse_user_buf` does not coerce text elements to 0. Its string-to-0 loop inspects
  the zero-filled buffer, so parsed elements are copied unchanged.
- A parse result that is not a list or tuple is only logged; it does not return `[]`.
  `len` then raises, outside the `try` (modelled as `LengthError`). In the loop that
  exception reaches the error handler like a transport error.
- A rescan inside the reporter loop rebinds `self.device_list`. The loop keeps
  dispatching its argument, so a rescan changes what is sent only after the loop ends
  and `start` calls it again with the new list.
- `sleep` refuses a negative period, and one of 2^63 nanoseconds or more (over
  `MaxSleepMs` milliseconds) overflows. The cycle's sleep then raises inside the `try`, so
  the handler runs; the handler's own sleep raises again, and that exception leaves the
  loop and `start`.
- The error handler closes the last handle created by any device, if any. That handle
  may already be closed, or may never have been opened: it was created for a record
  without a `path`.
- Missing fields raise `KeyError`. The log lines at hid_helpers.py:70 and :98 read six
  fields, and the match test reads both strings of the live device. `scan_devices`
  catches only `KeyboardInterrupt`. So a raising enumeration or lookup ends the scan
  with the list built so far. In the loop that exception goes to the handler; in
  `start`'s first scan it escapes.

## Model

| member | source | states |
|---|---|---|
| ReportBuffer.Zeros | hid_helpers.py:19 | the initial buffer has exactly `n` entries, all 0 |
| ReportBuffer.Padded | hid_helpers.py:32-34 | exactly `size` entries; each position below both `size` and the parsed length holds the parsed element; every later position holds 0 |
| ReportBuffer.ParseResult | hid_helpers.py:18-34 | a failed evaluation gives the empty buffer; a list or tuple gives exactly `size` entries, the parsed element where one exists and 0 after it; the length error comes exactly from a value that is neither |
| ReportBuffer.ParseUserBuf | hid_helpers.py:18-34 | the result matches `ParseResult`. A failed evaluation gives the empty buffer whatever the size. Any other non-list value (and only such a value) gives the length error. A list or tuple gives exactly `bufferSize` entries: the parsed element where one exists, else 0 |
| ReportBuffer.Split | hid_helpers.py:103 | splitting always yields at least one piece (the empty text gives one) |
| ReportBuffer.SplitCount | hid_helpers.py:103 | the piece count is the separator count plus one |
| ReportBuffer.SplitPiecesFree | hid_helpers.py:103 | no piece contains the separator |
| ReportBuffer.JoinSplit | hid_helpers.py:103 | joining the pieces with the separator gives back the original text |
| ReportBuffer.TokenCount | hid_helpers.py:102-103 | the buffer size for a byte-string is its comma count plus one, so a trailing comma adds a zero slot |
| ReportBuffer.ParseExamples | hid_helpers.py:18-34 | worked cases: "1,2,3" gives [1,2,3]; [1,2] sized 5 is zero-padded; [1,2,3,4] sized 2 is truncated; a failed evaluation gives [] |
| Matcher.Matches | hid_helpers.py:64-67 | a match needs both strings in the descriptor; for a complete enumeration record it holds exactly when the descriptor has both strings and both equal the record's |
| Matcher.LookupFails | hid_helpers.py:65-70 | a check raises only for a descriptor with a manufacturer string and a live record missing a log field; for a matching device it raises exactly when the record lacks a log field; a complete enumeration record never raises |
| Matcher.FirstLookupFailure | hid_helpers.py:64-70 | the position of the first live device whose match test or match log line raises on a missing field: every earlier device passes, and the device there (if any) raises |
| Matcher.EnumeratedNeverFails | hid_helpers.py:64-70 | live records carrying every enumeration field never make the match test raise |
| Matcher.Enrich | hid_helpers.py:71-77 | the enriched record's keys are the live keys plus the descriptor keys; every live field keeps its value; every added field has the descriptor's value |
| Matcher.EnrichRecord | hid_helpers.py:71-77 | the key-by-key loop that adds each missing descriptor field equals `Enrich` |
| Matcher.Group | hid_helpers.py:63-78 | a descriptor contributes no more entries than there are live devices |
| Matcher.GroupSound | hid_helpers.py:63-78 | every entry of a descriptor's group is a live device it matches, enriched with it |
| Matcher.GroupComplete | hid_helpers.py:63-78 | every live device the descriptor matches appears, enriched, in its group |
| Matcher.GroupNeedsBothStrings | hid_helpers.py:64-67 | a descriptor lacking the manufacturer string or the product string matches nothing |
| Matcher.MatchIgnoresIds | hid_helpers.py:64-67 | changing the vendor or product id, on either side, does not change whether a device matches |
| Matcher.GroupLoggable | hid_helpers.py:68-70 | every entry kept from devices whose tests did not raise carries all six log fields |
| Matcher.ScanSound | hid_helpers.py:62-78 | every scan entry is some live device matched by some configured descriptor, enriched with it; its manufacturer and product strings are those of a descriptor that has both |
| Matcher.ScanEntriesEnumerated | hid_helpers.py:62-78 | complete enumeration records stay complete after enrichment |
| Matcher.ScanMultiplicity | hid_helpers.py:62-63 | a scan of a one-device enumeration holds that device once per descriptor it matches |
| Matcher.ScanResultSplit | hid_helpers.py:62-78 | the scan of two enumerations one after the other holds, up to order, exactly the entries of the scans of each |
| Matcher.ScanResultLength | hid_helpers.py:62-78 | (proof helper) the scan of two enumerations one after the other is as long as their two scans together |
| Matcher.ScanSize | hid_helpers.py:62-78 | the length of a scan of any enumeration is the sum, over the live devices, of the number of descriptors each matches (`TotalMatches`) |
| Matcher.ScanOfNothing | hid_helpers.py:62-63 | an empty enumeration gives an empty scan |
| Matcher.GroupExtend | hid_helpers.py:63-78 | (proof helper) the group of a one-longer prefix of the enumeration adds exactly that device when it matches |
| Matcher.ScanResultConcat | hid_helpers.py:60-63 | the scan of two descriptor lists one after the other is the first list's scan followed by the second's |
| Matcher.ScanResultAppend | hid_helpers.py:60-63 | one more descriptor appends exactly its group at the end (configuration-major order) |
| Matcher.EnrichIdempotent | hid_helpers.py:71-77 | enriching twice with the same descriptor changes nothing |
| Matcher.GroupAppend | hid_helpers.py:63-78 | the group of a concatenated enumeration is the concatenation of the groups (enumeration order is kept) |
| Matcher.GroupIdempotent | hid_helpers.py:63-78 | matching a group against its descriptor again gives the same group |
| Matcher.AcmeWidgetExample | hid_helpers.py:64-77 | a concrete match whatever the vendor ids; the entry gains the descriptor's byte-strings and keeps its own vendor id |
| Dispatch.PollingMs | hid_helpers.py:123-124 | the configured period, or 2000 ms when none is configured |
| Dispatch.ScanEffect | hid_helpers.py:57-80 | a scan starts with its log line, then makes one enumeration per descriptor when nothing raises, and at least one and at most that many when one raises |
| Dispatch.ScanFrom | hid_helpers.py:62-78 | a scan makes at most one call per descriptor, exactly one each when nothing raises, and at least one call when something raises |
| Dispatch.WritesEffect | hid_helpers.py:101-104 | the writes only extend the trace |
| Dispatch.Items | hid_helpers.py:101 | iterating a list visits its elements; iterating a string visits its characters, each as a one-character string |
| Dispatch.DeviceEffect | hid_helpers.py:97-105 | a record missing a log field raises before any call and keeps the old handle; one without a path raises with a new, unopened handle; otherwise the device's first call is the open of its path and the handle is that path's |
| Dispatch.PassEffect | hid_helpers.py:96-105 | a pass only extends the trace |
| Dispatch.RecoverEffect | hid_helpers.py:109-115 | the handler always ends the loop and only extends the trace |
| Dispatch.CycleEffect | hid_helpers.py:92-115 | a cycle only extends the trace |
| Dispatch.CycleTail | hid_helpers.py:106-115 | a cycle goes on exactly when neither its scan and pass nor its sleep raised, and then its only further step is that sleep |
| Dispatch.LoopEffect | hid_helpers.py:85-115 | the loop only extends the trace and spends at least one cycle per call when it has any; a loop that uses its whole budget has counted up by exactly one per cycle |
| Dispatch.NextCycle | hid_helpers.py:91-115 | a loop with cycles left runs one and spends at least one cycle; one that uses its whole budget has counted up by one per cycle |
| Dispatch.LoopAdvance | hid_helpers.py:91-115 | (proof helper) a cycle from one state to the next leaves the rest of the loop to the next state with one cycle fewer, or ends the loop there |
| Dispatch.LoopUnfold | hid_helpers.py:91-115 | (proof helper) the loop with budget is one cycle, then the loop with one cycle fewer unless the cycle ended it |
| Dispatch.RunsEffect | hid_helpers.py:119-125 | the supervisor only extends the trace |
| Dispatch.StartEffect | hid_helpers.py:117-125 | `start` begins with a scan's log line and never ends after a `break` |
| Dispatch.ScanFromStable | hid_helpers.py:60-78 | with an unchanging, complete enumeration, the list at the end of a scan is the groups of the descriptors whose enumeration ran without raising |
| Dispatch.ScanStable | hid_helpers.py:57-78 | with an unchanging, complete enumeration, a scan that does not raise rebuilds the device list as the configuration-major match list; one that raises keeps the groups of the descriptors before it |
| Dispatch.HostScanCons | hid_helpers.py:62-63 | (proof helper) the groups of a prefix of the descriptors are the first descriptor's group, then the groups of the rest of the prefix from the next enumeration |
| Dispatch.HostScanStable | hid_helpers.py:62-63 | when every enumeration returns the same list, the per-enumeration match list `HostScan` is the scan of that one list |
| Dispatch.HostScanSound | hid_helpers.py:62-78 | every entry of `HostScan` is a device of the enumeration made for some descriptor, matched by that descriptor and enriched with it |
| Dispatch.ScanFromHost | hid_helpers.py:60-78 | for any host, a scan that does not raise appends `HostScan`: each descriptor's group, in configuration order, from its own fresh enumeration; one that raises appends the groups of the descriptors before the raising one, then nothing if its enumerate raised or the matches before the device whose lookup raised |
| Dispatch.RaisedStepSound | hid_helpers.py:63-78 | every entry kept by the step that raised is a device of that step's enumeration, matched and enriched |
| Dispatch.PrefixScanSound | hid_helpers.py:62-78 | (proof helper) every entry of the groups of the first descriptors is a device of the enumeration made for one of them, matched and enriched |
| Dispatch.StepListSound | hid_helpers.py:62-78 | (proof helper) every entry a scan adds, in either of the shapes `ScanFromHost` gives, is a device of the enumeration made for some descriptor, matched and enriched |
| Dispatch.StableStepList | hid_helpers.py:60-78 | (proof helper) with an unchanging, complete enumeration, either shape `ScanFromHost` gives is the scan of the descriptors whose steps completed |
| Dispatch.ScanOnHost | hid_helpers.py:57-78 | for any host, a scan that does not raise rebuilds the device list as exactly `HostScan`: the configuration-major match list, each descriptor's group from the enumeration made for it |
| Dispatch.ScanOnHostSound | hid_helpers.py:57-78 | for any host, every entry of the rebuilt device list, whether the scan raised or not, is a device of the enumeration made for some descriptor that has both strings, matched by it and enriched with it |
| Dispatch.SleepRaises | hid_helpers.py:106-114 | `sleep` refuses every negative period and accepts the default period and every period from 0 up to a year |
| Dispatch.ScanFromTrace | hid_helpers.py:62-63 | a scan makes one enumerate per descriptor, in order, and stops exactly at the first descriptor whose enumerate or lookups raise |
| Dispatch.ScanKeepsLoggable | hid_helpers.py:62-78 | whatever the host returns, every entry a scan adds carries all six log fields |
| Dispatch.WritesFollow | hid_helpers.py:101-104 | when every byte-string is a string whose evaluation is a list, a tuple or a failure, a device's writes are one per byte-string, in order, each of that byte-string's buffer; they stop at the first raising write, and no earlier call raised |
| Dispatch.DeviceFollows | hid_helpers.py:97-105 | a sendable device's calls are open, its writes and close, in that order, cut at the first raising call |
| Dispatch.PassFollowsBlocks | hid_helpers.py:96-105 | for a list of sendable devices, a pass makes the devices' open-writes-close blocks one device after another, in list order with no interleaving, cut at the first raising call; without a raise it is all of them |
| Dispatch.WritesStopAtUnsendable | hid_helpers.py:101-104 | when the k-th byte-string is the first that is not a string, or evaluates to a value that is neither a list nor a tuple (a failed evaluation is sent as `[]`), and no earlier write raises, the device gets the writes of the first k byte-strings and then raises |
| Dispatch.DeviceStopsAtUnsendable | hid_helpers.py:97-105 | a loggable device with a path whose k-th byte-string is the first that cannot be sent, with no raising open or write before it: its calls are the open and those k writes, with no close, and the pass raises holding that device's handle |
| Dispatch.PassStopsAtUnsendable | hid_helpers.py:96-105 | sendable devices, then such a device, then any others: the pass makes the sendable devices' blocks, then that device's open and first k writes, and raises there holding its handle; no later device is touched |
| Dispatch.PassAppend | hid_helpers.py:96-105 | a pass over two lists one after the other is the pass over the first, then, unless that raised, the pass over the second from where the first left off |
| Dispatch.DeviceCompletes | hid_helpers.py:97-105 | a sendable device none of whose calls raises receives its whole block and leaves the handle on itself |
| Dispatch.MissingByteStringsAborts | hid_helpers.py:99-101 | a loggable device with a path but a missing or non-iterable `byte_strings` is opened and then raises, holding that device's handle |
| Dispatch.StringByteStringsPerCharacter | hid_helpers.py:101-103 | a string-valued `byte_strings` is iterated character by character, one write planned per character, with the size requested for each character 2 for a comma and 1 otherwise; a character whose evaluation fails is written as `[]`. No single character evaluates to a list or tuple, so in the program each such write is `[]`, or the device raises at its first digit (`WritesStopAtUnsendable`) |
| Dispatch.WritesPointwise | hid_helpers.py:101-104 | the k-th write is the buffer parsed from the k-th byte-string |
| Dispatch.PassCallsOnly | hid_helpers.py:96-105 | a pass makes only open, write and close calls |
| Dispatch.DeviceCallsOnly | hid_helpers.py:97-105 | one device makes only open, write and close calls |
| Dispatch.WritesOnly | hid_helpers.py:101-104 | the report loop of a device makes only write calls |
| Dispatch.CycleScansOnEvenCounter | hid_helpers.py:93-96 | a cycle with an even counter starts with a scan; with an odd counter it neither scans nor enumerates. A cycle that goes on has counted up by one, and its device list is the rescan's (even) or the old one (odd) |
| Dispatch.CycleSleepsOnce | hid_helpers.py:106-114 | with a period `sleep` accepts, a cycle sleeps exactly once, as its last call, unless the handler's close raises, in which case it does not sleep; with a period `sleep` refuses the cycle ends the loop with an exception |
| Dispatch.ScanNoSleep | hid_helpers.py:93-94 | the scan part of a cycle makes no sleep |
| Dispatch.RecoverNoSleep | hid_helpers.py:109-115 | the handler adds at most one sleep, as its last call, and none when its close raises; it ends with a `break` exactly when neither its close nor its sleep raises |
| Dispatch.CycleErrorRecovery | hid_helpers.py:106-115 | an error ends the loop. Without a handle the last call is one sleep. With one, a loop that ends with `break` ends with close of that handle then sleep. If that close raises, the exception escapes and the close is the last call. A period `sleep` refuses always makes the loop end with an exception |
| Dispatch.TailErrorRecovery | hid_helpers.py:106-115 | (proof helper) the same error recovery, for the end of a cycle from any state |
| Dispatch.CycleSplit | hid_helpers.py:92-115 | (proof helper) a cycle is its scan, then its pass unless the scan raised, then its tail |
| Dispatch.CycleEndsInTail | hid_helpers.py:92-115 | (proof helper) every cycle is the tail from some state |
| Dispatch.CycleDispatchesArgument | hid_helpers.py:93-106 | for a list of sendable devices, a completed cycle's calls after the scan are exactly the blocks of the loop's argument list followed by one sleep, whatever the rescan found |
| Dispatch.CycleKeepsLoggable | hid_helpers.py:93-94 | a cycle keeps every entry of the controller's device list loggable |
| Dispatch.RunsNeverStop | hid_helpers.py:117-125 | the supervisor never ends after a `break`: only an escaping exception or the spent budget ends it |
| Controller.HIDController.constructor | hid_helpers.py:11-16 | a new controller has the given configuration, an empty device list and no calls made |
| Controller.HIDController.ScanDevices | hid_helpers.py:57-80 | the device list, the trace and the raised flag are exactly those of `ScanEffect` from the old trace: reset, then one enumeration and its matches per descriptor until something raises |
| Controller.HIDController.AppendMatches | hid_helpers.py:63-78 | the inner loop appends the enriched matches of the live devices before the first failing lookup, and reports failure exactly when such a lookup exists |
| Controller.HIDController.SendReports | hid_helpers.py:97-105 | the handle, trace and failure flag are exactly those of `DeviceEffect` |
| Controller.HIDController.DispatchPass | hid_helpers.py:96-105 | the handle, trace and failure flag are exactly those of `PassEffect` over the given list |
| Controller.HIDController.Recover | hid_helpers.py:109-115 | the trace and the escape flag are exactly those of `RecoverEffect`: a raising close escapes before the sleep, a refused sleep after it |
| Controller.HIDController.Cycle | hid_helpers.py:92-115 | the counter, handle, device list, trace and end are exactly those of `CycleEffect` |
| Controller.HIDController.FinishCycle | hid_helpers.py:106-115 | the trace and the end are exactly those of `CycleTail`: the handler after an exception, otherwise the sleep, and the handler again when the sleep is refused |
| Controller.HIDController.BudgetedCycle | hid_helpers.py:91-115 | after one cycle, the loop from the old state with the given budget equals the loop from the new state with one cycle fewer, or ends where the cycle ended |
| Controller.HIDController.StartReporterTasks | hid_helpers.py:85-115 | how the loop ended, the budget left, the device list and the trace are exactly those of `LoopEffect` from counter 0 and no handle |
| Controller.HIDController.Start | hid_helpers.py:117-125 | how the supervisor ended, the device list and the trace are exactly those of `StartEffect` |

## Left out

- `eval` of configured text (hid_helpers.py:21) is the parameter `eval`. Its outcome
  is a failure, a list or tuple of values, or another value.
- Parse results of other types: `ParseResult` makes every value that is neither a list
  nor a tuple raise (`LengthError`). That is right for a value without a length, where
  `len` raises at hid_helpers.py:32. A value with a length goes on to the indexing at
  line 33. A set raises there, and a dictionary raises `KeyError` unless it has the
  keys 0 up to the copied length. A string, bytes or a range is copied element by
  element. The model does not capture those cases where line 33 does not raise:
  strings, bytes, ranges, dictionaries with those keys, and empty sets and
  dictionaries (nothing is copied from them).
- The `hid` library (`enumerate`, `device`, `open_path`, `write`, `close`) is the `Host`
  value and the trace. The model assumes `hid.device()` itself never raises.
- YAML loading (`import_config`) and logger setup (`setup_logger`), hid_helpers.py:36-55:
  file I/O and library configuration. The configuration is the controller's
  `devices` and `pollingFrequencyMs`. A configuration without `devices` is not
  modelled.
- Log output. Only the lookups that log lines perform are kept, because they can raise.
  `scan_devices` is always called with `verbose` true, so its log lines are modelled
  as always executed.
- The pause itself and the float conversion of the polling period (hid_helpers.py:89):
  a sleep is the event `Sleep(ms)` with the period in integer milliseconds, and
  `SleepRaises` marks the periods `sleep` refuses: negative ones, and those over
  `MaxSleepMs`, whose nanosecond count overflows 64 bits. The bound is exact for integer
  periods; the rounding of the float conversion is not modelled. A period too large
  for a float (over about 1.8e308 seconds) already makes the division at
  hid_helpers.py:89 raise before the loop starts; the model instead lets such a
  period reach the sleep, which refuses it, so it misses that this exception comes
  before any scan or dispatch of that run.
- A polling period that is not a number (a configured `null` or string): the division
  at hid_helpers.py:89 raises before the loop starts. `pollingFrequencyMs` holds an
  integer, so the model does not capture that exception.
- `KeyboardInterrupt` and `sys.exit` (hid_helpers.py:79-80, 107-108): operator
  cancellation and process control.
- The unbounded `while True` loops of `start_reporter_tasks` and `start`: one global
  cycle budget (`fuel`) bounds them, and `OutOfCycles` marks a run that spent it.
- The command-line entry point, help text, YAML dump and sorting (hid_helpers.py:127-225):
  console I/O and presentation.
- `status` (hid_helpers.py:82-83): only logs.
- Enrichment and the device list are modelled on values. The in-place update of each
  enumerated dictionary is not modelled. That changes nothing here, because each
  enumeration returns fresh dictionaries.
- A `byte_strings` that is a dictionary or another iterable: only lists and strings
  are modelled as iterable. Every other value raises on iteration.
