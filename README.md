# Inventory agent — a Dafny model

The inventory agent is a Windows service. On a fixed interval it gathers an
inventory snapshot of the machine and posts it to a configured endpoint. A
snapshot (a *check-in*) holds the host name, the primary IPv4 address, the
logged-in user, the BIOS serial number, the physical drives and a UTC
timestamp. The same program also runs as a foreground debug loop (`--debug`)
and as a one-shot test (`--test`).

This project models the agent's core and proves properties of that model:

- **`Models`** (`models.dfy`): the `Drive` and `CheckIn` records. It also holds
  the encoding that serde derives for them: objects keyed by the Rust field
  names, `None` written as null, a missing optional key read back as `None`,
  a duplicate key rejected. The round trip is proved for every check-in.
- **`Collector`** (`collector.dfy`): `primary_ipv4` as a loop over the interface
  enumeration, proved against a selection function. `collect` as a function
  of the facts it meets, with each fallback sentinel and each abort.
- **`Configuration`** (`config.dfy`): `Config`, its defaults, the serde
  defaults for keys the file leaves out, `str::parse::<u64>`, the
  case-insensitive `true` flag, and `load_config`. Its environment overrides
  are a method that rewrites the record field by field.
- **`Cycle`** (`cycle.dfy`): the collect-then-maybe-send step that all three
  modes share. Each run is logged as a sequence of `Effect`s: collections,
  sends, sleeps and interrupts.
- **`Service`** (`service.dfy`): `run_service` and `service_main` as the class
  `ServiceHost`. Its fields are the registered handler, the stop messages
  waiting in the channel, the status reports made, and the effect log. The
  control handler and the check-in loop are proved against the function
  `ServiceLoop`.
- **`Agent`** (`agent.dfy`): mode selection in `main`, the debug loop that
  Ctrl+C ends (a method with a loop, proved against `DebugLoop`), and test mode.
- **`Strings`** and **`Wrappers`**: the parts of Rust's standard library that
  the core relies on. These are decimal text, `starts_with`, `trim` (Unicode
  White_Space) and `eq_ignore_ascii_case`, plus `Option` and `Result`.

The outside world enters every operation as input data:

- `Facts` holds what `collect` reads: `COMPUTERNAME`, the interface
  enumeration, the COM and WMI outcomes, each query's rows or error, and the
  clock text.
- `ConfigSource` and `Environment` hold what `load_config` finds.
- Each tick of a trace says what the transmitter answered. A service tick may
  also carry one control event and the phase of the iteration in which the
  handler runs. A debug tick says whether Ctrl+C arrived during the wait.

The traces are finite. A loop still running when its trace ends has the
outcome `StillRunning` (service) or `Looping` (debug).

Two behaviours of the code are easy to misread; the model follows the code:

- The service loop's sleep is not raced against a stop request. A stop or
  shutdown handled during collection, sending or sleeping takes effect only
  at the next top-of-loop check, after the full interval has been slept
  (`Service.StopMidIterationWaitsForNextCheck`).
- A failure of any of the three WMI queries aborts `collect` with an error.
  Query errors are not mapped to sentinels; only missing rows and missing
  fields are.

## Model

| member | source | states |
|---|---|---|
| Models.CloneDrive | src/models.rs:24-35 | a cloned drive has the same model, serial number and device id as the original, and equals it |
| Models.DriveRoundTrip | src/models.rs:3-8 | decoding an encoded drive gives the drive back, an absent serial number included |
| Models.DrivesRoundTrip | src/models.rs:16 | decoding an encoded drive list gives back the same drives in the same order |
| Models.FindUnique | src/models.rs:10-18 | a key that occurs exactly once in an object is found with its value, which is what a field-keyed decoder reads |
| Models.FindAbsent | src/models.rs:14 | a key that no member carries is missing, which a derived decoder reads as `None` for an `Option` field |
| Models.EncodedCheckInMembers | src/models.rs:10-18 | the encoded check-in carries each of the six snake_case keys exactly once, with that field's encoded value |
| Models.CheckInRoundTrip | src/models.rs:53-73 | decoding the encoding of any check-in gives back that check-in, every field included, an absent user and absent drive serials included |
| Models.EncodingCarriesHostnameAndSerial | src/models.rs:37-51 | the encoding holds the host name and the laptop serial as values of their own keys, so it mentions both |
| Strings.ToDecimal | src/collector.rs:82 | decimal text is non-empty and all digits, reads back as the number, has no leading zero (a positive number never starts with `0`, and no text longer than one digit does), has one digit below 10 and at most three below 1000 |
| Strings.ToDecimalInjective | src/collector.rs:82 | two numbers with the same decimal text are equal |
| Strings.TrimStart | src/collector.rs:59 | a suffix of the input that removes only leading whitespace and does not start with whitespace |
| Strings.TrimEnd | src/collector.rs:59 | a prefix of the input that removes only trailing whitespace and does not end with whitespace |
| Strings.TrimIsWhitespaceFreeSlice | src/collector.rs:59 | `trim` keeps a contiguous slice, removes only whitespace from both ends, and leaves no whitespace at either end |
| Strings.TrimIdempotent | src/collector.rs:59 | trimming twice is trimming once |
| Strings.AsciiLower | src/config.rs:104 | each of `A`..`Z` maps to its own lower-case letter (code point plus 32); every other character is unchanged |
| Collector.PrimaryIpv4 | src/collector.rs:74-90 | the loop returns the selected address: `None` when enumeration fails, else the text of the first interface that is not loopback, is IPv4 and does not start with `169.254.` |
| Collector.FirstQualifyingIndex | src/collector.rs:77-88 | the stopping index is within bounds, names a qualifying interface when below the length, and every interface before it fails the tests |
| Collector.FirstQualifyingIsFirstMatch | src/collector.rs:77-89 | the scan returns the address of the first qualifying interface in enumeration order, and `None` exactly when none qualifies |
| Collector.LinkLocalTextHasOctets | src/collector.rs:82-83 | dotted text that starts with `169.254.` has first octets 169 and 254 |
| Collector.LinkLocalTextIsOctets | src/collector.rs:82-85 | on the dotted text, starting with `169.254.` holds exactly when the first two octets are 169 and 254 |
| Collector.QualifiesIsOctetTest | src/collector.rs:78-86 | an interface is returned exactly when it is not loopback, is IPv4 and lies outside 169.254.0.0/16 |
| Collector.SelectedAddressIsRoutableV4 | src/collector.rs:74-90 | any returned address is the text of an enumerated, non-loopback, non-link-local IPv4 interface; a failed enumeration returns `None` |
| Collector.SelectionExample | src/collector.rs:77-88 | with loopback, 169.254.1.1, 10.0.0.5 and 10.0.0.9 in that order, 10.0.0.5 is chosen |
| Collector.DrivesFollowRows | src/collector.rs:55-62 | one drive per disk row, in order; a missing model or device id becomes `UNKNOWN`; a present serial is trimmed and an absent one stays absent |
| Collector.CollectFailsOnlyOnWmi | src/collector.rs:7-72 | `collect` fails exactly when COM, the WMI connection or one of the three queries fails, and the error names the first failing step |
| Collector.CollectedFields | src/collector.rs:8-71 | a successful check-in has host name or `UNKNOWN`, selected address or `0.0.0.0`, the first row's user, the first row's BIOS serial or `UNKNOWN`, the mapped drives and the clock text |
| Configuration.DefaultValues | src/config.rs:18-30 | the default has no endpoint, an interval of 1800 seconds and TLS validation on |
| Configuration.FromTomlDefaults | src/config.rs:6-16 | keys the file gives are kept; a missing interval is 1800, a missing TLS flag is false, and an empty file gives the default |
| Configuration.ParseU64OfDecimal | src/config.rs:97-101 | every `u64` is read back from its decimal text, with or without a leading `+` |
| Configuration.ParseU64Rejects | src/config.rs:97-101 | the empty text, a lone `+`, a leading `-` and the text of any value of 2^64 or more are rejected |
| Configuration.ParseU64Accepts | src/config.rs:97-101 | an accepted text is an optional `+` followed by at least one digit, and the result is the value of those digits |
| Configuration.TrueFlagSpellings | src/config.rs:103-105 | the TLS flag is set by exactly the sixteen upper- and lower-case spellings of `true` |
| Configuration.LoadConfig | src/config.rs:76-108 | file errors pass through. When the file loads, the endpoint comes from the environment if set; the interval comes from the environment if it parses as `u64`; the TLS flag comes from the environment if set. With no environment, the file's configuration; with no file and the template written, the default |
| Cycle.CollectAndSend | src/service.rs:74-83 | a step collects once and sends the report just collected, to the given endpoint with the given flag, only when collection succeeded and an endpoint is known |
| Cycle.CollectAndSendFollows | src/main.rs:71-88 | every send in a step carries the report of the collection logged just before it and uses the step's endpoint and flag |
| Cycle.CollectAndSendCounts | src/main.rs:71-88 | a step holds one collection, no sleep, and one send exactly when collection succeeded and an endpoint is known |
| Cycle.SendsFollowCollectsWithoutUrl | src/main.rs:79 | a log in which every send follows a collection and uses no endpoint contains no send |
| Cycle.SleepsLastAfterStep | src/service.rs:74-85 | a collect-and-send step holds no sleep, so a step, a sleep of the interval and a log whose sleeps all last the interval form a log whose sleeps all last the interval |
| Service.ServiceHost.HandleControl | src/service.rs:41-49 | stop and shutdown queue one stop message and answer `NoError`; every other event answers `NotImplemented` and changes nothing |
| Service.ServiceHost.Iterate | src/service.rs:68-86 | a queued stop ends the iteration before anything is logged; otherwise the iteration logs a collection, maybe a send, and a full sleep, and queues the stops the handler sent meanwhile |
| Service.ServiceHost.RunLoop | src/service.rs:67-87 | the loop's log, its leftover stop messages and whether it broke out are those of `ServiceLoop` |
| Service.ServiceHost.RunService | src/service.rs:30-100 | the outcome, handler registration, status reports and log are those of `RunServiceSpec`: config error, missing endpoint, register, status and runtime failures in source order, then the loop and the Stopped report |
| Service.ServiceHost.ServiceMain | src/service.rs:23-28 | the run's state is that of `run_service`, whatever error it returned |
| Service.StopAtTopEndsLoop | src/service.rs:70-72 | a stop message waiting at the top of an iteration ends the loop before any collection |
| Service.StopMidIterationWaitsForNextCheck | src/service.rs:68-86 | a stop handled during collection, sending or sleeping leaves the iteration complete, the full interval slept, and the loop ends at the next check without collecting again |
| Service.LoopStopsIffRequested | src/service.rs:41-49 | the loop breaks out exactly when a stop or shutdown request was made; collection and send failures never end it |
| Service.LoopWithoutStopRunsEveryTick | src/service.rs:74-85 | without a stop request the loop never breaks, and every tick yields exactly one collection and exactly one sleep |
| Service.LoopSleepsLast | src/service.rs:85 | from any number of queued stop messages, every sleep the loop logs lasts the configured `interval_seconds` |
| Service.LoopSendsUseEndpoint | src/service.rs:74-79 | every send goes to the validated endpoint with the configured TLS flag, just after the collection whose report it carries |
| Service.MissingEndpointFailsFast | src/service.rs:34-37 | without an endpoint the service fails before registering, reporting or collecting |
| Service.StatusGoesRunningThenStopped | src/service.rs:54-97 | reports are none, Running, or Running then Stopped, with exit code 0; `Ok` holds exactly when both were made; any collection comes after Running |
| Service.CleanExitNeedsStopRequest | src/service.rs:67-99 | a service run that returns `Ok` received a stop or shutdown request |
| Agent.ArgsContain | src/main.rs:31 | the argument scan holds exactly when some argument equals the flag |
| Agent.SelectMode | src/main.rs:30-42 | `--test` anywhere selects test mode; otherwise `--debug` selects debug mode; otherwise the service runs |
| Agent.DebugIteration | src/main.rs:70-101 | one debug iteration logs one collect-and-send step, then an interrupt if Ctrl+C arrived during the wait, or else a full sleep |
| Agent.RunDebugMode | src/main.rs:48-106 | the outcome and log are those of `DebugModeSpec`: load and runtime errors first, then the loop, ending `Ok` when Ctrl+C ends it |
| Agent.DebugExitsIffCtrlC | src/main.rs:95-101 | the debug loop ends exactly when Ctrl+C arrives during some wait |
| Agent.DebugStopsAtFirstCtrlC | src/main.rs:68-102 | Ctrl+C during the k-th wait gives k + 1 collections and k full sleeps, with the interrupt logged last; failed collections and sends never end the loop |
| Agent.DebugSendsUseConfig | src/main.rs:79-85 | every debug send goes to the configured endpoint with the configured flag, just after the collection whose report it carries |
| Agent.DebugSleepsLast | src/main.rs:95-101 | every sleep the debug loop logs lasts the configured `interval_seconds`; a wait cut short by Ctrl+C is logged as an interrupt, not a sleep |
| Agent.DebugWithoutUrlNeverSends | src/main.rs:79 | without an endpoint the debug loop collects but never sends |
| Agent.DebugModeOutcomes | src/main.rs:48-106 | debug mode returns `Ok` exactly when config and runtime succeed and Ctrl+C arrives; it fails exactly on config or runtime errors, before collecting |
| Agent.TestModeRunsOnce | src/main.rs:111-136 | test mode collects once when the configuration loads, never sleeps, and sends at most once, right after the collection, to the configured endpoint |
| Agent.TestModeOutcomes | src/main.rs:111-136 | test mode succeeds exactly when config and collection succeed and either no endpoint is set or the runtime starts and the send is delivered; a collection error is returned as such; with no endpoint nothing is sent |

## Left out

- `src/sender.rs` is not part of this model. The HTTP client, its timeouts, TLS and the JSON body are replaced by the transmitter's answer (`SendResult`), an input of each tick.
- Locating the executable, reading `config.toml`, writing the template file and parsing TOML are not modelled. Their outcome is the input `ConfigSource`; a parsed file arrives as a table of optional, well-typed keys.
- COM initialisation, the WMI connection and queries, `get_if_addrs`, `std::env::var` and the clock are inputs (`Facts`, `Environment`). An environment variable that is not valid Unicode is treated as absent, as the code does.
- `Collector.Interface`: whether an interface is loopback is taken as reported by the enumeration; the operating system's rule for it is not modelled.
- The tokio runtime, real time and `async` scheduling are not modelled. A sleep is an `Effect` carrying its length in seconds.
- Concurrency between the control handler and the loop is modelled as a trace: each tick carries at most one control event and the loop phase in which the handler runs. The unbounded channel is the count `pending`.
- Traces are finite: a loop that ends no earlier than its trace is reported as still running.
- Ctrl+C in debug mode is modelled only while the loop waits in `select!`. A Ctrl+C at any other time takes the console's default action, which is not modelled.
- `service::run` (the service dispatcher FFI) and the `define_windows_service!` glue are not modelled; `ServiceMain` starts from an unregistered host.
- Console output (`println!`, `eprintln!`) is not modelled. `serde_json::to_string_pretty` of a check-in is taken as unable to fail.
- `Agent.SelectMode` takes the arguments as strings. `std::env::args()` panics while iterating when an argument is not valid Unicode; that case cannot arise in a `seq<string>` and is not modelled.
- The non-Windows branch of `main`, which prints an error and exits with status 1, is not modelled.
- Status report fields other than the state, the accepted controls and the exit code (service type, checkpoint, wait hint, process id) are constants of the code and are not modelled.
- `Configuration.LoadConfig` takes the file configuration and the environment as one value each. It does not model the order in which the process environment is read.
