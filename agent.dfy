/** The entry point (src/main.rs): choosing a mode from the command line, the
    foreground debug loop that Ctrl+C ends, and the one-shot test mode.
    Console output is not modelled; what each mode does is its log of
    `Effect`s and its result. `load_config`'s result, the runtime's creation,
    the collector's facts, the transmitter's answers and Ctrl+C are inputs. */
module Agent {
  import opened Wrappers
  import opened Models
  import opened Collector
  import opened Configuration
  import opened Cycle

  // ---------------------------------------------------------------- mode selection

  /** `std::env::args().any(|arg| arg == flag)`; the arguments include the
      program name in position 0. */
  function ArgsContain(args: seq<string>, flag: string): (r: bool)
    ensures r <==> exists i :: 0 <= i < |args| && args[i] == flag
    decreases |args|
  {
    if |args| == 0 then false
    else if args[0] == flag then true
    else
      assert forall i :: 1 <= i < |args| ==> args[i] == args[1..][i - 1];
      ArgsContain(args[1..], flag)
  }

  datatype Mode = TestMode | DebugMode | ServiceMode

  /** `main`: `--test` anywhere wins, then `--debug`, otherwise the service. */
  function SelectMode(args: seq<string>): (m: Mode)
    ensures m == TestMode <==> "--test" in args
    ensures m == DebugMode <==> "--debug" in args && "--test" !in args
    ensures m == ServiceMode <==> "--test" !in args && "--debug" !in args
  {
    if ArgsContain(args, "--test") then TestMode
    else if ArgsContain(args, "--debug") then DebugMode
    else ServiceMode
  }

  // ---------------------------------------------------------------- outcomes

  datatype AgentError =
    | LoadFailed(cause: ConfigError)        // `load_config()?`
    | RuntimeCreateFailed                   // `Runtime::new()?`
    | CollectionFailed(error: CollectError) // `collector::collect()?` (test mode)
    | SendRejected                          // `sender::send(..)?` (test mode)

  /** A mode either returns from its function or is still looping when the trace ends. */
  datatype Outcome = Exited(result: Result<(), AgentError>) | Looping

  datatype ModeRun = ModeRun(outcome: Outcome, effects: seq<Effect>)

  // ---------------------------------------------------------------- debug mode

  /** One iteration's inputs: the facts, the transmitter's answer, and whether
      Ctrl+C arrives before the interval has elapsed. */
  datatype DebugTick = DebugTick(facts: Facts, send: SendResult, ctrlC: bool)

  datatype DebugRun = DebugRun(effects: seq<Effect>, interrupted: bool)

  /** The `loop` of `run_debug_mode`: collect, send when collection succeeded and
      an endpoint is configured, then race the sleep against Ctrl+C. */
  function DebugLoop(ticks: seq<DebugTick>, url: Option<string>, tls: bool, interval: U64): DebugRun
    decreases |ticks|
  {
    if |ticks| == 0 then DebugRun([], false)
    else
      var step := CollectAndSend(ticks[0].facts, ticks[0].send, url, tls);
      if ticks[0].ctrlC then DebugRun(step + [Interrupted], true)
      else
        var rest := DebugLoop(ticks[1..], url, tls, interval);
        DebugRun(step + [Slept(interval)] + rest.effects, rest.interrupted)
  }

  /** `run_debug_mode`, as a function of what it meets. */
  function DebugModeSpec(loaded: Result<Config, ConfigError>, runtimeOk: bool, ticks: seq<DebugTick>): ModeRun {
    if loaded.Failure? then ModeRun(Exited(Failure(LoadFailed(loaded.error))), [])
    else if !runtimeOk then ModeRun(Exited(Failure(RuntimeCreateFailed)), [])
    else
      var cfg := loaded.value;
      var run := DebugLoop(ticks, cfg.apiUrl, cfg.tlsInsecure, cfg.intervalSeconds);
      ModeRun(if run.interrupted then Exited(Success(())) else Looping, run.effects)
  }

  /** The remaining iterations `rest` complete the log written so far to the whole run. */
  ghost predicate DebugRemains(run: DebugRun, now: seq<Effect>, rest: DebugRun) {
    run.effects == now + rest.effects && run.interrupted == rest.interrupted
  }

  lemma DebugLoopStep(ticks: seq<DebugTick>, url: Option<string>, tls: bool, interval: U64)
    requires |ticks| > 0
    ensures var step := CollectAndSend(ticks[0].facts, ticks[0].send, url, tls);
            var run := DebugLoop(ticks, url, tls, interval);
            var rest := DebugLoop(ticks[1..], url, tls, interval);
            && (ticks[0].ctrlC ==> run == DebugRun(step + [Interrupted], true))
            && (!ticks[0].ctrlC ==> run == DebugRun(step + [Slept(interval)] + rest.effects, rest.interrupted))
  {
  }

  /** One pass through the body of the debug `loop`: what it logs, and whether
      Ctrl+C won the race against the sleep. */
  method DebugIteration(t: DebugTick, url: Option<string>, tls: bool, interval: U64)
    returns (logged: seq<Effect>, interrupted: bool)
    ensures interrupted == t.ctrlC
    ensures logged == CollectAndSend(t.facts, t.send, url, tls) + [if t.ctrlC then Interrupted else Slept(interval)]
  {
    var collected := Collect(t.facts);
    logged := [Collected(collected)];
    if collected.Success? && url.Some? {
      logged := logged + [SendAttempted(collected.value, url.value, tls, t.send)];
    }
    if t.ctrlC {
      logged := logged + [Interrupted];
      interrupted := true;
    } else {
      logged := logged + [Slept(interval)];
      interrupted := false;
    }
  }

  method RunDebugMode(loaded: Result<Config, ConfigError>, runtimeOk: bool, ticks: seq<DebugTick>)
    returns (outcome: Outcome, effects: seq<Effect>)
    ensures ModeRun(outcome, effects) == DebugModeSpec(loaded, runtimeOk, ticks)
  {
    if loaded.Failure? {
      return Exited(Failure(LoadFailed(loaded.error))), [];
    }
    var cfg := loaded.value;
    if !runtimeOk {
      return Exited(Failure(RuntimeCreateFailed)), [];
    }
    ghost var run := DebugLoop(ticks, cfg.apiUrl, cfg.tlsInsecure, cfg.intervalSeconds);
    effects := [];
    var k := 0;
    var interrupted := false;
    while k < |ticks| && !interrupted
      invariant 0 <= k <= |ticks|
      invariant interrupted ==> effects == run.effects && run.interrupted
      invariant !interrupted ==> DebugRemains(run, effects, DebugLoop(ticks[k..], cfg.apiUrl, cfg.tlsInsecure, cfg.intervalSeconds))
    {
      assert ticks[k..][0] == ticks[k] && ticks[k..][1..] == ticks[k + 1..];
      DebugLoopStep(ticks[k..], cfg.apiUrl, cfg.tlsInsecure, cfg.intervalSeconds);
      ghost var before := effects;
      var logged;
      logged, interrupted := DebugIteration(ticks[k], cfg.apiUrl, cfg.tlsInsecure, cfg.intervalSeconds);
      effects := effects + logged;
      if !interrupted {
        AppendAssociative(before, logged, DebugLoop(ticks[k + 1..], cfg.apiUrl, cfg.tlsInsecure, cfg.intervalSeconds).effects);
      }
      k := k + 1;
    }
    if !interrupted {
      assert ticks[k..] == [];
    }
    outcome := if interrupted then Exited(Success(())) else Looping;
  }

  // ---------------------------------------------------------------- properties of debug mode

  /** The debug loop ends exactly when Ctrl+C arrives during some wait. */
  lemma {:induction false} DebugExitsIffCtrlC(ticks: seq<DebugTick>, url: Option<string>, tls: bool, interval: U64)
    ensures DebugLoop(ticks, url, tls, interval).interrupted <==> exists k :: 0 <= k < |ticks| && ticks[k].ctrlC
    decreases |ticks|
  {
    if |ticks| > 0 && !ticks[0].ctrlC {
      DebugExitsIffCtrlC(ticks[1..], url, tls, interval);
      assert forall k :: 1 <= k < |ticks| ==> ticks[k] == ticks[1..][k - 1];
      if exists k :: 0 <= k < |ticks| && ticks[k].ctrlC {
        var k :| 0 <= k < |ticks| && ticks[k].ctrlC;
        assert ticks[1..][k - 1].ctrlC;
      }
    }
  }

  /** Ctrl+C during the k-th wait ends the loop there: k + 1 collections, k
      full sleeps, and the interrupted wait is the last thing logged. Failed
      collections and failed sends before it never end the loop. */
  lemma {:induction false} DebugStopsAtFirstCtrlC(ticks: seq<DebugTick>, k: nat, url: Option<string>, tls: bool, interval: U64)
    requires k < |ticks| && ticks[k].ctrlC
    requires forall j :: 0 <= j < k ==> !ticks[j].ctrlC
    ensures var run := DebugLoop(ticks, url, tls, interval);
            && run.interrupted
            && CountCollects(run.effects) == k + 1 && CountSleeps(run.effects) == k
            && |run.effects| > 0 && run.effects[|run.effects| - 1] == Interrupted
    decreases k
  {
    var t := ticks[0];
    if k == 0 {
      StepCounts(t.facts, t.send, url, tls, Interrupted, []);
      assert CollectAndSend(t.facts, t.send, url, tls) + [Interrupted] + [] == DebugLoop(ticks, url, tls, interval).effects;
    } else {
      assert forall j :: 0 <= j < k - 1 ==> ticks[1..][j] == ticks[j + 1];
      DebugStopsAtFirstCtrlC(ticks[1..], k - 1, url, tls, interval);
      StepCounts(t.facts, t.send, url, tls, Slept(interval), DebugLoop(ticks[1..], url, tls, interval).effects);
    }
  }

  /** Every sleep of the debug loop lasts the configured interval; an
      interrupted wait is logged as `Interrupted`, not as a sleep. */
  lemma {:induction false} DebugSleepsLast(ticks: seq<DebugTick>, url: Option<string>, tls: bool, interval: U64)
    ensures SleepsLast(DebugLoop(ticks, url, tls, interval).effects, interval)
    decreases |ticks|
  {
    if |ticks| > 0 {
      var t := ticks[0];
      var step := CollectAndSend(t.facts, t.send, url, tls);
      if t.ctrlC {
        var es := step + [Interrupted];
        assert forall i :: 0 <= i < |step| ==> es[i] == step[i];
      } else {
        DebugSleepsLast(ticks[1..], url, tls, interval);
        SleepsLastAfterStep(t.facts, t.send, url, tls, interval, DebugLoop(ticks[1..], url, tls, interval).effects);
      }
    }
  }

  lemma DebugLoopBeginsWithCollect(ticks: seq<DebugTick>, url: Option<string>, tls: bool, interval: U64)
    ensures var es := DebugLoop(ticks, url, tls, interval).effects;
            |es| > 0 ==> es[0].Collected?
  {
  }

  /** Every send goes to the configured endpoint with the configured TLS flag,
      right after the collection whose report it carries. */
  lemma {:induction false} DebugSendsUseConfig(ticks: seq<DebugTick>, url: Option<string>, tls: bool, interval: U64)
    ensures SendsFollowCollects(DebugLoop(ticks, url, tls, interval).effects, url, tls)
    decreases |ticks|
  {
    if |ticks| > 0 {
      var t := ticks[0];
      var step := CollectAndSend(t.facts, t.send, url, tls);
      CollectAndSendFollows(t.facts, t.send, url, tls);
      if t.ctrlC {
        SendsFollowCollectsAppend(step, [Interrupted], url, tls);
      } else {
        var rest := DebugLoop(ticks[1..], url, tls, interval);
        DebugSendsUseConfig(ticks[1..], url, tls, interval);
        SendsFollowCollectsAppend(step, [Slept(interval)], url, tls);
        if |rest.effects| > 0 {
          DebugLoopBeginsWithCollect(ticks[1..], url, tls, interval);
        }
        SendsFollowCollectsAppend(step + [Slept(interval)], rest.effects, url, tls);
      }
    }
  }

  /** Without an endpoint the debug loop collects but never sends. */
  lemma DebugWithoutUrlNeverSends(ticks: seq<DebugTick>, tls: bool, interval: U64)
    ensures CountSends(DebugLoop(ticks, None, tls, interval).effects) == 0
  {
    DebugSendsUseConfig(ticks, None, tls, interval);
    SendsFollowCollectsWithoutUrl(DebugLoop(ticks, None, tls, interval).effects, tls);
  }

  /** Debug mode returns `Ok` only after Ctrl+C, and fails only on the
      configuration or the runtime, before collecting anything. */
  lemma DebugModeOutcomes(loaded: Result<Config, ConfigError>, runtimeOk: bool, ticks: seq<DebugTick>)
    ensures var r := DebugModeSpec(loaded, runtimeOk, ticks);
      && (r.outcome == Exited(Success(())) <==>
            loaded.Success? && runtimeOk && exists k :: 0 <= k < |ticks| && ticks[k].ctrlC)
      && (r.outcome.Exited? && r.outcome.result.Failure? <==> loaded.Failure? || !runtimeOk)
      && (loaded.Failure? || !runtimeOk ==> r.effects == [])
  {
    if loaded.Success? {
      var cfg := loaded.value;
      DebugExitsIffCtrlC(ticks, cfg.apiUrl, cfg.tlsInsecure, cfg.intervalSeconds);
    }
  }

  // ---------------------------------------------------------------- test mode

  /** `run_test_mode`: load the configuration, collect once (an error ends the
      mode), then, with an endpoint, create a runtime and send once (an error of
      either ends the mode). Pretty-printing the report cannot fail here. */
  function TestModeSpec(loaded: Result<Config, ConfigError>, facts: Facts, runtimeOk: bool, send: SendResult): (r: ModeRun)
    ensures r.outcome.Exited?
  {
    if loaded.Failure? then ModeRun(Exited(Failure(LoadFailed(loaded.error))), [])
    else
      var cfg := loaded.value;
      var collected := Collect(facts);
      if collected.Failure? then ModeRun(Exited(Failure(CollectionFailed(collected.error))), [Collected(collected)])
      else if cfg.apiUrl.None? then ModeRun(Exited(Success(())), [Collected(collected)])
      else if !runtimeOk then ModeRun(Exited(Failure(RuntimeCreateFailed)), [Collected(collected)])
      else
        var sent := [Collected(collected), SendAttempted(collected.value, cfg.apiUrl.value, cfg.tlsInsecure, send)];
        if send == SendFailed then ModeRun(Exited(Failure(SendRejected)), sent)
        else ModeRun(Exited(Success(())), sent)
  }

  /** Test mode collects exactly once (when the configuration loads), never
      sleeps, and sends at most once, to the configured endpoint. */
  lemma TestModeRunsOnce(loaded: Result<Config, ConfigError>, facts: Facts, runtimeOk: bool, send: SendResult)
    ensures var r := TestModeSpec(loaded, facts, runtimeOk, send);
      && CountCollects(r.effects) == (if loaded.Success? then 1 else 0)
      && CountSleeps(r.effects) == 0
      && CountSends(r.effects) <= 1
      && SendsFollowCollects(r.effects, if loaded.Success? then loaded.value.apiUrl else None,
                             loaded.Success? && loaded.value.tlsInsecure)
  {
    var r := TestModeSpec(loaded, facts, runtimeOk, send);
    if |r.effects| == 1 {
      CountsOne(r.effects[0]);
    } else if |r.effects| == 2 {
      assert r.effects == [r.effects[0]] + [r.effects[1]];
      CountsOne(r.effects[0]);
      CountsOne(r.effects[1]);
      CountsAppend([r.effects[0]], [r.effects[1]]);
    }
  }

  /** Test mode succeeds exactly when the configuration loads, collection
      succeeds, and either no endpoint is set or the runtime starts and the
      send is delivered; with no endpoint nothing is sent. */
  lemma TestModeOutcomes(loaded: Result<Config, ConfigError>, facts: Facts, runtimeOk: bool, send: SendResult)
    ensures var r := TestModeSpec(loaded, facts, runtimeOk, send);
      && (r.outcome == Exited(Success(())) <==>
            loaded.Success? && Collect(facts).Success?
            && (loaded.value.apiUrl.None? || (runtimeOk && send == Delivered)))
      && (loaded.Success? && Collect(facts).Failure? ==> r.outcome == Exited(Failure(CollectionFailed(Collect(facts).error))))
      && (loaded.Success? && loaded.value.apiUrl.None? ==> forall i :: 0 <= i < |r.effects| ==> !r.effects[i].SendAttempted?)
  {
  }
}
