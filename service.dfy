/** Managed-service mode (src/service.rs): `run_service` checks the endpoint,
    registers the control handler, reports Running, runs the check-in loop until
    the loop sees a stop message, and reports Stopped; `service_main` discards
    whatever error `run_service` returns.

    The Windows service control manager is the outside world. The order in which
    it delivers control events relative to the loop is an input: each tick of
    the trace may carry one control event together with the phase of the
    iteration during which the handler runs. */
module Service {
  import opened Wrappers
  import opened Models
  import opened Collector
  import opened Configuration
  import opened Cycle

  // ---------------------------------------------------------------- control surface

  datatype ControlEvent = Stop | Shutdown | Pause | Continue | Interrogate | Preshutdown | ParamChange | OtherControl

  datatype HandlerResult = NoError | NotImplemented

  predicate IsStopRequest(ev: ControlEvent) {
    ev.Stop? || ev.Shutdown?
  }

  /** Where in an iteration of the loop a control event is handled. */
  datatype Phase = BeforeCheck | DuringCollect | DuringSend | DuringSleep

  datatype Control = Control(phase: Phase, event: ControlEvent)

  /** The inputs of one loop iteration: the facts `collect` meets, the
      transmitter's answer, and an optional control event. */
  datatype Tick = Tick(facts: Facts, send: SendResult, control: Option<Control>)

  /** Stop messages the handler puts into the channel during `phase` of this tick. */
  function StopsDuring(t: Tick, phase: Phase): nat {
    if t.control.Some? && t.control.value.phase == phase && IsStopRequest(t.control.value.event) then 1 else 0
  }

  predicate RequestsStop(t: Tick) {
    t.control.Some? && IsStopRequest(t.control.value.event)
  }

  // ---------------------------------------------------------------- status reports

  datatype ServiceState = Running | Stopped

  datatype StatusReport = StatusReport(state: ServiceState, accepts: set<ControlEvent>, exitCode: int)

  const RunningReport := StatusReport(Running, {Stop, Shutdown}, 0)
  const StoppedReport := StatusReport(Stopped, {}, 0)

  // ---------------------------------------------------------------- the loop, as a function

  /** What the loop does from the top of an iteration with `pending` stop
      messages already queued: the log it writes, the messages left in the
      channel, and whether it broke out. `ticks` are the inputs of this and the
      following iterations; once they run out the loop is still running (a
      top-of-loop check is still made first). */
  datatype LoopRun = LoopRun(effects: seq<Effect>, pending: nat, stopped: bool)

  /** Stop messages handled after this tick's top-of-loop check. */
  function StopsAfterCheck(t: Tick): nat {
    StopsDuring(t, DuringCollect) + StopsDuring(t, DuringSend) + StopsDuring(t, DuringSleep)
  }

  /** The log of one full iteration: collect, maybe send, sleep the interval. */
  function IterationEffects(t: Tick, url: string, tls: bool, interval: U64): seq<Effect> {
    CollectAndSend(t.facts, t.send, Some(url), tls) + [Slept(interval)]
  }

  function ServiceLoop(ticks: seq<Tick>, pending: nat, url: string, tls: bool, interval: U64): LoopRun
    decreases |ticks|
  {
    var queued := pending + (if |ticks| > 0 then StopsDuring(ticks[0], BeforeCheck) else 0);
    if queued > 0 then LoopRun([], queued - 1, true)
    else if |ticks| == 0 then LoopRun([], 0, false)
    else
      var rest := ServiceLoop(ticks[1..], StopsAfterCheck(ticks[0]), url, tls, interval);
      LoopRun(IterationEffects(ticks[0], url, tls, interval) + rest.effects, rest.pending, rest.stopped)
  }

  /** One unfolding of the loop from the top of an iteration that has a tick. */
  lemma ServiceLoopStep(ticks: seq<Tick>, pending: nat, url: string, tls: bool, interval: U64)
    requires |ticks| > 0
    ensures var queued := pending + StopsDuring(ticks[0], BeforeCheck);
            var run := ServiceLoop(ticks, pending, url, tls, interval);
            var rest := ServiceLoop(ticks[1..], StopsAfterCheck(ticks[0]), url, tls, interval);
            && (queued > 0 ==> run == LoopRun([], queued - 1, true))
            && (queued == 0 ==> run == LoopRun(IterationEffects(ticks[0], url, tls, interval) + rest.effects, rest.pending, rest.stopped))
  {
  }

  /** The whole run `run` is what was logged so far followed by what the
      remaining iterations `rest` produce, and it ends as `rest` does. */
  ghost predicate LoopRemains(run: LoopRun, start: seq<Effect>, now: seq<Effect>, rest: LoopRun) {
    start + run.effects == now + rest.effects && rest.pending == run.pending && rest.stopped == run.stopped
  }

  // ---------------------------------------------------------------- the whole run, as a function

  datatype ServiceError = ConfigFailed(cause: ConfigError) | MissingApiUrl | RegisterFailed | StatusFailed | RuntimeFailed

  /** A run either returns from `run_service`, or is still in its loop when the trace ends. */
  datatype RunOutcome = Returned(result: Result<(), ServiceError>) | StillRunning

  /** Everything `run_service` meets from outside, in order. */
  datatype ServiceWorld = ServiceWorld(
    config: Result<Config, ConfigError>,   // what `load_config` returned
    registerOk: bool,                      // `service_control_handler::register`
    runningReportOk: bool,                 // `set_service_status(Running)`
    runtimeOk: bool,                       // `Runtime::new`
    ticks: seq<Tick>,
    stoppedReportOk: bool)                 // `set_service_status(Stopped)`

  datatype ServiceRun = ServiceRun(outcome: RunOutcome, registered: bool, statuses: seq<StatusReport>, effects: seq<Effect>)

  function RunServiceSpec(w: ServiceWorld): ServiceRun {
    if w.config.Failure? then ServiceRun(Returned(Failure(ConfigFailed(w.config.error))), false, [], [])
    else if w.config.value.apiUrl.None? then ServiceRun(Returned(Failure(MissingApiUrl)), false, [], [])
    else if !w.registerOk then ServiceRun(Returned(Failure(RegisterFailed)), false, [], [])
    else if !w.runningReportOk then ServiceRun(Returned(Failure(StatusFailed)), true, [], [])
    else if !w.runtimeOk then ServiceRun(Returned(Failure(RuntimeFailed)), true, [RunningReport], [])
    else
      var cfg := w.config.value;
      var run := ServiceLoop(w.ticks, 0, cfg.apiUrl.value, cfg.tlsInsecure, cfg.intervalSeconds);
      if !run.stopped then ServiceRun(StillRunning, true, [RunningReport], run.effects)
      else if !w.stoppedReportOk then ServiceRun(Returned(Failure(StatusFailed)), true, [RunningReport], run.effects)
      else ServiceRun(Returned(Success(())), true, [RunningReport, StoppedReport], run.effects)
  }

  // ---------------------------------------------------------------- the service, as state

  class ServiceHost {
    /** Whether the control handler has been registered with the service manager. */
    var handlerRegistered: bool
    /** Stop messages sent into the shutdown channel and not yet received. */
    var pending: nat
    /** The status reports the service manager accepted, in order. */
    var statuses: seq<StatusReport>
    /** Collections, sends and sleeps, in order. */
    var effects: seq<Effect>

    constructor ()
      ensures !handlerRegistered && pending == 0 && statuses == [] && effects == []
    {
      handlerRegistered := false;
      pending := 0;
      statuses := [];
      effects := [];
    }

    /** The `event_handler` closure: a stop or shutdown request sends one message
        into the channel and is acknowledged; every other event is refused. */
    method HandleControl(ev: ControlEvent) returns (r: HandlerResult)
      requires handlerRegistered
      modifies this
      ensures r == NoError <==> IsStopRequest(ev)
      ensures r == NotImplemented <==> !IsStopRequest(ev)
      ensures pending == old(pending) + (if IsStopRequest(ev) then 1 else 0)
      ensures handlerRegistered && statuses == old(statuses) && effects == old(effects)
    {
      if ev == Stop || ev == Shutdown {
        pending := pending + 1;
        r := NoError;
      } else {
        r := NotImplemented;
      }
    }

    /** The service manager calls the handler if the tick's event falls in `phase`. */
    method Deliver(t: Tick, phase: Phase)
      requires handlerRegistered
      modifies this
      ensures pending == old(pending) + StopsDuring(t, phase)
      ensures handlerRegistered && statuses == old(statuses) && effects == old(effects)
    {
      if t.control.Some? && t.control.value.phase == phase {
        var _ := HandleControl(t.control.value.event);
      }
    }

    /** One pass through the body of the `loop` in `run_service`: `try_recv` at
        the top, then collect, send when collection succeeded, and an
        uninterrupted sleep. */
    method Iterate(t: Tick, url: string, tls: bool, interval: U64) returns (stopped: bool)
      requires handlerRegistered
      modifies this
      ensures var queued := old(pending) + StopsDuring(t, BeforeCheck);
              && stopped == (queued > 0)
              && (stopped ==> pending == queued - 1 && effects == old(effects))
              && (!stopped ==> pending == StopsAfterCheck(t)
                               && effects == old(effects) + IterationEffects(t, url, tls, interval))
      ensures handlerRegistered && statuses == old(statuses)
    {
      Deliver(t, BeforeCheck);
      if pending > 0 {
        pending := pending - 1;
        return true;
      }
      var collected := Collect(t.facts);
      effects := effects + [Collected(collected)];
      Deliver(t, DuringCollect);
      if collected.Success? {
        effects := effects + [SendAttempted(collected.value, url, tls, t.send)];
      }
      Deliver(t, DuringSend);
      effects := effects + [Slept(interval)];
      Deliver(t, DuringSleep);
      stopped := false;
    }

    /** The `loop` of `run_service`, over the ticks of the trace, and the
        top-of-loop check that follows their end. */
    method RunLoop(ticks: seq<Tick>, url: string, tls: bool, interval: U64) returns (stopped: bool)
      requires handlerRegistered
      modifies this
      ensures var run := ServiceLoop(ticks, old(pending), url, tls, interval);
              effects == old(effects) + run.effects && pending == run.pending && stopped == run.stopped
      ensures handlerRegistered && statuses == old(statuses)
    {
      ghost var run := ServiceLoop(ticks, pending, url, tls, interval);
      var k := 0;
      stopped := false;
      while k < |ticks| && !stopped
        invariant 0 <= k <= |ticks|
        invariant handlerRegistered && statuses == old(statuses)
        invariant stopped ==> effects == old(effects) + run.effects && pending == run.pending && run.stopped
        invariant !stopped ==> LoopRemains(run, old(effects), effects, ServiceLoop(ticks[k..], pending, url, tls, interval))
      {
        assert ticks[k..][0] == ticks[k] && ticks[k..][1..] == ticks[k + 1..];
        ServiceLoopStep(ticks[k..], pending, url, tls, interval);
        ghost var before := effects;
        stopped := Iterate(ticks[k], url, tls, interval);
        if !stopped {
          AppendAssociative(before, IterationEffects(ticks[k], url, tls, interval),
                            ServiceLoop(ticks[k + 1..], pending, url, tls, interval).effects);
        }
        k := k + 1;
      }
      if !stopped {
        assert ticks[k..] == [];
        if pending > 0 {
          pending := pending - 1;
          stopped := true;
        }
      }
    }

    /** `run_service`. Nothing is promised about `pending` afterwards: the
        channel is dropped when `run_service` returns, so messages left in it
        cannot be observed. */
    method RunService(w: ServiceWorld) returns (outcome: RunOutcome)
      requires !handlerRegistered && pending == 0 && statuses == [] && effects == []
      modifies this
      ensures var spec := RunServiceSpec(w);
              && outcome == spec.outcome && handlerRegistered == spec.registered
              && statuses == spec.statuses && effects == spec.effects
    {
      if w.config.Failure? {
        return Returned(Failure(ConfigFailed(w.config.error)));
      }
      var cfg := w.config.value;
      if cfg.apiUrl.None? {
        return Returned(Failure(MissingApiUrl));
      }
      var apiUrl := cfg.apiUrl.value;
      if !w.registerOk {
        return Returned(Failure(RegisterFailed));
      }
      handlerRegistered := true;
      if !w.runningReportOk {
        return Returned(Failure(StatusFailed));
      }
      statuses := statuses + [RunningReport];
      if !w.runtimeOk {
        return Returned(Failure(RuntimeFailed));
      }
      var stopped := RunLoop(w.ticks, apiUrl, cfg.tlsInsecure, cfg.intervalSeconds);
      if !stopped {
        return StillRunning;
      }
      if !w.stoppedReportOk {
        return Returned(Failure(StatusFailed));
      }
      statuses := statuses + [StoppedReport];
      return Returned(Success(()));
    }

    /** `service_main`: run the service and drop its error. As for `RunService`,
        the messages left in the dropped channel are not stated. */
    method ServiceMain(w: ServiceWorld)
      requires !handlerRegistered && pending == 0 && statuses == [] && effects == []
      modifies this
      ensures var spec := RunServiceSpec(w);
              handlerRegistered == spec.registered && statuses == spec.statuses && effects == spec.effects
    {
      var _ := RunService(w);
    }
  }

  // ---------------------------------------------------------------- properties of the loop

  /** A stop message waiting at the top of an iteration ends the loop before
      anything else happens. */
  lemma StopAtTopEndsLoop(ticks: seq<Tick>, pending: nat, url: string, tls: bool, interval: U64)
    requires pending > 0 || (|ticks| > 0 && StopsDuring(ticks[0], BeforeCheck) > 0)
    ensures ServiceLoop(ticks, pending, url, tls, interval).stopped
    ensures ServiceLoop(ticks, pending, url, tls, interval).effects == []
  {
  }

  /** A stop or shutdown handled while collecting, sending or sleeping does not
      cut the iteration short: the send still happens, the full interval is
      slept, and the loop ends at the next top-of-loop check without collecting again. */
  lemma StopMidIterationWaitsForNextCheck(ticks: seq<Tick>, url: string, tls: bool, interval: U64)
    requires |ticks| > 0 && RequestsStop(ticks[0]) && ticks[0].control.value.phase != BeforeCheck
    ensures var run := ServiceLoop(ticks, 0, url, tls, interval);
            && run.stopped
            && run.effects == CollectAndSend(ticks[0].facts, ticks[0].send, Some(url), tls) + [Slept(interval)]
  {
    var rest := ServiceLoop(ticks[1..], 1, url, tls, interval);
    assert rest.effects == [];
    assert StopsDuring(ticks[0], BeforeCheck) == 0;
  }

  /** The loop breaks out exactly when some stop or shutdown request was made,
      before or during the trace; failures of collect or send never end it. */
  lemma {:induction false} LoopStopsIffRequested(ticks: seq<Tick>, pending: nat, url: string, tls: bool, interval: U64)
    ensures ServiceLoop(ticks, pending, url, tls, interval).stopped <==>
              pending > 0 || exists k :: 0 <= k < |ticks| && RequestsStop(ticks[k])
    decreases |ticks|
  {
    if |ticks| > 0 && pending + StopsDuring(ticks[0], BeforeCheck) == 0 {
      var t := ticks[0];
      var later := StopsAfterCheck(t);
      LoopStopsIffRequested(ticks[1..], later, url, tls, interval);
      assert later > 0 <==> RequestsStop(t);
      assert forall k :: 1 <= k < |ticks| ==> ticks[k] == ticks[1..][k - 1];
      if exists k :: 0 <= k < |ticks| && RequestsStop(ticks[k]) {
        var k :| 0 <= k < |ticks| && RequestsStop(ticks[k]);
        if k > 0 {
          assert RequestsStop(ticks[1..][k - 1]);
        }
      }
    }
  }

  /** With no stop request, every tick of the trace runs to the end: one
      collection and one full sleep per tick, whatever collect and send answer. */
  lemma {:induction false} LoopWithoutStopRunsEveryTick(ticks: seq<Tick>, url: string, tls: bool, interval: U64)
    requires forall k :: 0 <= k < |ticks| ==> !RequestsStop(ticks[k])
    ensures var run := ServiceLoop(ticks, 0, url, tls, interval);
            && !run.stopped
            && CountCollects(run.effects) == |ticks| && CountSleeps(run.effects) == |ticks|
    decreases |ticks|
  {
    if |ticks| > 0 {
      var t := ticks[0];
      assert !RequestsStop(t);
      LoopWithoutStopRunsEveryTick(ticks[1..], url, tls, interval);
      StepCounts(t.facts, t.send, Some(url), tls, Slept(interval), ServiceLoop(ticks[1..], 0, url, tls, interval).effects);
    }
  }

  /** Every sleep of the loop lasts the configured interval. */
  lemma {:induction false} LoopSleepsLast(ticks: seq<Tick>, pending: nat, url: string, tls: bool, interval: U64)
    ensures SleepsLast(ServiceLoop(ticks, pending, url, tls, interval).effects, interval)
    decreases |ticks|
  {
    if |ticks| > 0 && pending + StopsDuring(ticks[0], BeforeCheck) == 0 {
      var t := ticks[0];
      LoopSleepsLast(ticks[1..], StopsAfterCheck(t), url, tls, interval);
      SleepsLastAfterStep(t.facts, t.send, Some(url), tls, interval,
                          ServiceLoop(ticks[1..], StopsAfterCheck(t), url, tls, interval).effects);
    }
  }

  /** Every send the loop makes goes to the validated endpoint with the
      configured TLS flag and carries the report collected just before. */
  lemma {:induction false} LoopSendsUseEndpoint(ticks: seq<Tick>, pending: nat, url: string, tls: bool, interval: U64)
    ensures SendsFollowCollects(ServiceLoop(ticks, pending, url, tls, interval).effects, Some(url), tls)
    decreases |ticks|
  {
    if |ticks| > 0 && pending + StopsDuring(ticks[0], BeforeCheck) == 0 {
      var t := ticks[0];
      var later := StopsAfterCheck(t);
      var step := CollectAndSend(t.facts, t.send, Some(url), tls);
      var rest := ServiceLoop(ticks[1..], later, url, tls, interval);
      LoopSendsUseEndpoint(ticks[1..], later, url, tls, interval);
      CollectAndSendFollows(t.facts, t.send, Some(url), tls);
      SendsFollowCollectsAppend(step, [Slept(interval)], Some(url), tls);
      if |rest.effects| > 0 {
        LoopBeginsWithCollect(ticks[1..], later, url, tls, interval);
      }
      SendsFollowCollectsAppend(step + [Slept(interval)], rest.effects, Some(url), tls);
    }
  }

  lemma LoopBeginsWithCollect(ticks: seq<Tick>, pending: nat, url: string, tls: bool, interval: U64)
    ensures var es := ServiceLoop(ticks, pending, url, tls, interval).effects;
            |es| > 0 ==> es[0].Collected?
  {
  }

  // ---------------------------------------------------------------- properties of the run

  /** Without an endpoint the service fails before registering its handler and
      before reporting any status, and collects nothing. */
  lemma MissingEndpointFailsFast(w: ServiceWorld)
    requires w.config.Success? && w.config.value.apiUrl.None?
    ensures RunServiceSpec(w) == ServiceRun(Returned(Failure(MissingApiUrl)), false, [], [])
  {
  }

  /** Status reports go Running then Stopped, both with exit code 0; a run that
      returns `Ok` made both; any collection happens only after Running was reported. */
  lemma StatusGoesRunningThenStopped(w: ServiceWorld)
    ensures var s := RunServiceSpec(w);
      && (s.statuses == [] || s.statuses == [RunningReport] || s.statuses == [RunningReport, StoppedReport])
      && (s.outcome == Returned(Success(())) <==> s.statuses == [RunningReport, StoppedReport])
      && (|s.effects| > 0 ==> |s.statuses| > 0 && s.statuses[0].state == Running && s.statuses[0].exitCode == 0)
      && (s.statuses == [RunningReport, StoppedReport] ==> s.statuses[1].exitCode == 0 && s.statuses[1].accepts == {})
  {
  }

  /** A successful service run ended because a stop or shutdown request arrived. */
  lemma CleanExitNeedsStopRequest(w: ServiceWorld)
    requires RunServiceSpec(w).outcome == Returned(Success(()))
    ensures exists k :: 0 <= k < |w.ticks| && RequestsStop(w.ticks[k])
  {
    var cfg := w.config.value;
    LoopStopsIffRequested(w.ticks, 0, cfg.apiUrl.value, cfg.tlsInsecure, cfg.intervalSeconds);
  }
}
