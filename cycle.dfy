/** The step the service loop, the debug loop and test mode share: call
    `collector::collect`, and when it succeeds and an endpoint is known, call
    `sender::send` with the report just collected. What each run does is
    recorded as a log of `Effect`s. The transmitter itself (HTTP client,
    timeouts, TLS) is outside the model; its answer is an input. */
module Cycle {
  import opened Wrappers
  import opened Models
  import opened Collector
  import opened Configuration

  /** The answer of one `sender::send` call. */
  datatype SendResult = Delivered | SendFailed

  datatype Effect =
    | Collected(result: Result<CheckIn, CollectError>)
    | SendAttempted(report: CheckIn, url: string, tlsInsecure: bool, answer: SendResult)
    | Slept(seconds: U64)
    | Interrupted   // Ctrl+C won the race against the sleep

  /** Collect, then send the fresh report if collection succeeded and there is an endpoint. */
  function CollectAndSend(facts: Facts, send: SendResult, url: Option<string>, tls: bool): (e: seq<Effect>)
    ensures |e| >= 1 && e[0] == Collected(Collect(facts))
    ensures |e| == 2 <==> Collect(facts).Success? && url.Some?
    ensures |e| == 2 ==> e[1] == SendAttempted(Collect(facts).value, url.value, tls, send)
    ensures |e| <= 2
  {
    var c := Collect(facts);
    [Collected(c)] + (if c.Success? && url.Some? then [SendAttempted(c.value, url.value, tls, send)] else [])
  }

  /** Every send in the log goes to `url` with the `tls` flag and carries the
      report that the collection just before it returned. With no `url`, nothing
      is sent. */
  predicate SendsFollowCollects(es: seq<Effect>, url: Option<string>, tls: bool) {
    forall i :: 0 <= i < |es| && es[i].SendAttempted? ==>
      && url == Some(es[i].url) && es[i].tlsInsecure == tls
      && i > 0 && es[i - 1] == Collected(Success(es[i].report))
  }

  lemma CollectAndSendFollows(facts: Facts, send: SendResult, url: Option<string>, tls: bool)
    ensures SendsFollowCollects(CollectAndSend(facts, send, url, tls), url, tls)
  {
  }

  lemma SendsFollowCollectsAppend(a: seq<Effect>, b: seq<Effect>, url: Option<string>, tls: bool)
    requires SendsFollowCollects(a, url, tls) && SendsFollowCollects(b, url, tls)
    requires |b| > 0 ==> !b[0].SendAttempted?
    ensures SendsFollowCollects(a + b, url, tls)
  {
    var ab := a + b;
    forall i | 0 <= i < |ab| && ab[i].SendAttempted?
      ensures url == Some(ab[i].url) && ab[i].tlsInsecure == tls
      ensures i > 0 && ab[i - 1] == Collected(Success(ab[i].report))
    {
      if i >= |a| {
        assert ab[i] == b[i - |a|];
        assert i - |a| > 0;
        assert ab[i - 1] == b[i - |a| - 1];
      } else {
        assert ab[i] == a[i] && ab[i - 1] == a[i - 1];
      }
    }
  }

  lemma AppendAssociative(a: seq<Effect>, b: seq<Effect>, c: seq<Effect>)
    ensures a + (b + c) == (a + b) + c
  {
  }

  /** Every sleep in the log lasts `interval` seconds. */
  predicate SleepsLast(es: seq<Effect>, interval: U64) {
    forall i :: 0 <= i < |es| && es[i].Slept? ==> es[i].seconds == interval
  }

  /** A collect-and-send step, then a sleep of `interval`, then a log whose
      sleeps all last `interval`: every sleep of the whole lasts `interval`. */
  lemma SleepsLastAfterStep(facts: Facts, send: SendResult, url: Option<string>, tls: bool,
                            interval: U64, rest: seq<Effect>)
    requires SleepsLast(rest, interval)
    ensures SleepsLast(CollectAndSend(facts, send, url, tls) + [Slept(interval)] + rest, interval)
  {
    var step := CollectAndSend(facts, send, url, tls);
    var head := step + [Slept(interval)];
    var es := head + rest;
    assert forall j :: 0 <= j < |step| ==> es[j] == step[j] && !step[j].Slept?;
    forall i | |step| <= i < |es| && es[i].Slept?
      ensures es[i].seconds == interval
    {
      if i == |step| {
        assert es[i] == Slept(interval);
      } else {
        assert es[i] == rest[i - |head|];
      }
    }
  }

  function CountCollects(es: seq<Effect>): nat
    decreases |es|
  {
    if |es| == 0 then 0 else (if es[0].Collected? then 1 else 0) + CountCollects(es[1..])
  }

  function CountSleeps(es: seq<Effect>): nat
    decreases |es|
  {
    if |es| == 0 then 0 else (if es[0].Slept? then 1 else 0) + CountSleeps(es[1..])
  }

  function CountSends(es: seq<Effect>): nat
    decreases |es|
  {
    if |es| == 0 then 0 else (if es[0].SendAttempted? then 1 else 0) + CountSends(es[1..])
  }

  lemma {:induction false} CountsAppend(a: seq<Effect>, b: seq<Effect>)
    ensures CountCollects(a + b) == CountCollects(a) + CountCollects(b)
    ensures CountSleeps(a + b) == CountSleeps(a) + CountSleeps(b)
    ensures CountSends(a + b) == CountSends(a) + CountSends(b)
    decreases |a|
  {
    if |a| > 0 {
      assert (a + b)[1..] == a[1..] + b;
      CountsAppend(a[1..], b);
    } else {
      assert a + b == b;
    }
  }

  lemma CountsOne(x: Effect)
    ensures CountCollects([x]) == (if x.Collected? then 1 else 0)
    ensures CountSleeps([x]) == (if x.Slept? then 1 else 0)
    ensures CountSends([x]) == (if x.SendAttempted? then 1 else 0)
  {
    assert [x][1..] == [];
  }

  /** One collect-and-send step holds exactly one collection, no sleep, and a
      send only when collection succeeded and there is an endpoint. */
  lemma CollectAndSendCounts(facts: Facts, send: SendResult, url: Option<string>, tls: bool)
    ensures var e := CollectAndSend(facts, send, url, tls);
      && CountCollects(e) == 1 && CountSleeps(e) == 0
      && CountSends(e) == (if Collect(facts).Success? && url.Some? then 1 else 0)
  {
    var e := CollectAndSend(facts, send, url, tls);
    CountsOne(e[0]);
    if |e| == 2 {
      assert e == [e[0]] + [e[1]];
      CountsOne(e[1]);
      CountsAppend([e[0]], [e[1]]);
    } else {
      assert e == [e[0]];
    }
  }

  /** The counts of one collect-and-send step, one more effect `x`, and what follows. */
  lemma StepCounts(facts: Facts, send: SendResult, url: Option<string>, tls: bool, x: Effect, rest: seq<Effect>)
    requires !x.Collected? && !x.SendAttempted?
    ensures var es := CollectAndSend(facts, send, url, tls) + [x] + rest;
      && CountCollects(es) == 1 + CountCollects(rest)
      && CountSleeps(es) == (if x.Slept? then 1 else 0) + CountSleeps(rest)
  {
    var step := CollectAndSend(facts, send, url, tls);
    CollectAndSendCounts(facts, send, url, tls);
    CountsOne(x);
    CountsAppend(step, [x]);
    CountsAppend(step + [x], rest);
  }

  lemma SendsFollowCollectsWithoutUrl(es: seq<Effect>, tls: bool)
    requires SendsFollowCollects(es, None, tls)
    ensures CountSends(es) == 0
    decreases |es|
  {
    if |es| > 0 {
      assert forall i :: 1 <= i < |es| ==> es[1..][i - 1] == es[i];
      SendsFollowCollectsWithoutUrl(es[1..], tls);
    }
  }
}
