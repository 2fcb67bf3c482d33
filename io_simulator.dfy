/** IOSimulator: simulated blocking I/O with chaos injection. The two chaos draws, the
    latency draw and the outcome of the sleep are parameters; the sleep itself does
    nothing observable besides possibly being interrupted. */
module IoSimulator {
  import opened Wrappers
  import opened Exceptions
  import opened Config
  import opened RandomDraws
  import opened Decimal

  /** What one call observes from ThreadLocalRandom and Thread.sleep. The chaos draws are
      nextDouble() values in [0, 1); each is only consulted when its rate is positive. */
  datatype IoDraws = IoDraws(failureDraw: real, timeoutDraw: real, latencyDraw: nat, sleepInterrupted: bool)

  const ChaosFailureMessage: string := "Random failure (chaos mode)"
  const InterruptedMessage: string := "I/O simulation interrupted"

  /** The simulator can be built from the validated configuration, so every latency it
      sleeps is non-negative, and nextInt(min, max + 1) cannot overflow. */
  predicate Usable(cfg: IoSimulationConfig) {
    cfg.Valid() && cfg.Constrained() && cfg.maxLatencyMs < IntMax
  }

  predicate ChaosFailureFires(cfg: IoSimulationConfig, draws: IoDraws) {
    cfg.failureRate > 0.0 && draws.failureDraw < cfg.failureRate
  }

  predicate TimeoutFires(cfg: IoSimulationConfig, draws: IoDraws) {
    cfg.timeoutRate > 0.0 && draws.timeoutDraw < cfg.timeoutRate
  }

  /** calculateLatency: the minimum when the range is a single value, otherwise a uniform
      draw from [minLatencyMs, maxLatencyMs]. */
  function CalculateLatency(cfg: IoSimulationConfig, draw: nat): (latency: int)
    requires Usable(cfg)
    ensures cfg.minLatencyMs <= latency <= cfg.maxLatencyMs
    ensures cfg.minLatencyMs == cfg.maxLatencyMs ==> latency == cfg.minLatencyMs
  {
    if cfg.minLatencyMs == cfg.maxLatencyMs then cfg.minLatencyMs
    else NextInt(cfg.minLatencyMs, cfg.maxLatencyMs + 1, draw)
  }

  /** The latency slept: the timeout latency when the timeout draw fires, otherwise one
      from the configured range. */
  function ChosenLatency(cfg: IoSimulationConfig, draws: IoDraws): (latency: int)
    requires Usable(cfg)
    ensures latency >= 0
    ensures TimeoutFires(cfg, draws) ==> latency == cfg.timeoutLatencyMs
    ensures !TimeoutFires(cfg, draws) ==> cfg.minLatencyMs <= latency <= cfg.maxLatencyMs
  {
    if TimeoutFires(cfg, draws) then cfg.timeoutLatencyMs else CalculateLatency(cfg, draws.latencyDraw)
  }

  /** The text a successful call returns. */
  function ProcessedOutput(payload: Option<string>, latency: int): string {
    "Processed: " + payload.GetOr("empty") + " [latency=" + IntToString(latency) + "ms]"
  }

  /** simulateWork, one attempt: the chaos failure is decided first, before any sleep; then
      the latency is chosen, the sleep may be interrupted, and otherwise the processed text
      is returned. */
  function SimulateWork(cfg: IoSimulationConfig, payload: Option<string>, draws: IoDraws): (r: Result<string, Exception>)
    requires Usable(cfg)
    ensures ChaosFailureFires(cfg, draws) <==> r == Err(IOSimulationException(ChaosFailureMessage, None))
    ensures !ChaosFailureFires(cfg, draws) ==> (r.Err? <==> draws.sleepInterrupted)
    ensures r.Err? ==> r.error.IOSimulationException?
    ensures !ChaosFailureFires(cfg, draws) && draws.sleepInterrupted ==>
              r == Err(IOSimulationException(InterruptedMessage, Some(InterruptedException(None))))
    ensures r.Ok? ==> r.value == ProcessedOutput(payload, ChosenLatency(cfg, draws))
  {
    if ChaosFailureFires(cfg, draws) then
      Err(IOSimulationException(ChaosFailureMessage, None))
    else
      var latency := ChosenLatency(cfg, draws);
      if draws.sleepInterrupted then
        Err(IOSimulationException(InterruptedMessage, Some(InterruptedException(None))))
      else
        Ok(ProcessedOutput(payload, latency))
  }

  /** The attempt ends in the interrupted sleep: the chaos failure did not fire and the
      sleep was interrupted. The catch block re-sets the thread's interrupt flag. */
  predicate Interrupted(cfg: IoSimulationConfig, draws: IoDraws) {
    !ChaosFailureFires(cfg, draws) && draws.sleepInterrupted
  }

  /** With failureRate 0 the chaos failure never happens; with failureRate 1 it always
      happens, since every nextDouble() is below 1. */
  lemma ChaosFailureByRate(cfg: IoSimulationConfig, payload: Option<string>, draws: IoDraws)
    requires Usable(cfg)
    requires 0.0 <= draws.failureDraw < 1.0
    ensures cfg.failureRate == 0.0 ==> SimulateWork(cfg, payload, draws) != Err(IOSimulationException(ChaosFailureMessage, None))
    ensures cfg.failureRate >= 1.0 ==> SimulateWork(cfg, payload, draws) == Err(IOSimulationException(ChaosFailureMessage, None))
  {
  }

  /** The output names the latency it slept: two successful calls on the same payload
      return the same text only if they slept equally long. */
  lemma OutputDeterminesLatency(payload: Option<string>, a: int, b: int)
    requires ProcessedOutput(payload, a) == ProcessedOutput(payload, b)
    ensures a == b
  {
    var prefix := "Processed: " + payload.GetOr("empty") + " [latency=";
    var sa, sb := IntToString(a), IntToString(b);
    assert ProcessedOutput(payload, a) == prefix + sa + "ms]";
    assert ProcessedOutput(payload, b) == prefix + sb + "ms]";
    assert |sa| == |sb|;
    assert sa == ProcessedOutput(payload, a)[|prefix|..|prefix| + |sa|];
    assert sb == ProcessedOutput(payload, b)[|prefix|..|prefix| + |sb|];
    IntToStringInjective(a, b);
  }

  /** simulateWorkFallback, called once the retries are exhausted: it never returns
      normally, and throws an IOSimulationException that names the last failure and keeps
      it as the cause. */
  function SimulateWorkFallback(payload: Option<string>, ex: Exception): (r: Result<string, Exception>)
    ensures r.Err? && r.error.IOSimulationException? && r.error.cause == Some(ex)
    ensures r.error.msg == "I/O operation failed after 3 retries: " + TextOrNull(ex.Message())
  {
    Err(IOSimulationException(FallbackPrefix + TextOrNull(ex.Message()), Some(ex)))
  }

  const FallbackPrefix: string := "I/O operation failed after 3 retries: "

  /** simulateWork behind its retry: the attempts are made in order until one returns,
      each with its own draws. An attempt that ends in an interrupted sleep leaves the
      thread's interrupt flag set, so the retry's wait before the next attempt is cut
      short and the retries end there. When the retries end in a failure, the fallback
      turns its exception into the final one. Every failure is retried, and the number
      of attempts is at most the number of draws given. */
  function Retried(cfg: IoSimulationConfig, payload: Option<string>, attempts: seq<IoDraws>): (r: Result<string, Exception>)
    requires Usable(cfg) && |attempts| > 0
    ensures r.Ok? ==> exists i :: 0 <= i < |attempts| && r == SimulateWork(cfg, payload, attempts[i])
                                  && forall j :: 0 <= j < i ==> SimulateWork(cfg, payload, attempts[j]).Err? && !Interrupted(cfg, attempts[j])
    ensures r.Err? ==> exists i :: 0 <= i < |attempts|
                          && (i == |attempts| - 1 || Interrupted(cfg, attempts[i]))
                          && SimulateWork(cfg, payload, attempts[i]).Err?
                          && r == SimulateWorkFallback(payload, SimulateWork(cfg, payload, attempts[i]).error)
                          && forall j :: 0 <= j < i ==> SimulateWork(cfg, payload, attempts[j]).Err? && !Interrupted(cfg, attempts[j])
    decreases |attempts|
  {
    var first := SimulateWork(cfg, payload, attempts[0]);
    if first.Ok? then first
    else if |attempts| == 1 || Interrupted(cfg, attempts[0]) then SimulateWorkFallback(payload, first.error)
    else
      var tail := attempts[1..];
      var rest := Retried(cfg, payload, tail);
      assert forall i :: 1 <= i < |attempts| ==> attempts[i] == tail[i - 1];
      rest
  }

  /** The retried call succeeds exactly when some attempt succeeds with no interrupted
      attempt before it. */
  lemma RetriedSucceedsIff(cfg: IoSimulationConfig, payload: Option<string>, attempts: seq<IoDraws>)
    requires Usable(cfg) && |attempts| > 0
    ensures Retried(cfg, payload, attempts).Ok? <==>
              exists i :: 0 <= i < |attempts| && SimulateWork(cfg, payload, attempts[i]).Ok?
                          && forall j :: 0 <= j < i ==> !Interrupted(cfg, attempts[j])
  {
    var r := Retried(cfg, payload, attempts);
    if r.Err? {
      var k :| 0 <= k < |attempts| && (k == |attempts| - 1 || Interrupted(cfg, attempts[k]))
               && SimulateWork(cfg, payload, attempts[k]).Err?
               && forall j :: 0 <= j < k ==> SimulateWork(cfg, payload, attempts[j]).Err? && !Interrupted(cfg, attempts[j]);
      forall i | 0 <= i < |attempts| && SimulateWork(cfg, payload, attempts[i]).Ok?
        ensures exists j :: 0 <= j < i && Interrupted(cfg, attempts[j])
      {
        assert k < i;
      }
    }
  }

  /** Once an attempt is interrupted before any attempt succeeded, the call fails with the
      fallback of the interrupted attempt, whatever the later draws. */
  lemma {:induction false} InterruptionIsFinal(cfg: IoSimulationConfig, payload: Option<string>, attempts: seq<IoDraws>, i: nat)
    requires Usable(cfg) && i < |attempts| && Interrupted(cfg, attempts[i])
    requires forall j :: 0 <= j < i ==> SimulateWork(cfg, payload, attempts[j]).Err?
    ensures Retried(cfg, payload, attempts).Err?
    ensures Retried(cfg, payload, attempts).error.msg == FallbackPrefix + InterruptedMessage
    decreases i
  {
    if i > 0 && !Interrupted(cfg, attempts[0]) {
      var rest := attempts[1..];
      assert forall j :: 0 <= j < i - 1 ==> rest[j] == attempts[j + 1];
      InterruptionIsFinal(cfg, payload, rest, i - 1);
    }
  }
}
