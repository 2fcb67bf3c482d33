/** JobEngineProperties: four configuration sections, each replaced by a default when
    absent, and the compact-constructor checks of three of them. */
module Config {
  import opened Wrappers
  import opened Exceptions

  /** Integer.MAX_VALUE. */
  const IntMax: int := 0x7fff_ffff

  datatype ThreadPoolConfig = ThreadPoolConfig(coreSize: int, maxSize: int, queueCapacity: int, keepAliveSeconds: int) {
    predicate Valid() { coreSize <= maxSize }
  }

  datatype AsyncConfig = AsyncConfig(timeoutSeconds: int, useVirtualThreads: bool) {
    /** The @Positive bound on the timeout, which bean validation enforces. */
    predicate TimeoutPositive() { timeoutSeconds > 0 }
  }

  datatype CpuSimulationConfig = CpuSimulationConfig(enabled: bool, minPrimeLimit: int, maxPrimeLimit: int) {
    predicate Valid() { minPrimeLimit <= maxPrimeLimit }
  }

  /** The two rates are probabilities; Java's doubles are modelled as reals. */
  datatype IoSimulationConfig = IoSimulationConfig(
    minLatencyMs: int, maxLatencyMs: int, failureRate: real, timeoutRate: real, timeoutLatencyMs: int)
  {
    predicate Valid() { minLatencyMs <= maxLatencyMs }

    /** The @Min(0) and @Max(1) bounds on the fields, which the @Validated binding of the
        properties enforces before any simulator is built. */
    predicate Constrained() {
      && minLatencyMs >= 0 && maxLatencyMs >= 0 && timeoutLatencyMs >= 0
      && 0.0 <= failureRate <= 1.0 && 0.0 <= timeoutRate <= 1.0
    }
  }

  /** The record constructors: each throws IllegalArgumentException when max < min. */
  function NewThreadPoolConfig(coreSize: int, maxSize: int, queueCapacity: int, keepAliveSeconds: int)
    : (r: Result<ThreadPoolConfig, Exception>)
    ensures r.Ok? <==> coreSize <= maxSize
    ensures r.Ok? ==> r.value == ThreadPoolConfig(coreSize, maxSize, queueCapacity, keepAliveSeconds) && r.value.Valid()
    ensures r.Err? ==> r.error == IllegalArgumentException("maxSize must be >= coreSize")
  {
    if maxSize < coreSize then Err(IllegalArgumentException("maxSize must be >= coreSize"))
    else Ok(ThreadPoolConfig(coreSize, maxSize, queueCapacity, keepAliveSeconds))
  }

  function NewCpuSimulationConfig(enabled: bool, minPrimeLimit: int, maxPrimeLimit: int)
    : (r: Result<CpuSimulationConfig, Exception>)
    ensures r.Ok? <==> minPrimeLimit <= maxPrimeLimit
    ensures r.Ok? ==> r.value == CpuSimulationConfig(enabled, minPrimeLimit, maxPrimeLimit) && r.value.Valid()
    ensures r.Err? ==> r.error == IllegalArgumentException("maxPrimeLimit must be >= minPrimeLimit")
  {
    if maxPrimeLimit < minPrimeLimit then Err(IllegalArgumentException("maxPrimeLimit must be >= minPrimeLimit"))
    else Ok(CpuSimulationConfig(enabled, minPrimeLimit, maxPrimeLimit))
  }

  function NewIoSimulationConfig(minLatencyMs: int, maxLatencyMs: int, failureRate: real, timeoutRate: real, timeoutLatencyMs: int)
    : (r: Result<IoSimulationConfig, Exception>)
    ensures r.Ok? <==> minLatencyMs <= maxLatencyMs
    ensures r.Ok? ==> r.value == IoSimulationConfig(minLatencyMs, maxLatencyMs, failureRate, timeoutRate, timeoutLatencyMs) && r.value.Valid()
    ensures r.Err? ==> r.error == IllegalArgumentException("maxLatencyMs must be >= minLatencyMs")
  {
    if maxLatencyMs < minLatencyMs then Err(IllegalArgumentException("maxLatencyMs must be >= minLatencyMs"))
    else Ok(IoSimulationConfig(minLatencyMs, maxLatencyMs, failureRate, timeoutRate, timeoutLatencyMs))
  }

  /** The defaults: each is what its own checked constructor accepts. */
  function DefaultThreadPool(): (c: ThreadPoolConfig)
    ensures NewThreadPoolConfig(4, 16, 100, 60) == Ok(c)
  {
    ThreadPoolConfig(4, 16, 100, 60)
  }

  /** The default async section satisfies the @Positive bound on its timeout. */
  function DefaultAsync(): (c: AsyncConfig)
    ensures c.TimeoutPositive()
  {
    AsyncConfig(300, true)
  }

  function DefaultCpuSimulation(): (c: CpuSimulationConfig)
    ensures NewCpuSimulationConfig(true, 10000, 100000) == Ok(c)
  {
    CpuSimulationConfig(true, 10000, 100000)
  }

  function DefaultIoSimulation(): (c: IoSimulationConfig)
    ensures NewIoSimulationConfig(50, 500, 0.0, 0.0, 5000) == Ok(c)
    ensures c.Constrained()
  {
    IoSimulationConfig(50, 500, 0.0, 0.0, 5000)
  }

  datatype JobEngineProperties = JobEngineProperties(
    threadPool: ThreadPoolConfig,
    async: AsyncConfig,
    cpuSimulation: CpuSimulationConfig,
    ioSimulation: IoSimulationConfig)
  {
    predicate Valid() {
      threadPool.Valid() && cpuSimulation.Valid() && ioSimulation.Valid()
    }
  }

  /** The constructor: a null section (None) becomes its default, a given one is kept. */
  function NewJobEngineProperties(
    threadPool: Option<ThreadPoolConfig>, async: Option<AsyncConfig>,
    cpuSimulation: Option<CpuSimulationConfig>, ioSimulation: Option<IoSimulationConfig>)
    : (p: JobEngineProperties)
    ensures threadPool.Some? ==> p.threadPool == threadPool.value
    ensures async.Some? ==> p.async == async.value
    ensures cpuSimulation.Some? ==> p.cpuSimulation == cpuSimulation.value
    ensures ioSimulation.Some? ==> p.ioSimulation == ioSimulation.value
    ensures threadPool.None? ==> p.threadPool == ThreadPoolConfig(4, 16, 100, 60)
    ensures async.None? ==> p.async == AsyncConfig(300, true)
    ensures cpuSimulation.None? ==> p.cpuSimulation == CpuSimulationConfig(true, 10000, 100000)
    ensures ioSimulation.None? ==> p.ioSimulation == IoSimulationConfig(50, 500, 0.0, 0.0, 5000)
  {
    JobEngineProperties(
      threadPool.GetOr(DefaultThreadPool()),
      async.GetOr(DefaultAsync()),
      cpuSimulation.GetOr(DefaultCpuSimulation()),
      ioSimulation.GetOr(DefaultIoSimulation()))
  }

  /** Sections that passed their constructors, completed by the defaults, give properties
      whose every section satisfies its check. */
  lemma PropertiesAreValid(
    threadPool: Option<ThreadPoolConfig>, async: Option<AsyncConfig>,
    cpuSimulation: Option<CpuSimulationConfig>, ioSimulation: Option<IoSimulationConfig>)
    requires threadPool.Some? ==> threadPool.value.Valid()
    requires cpuSimulation.Some? ==> cpuSimulation.value.Valid()
    requires ioSimulation.Some? ==> ioSimulation.value.Valid()
    ensures NewJobEngineProperties(threadPool, async, cpuSimulation, ioSimulation).Valid()
  {
  }
}
