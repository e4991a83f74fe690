/** The monitor sample and the load-test progress point (ops/backend/store, ops/backend/model). */
module Samples {
  import opened Options

  /** The six server-side metrics a progress point may lack; floats are modelled as reals. */
  datatype Metrics = Metrics(
    promQps: Option<real>,
    promP99LatencyMs: Option<real>,
    promErrorRate: Option<real>,
    purchaseKafkaPublishRate: Option<real>,
    purchaseKafkaPublishFailed: Option<real>,
    orderStateConsumeRate: Option<real>)

  datatype MonitorSample = MonitorSample(
    ts: int,
    clock: string,
    portRate: real,
    httpRate: real,
    replicaRate: real,
    runningContainers: int,
    totalContainers: int,
    runningReplicas: int,
    totalReplicas: int,
    metrics: Metrics)

  datatype PerfProgress = PerfProgress(
    ts: int,
    clock: string,
    qps: real,
    p95LatencyMs: real,
    successRate: real,
    rejectRate: real,
    systemErrorRate: real,
    networkErrorRate: real,
    stockDeductRate: real,
    metrics: Metrics)

  predicate SortedMonitors(ms: seq<MonitorSample>)
  {
    forall i, j :: 0 <= i < j < |ms| ==> ms[i].ts <= ms[j].ts
  }

  predicate SortedPerf(ps: seq<PerfProgress>)
  {
    forall i, j :: 0 <= i < j < |ps| ==> ps[i].ts <= ps[j].ts
  }
}
