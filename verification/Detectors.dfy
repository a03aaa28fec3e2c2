/** The fifteen rule-based detectors and their ranking. Message wording is left out; which branch spoke is kept. */
module Detectors {
  import opened Wrappers
  import opened Text
  import opened Sorting
  import C = Correlate

  // ---- The context; a missing or null text is "" ----

  datatype Container = Container(
    name: string, waiting: string, lastTerminated: string, lastExitCode: int, restarts: int,
    ready: Option<bool>, liveness: bool)

  datatype Pod = Pod(
    phase: string, reason: string, message: string, lastTerminated: string, initWaiting: string, initTerminated: string)

  datatype Event = Event(kind: string, reason: string, message: string, timestamp: string)

  datatype Condition = Condition(kind: string, status: string)

  datatype Job = Job(failed: int, conditions: seq<Condition>)

  datatype Node = Node(ready: string, disk: string, memory: string, pid: string)

  datatype Context = Context(
    containers: seq<Container>, inits: seq<Container>, pods: seq<Pod>, events: seq<Event>,
    logs: seq<string>, previousLogs: seq<string>, initLogs: seq<string>,
    services: Option<set<string>>, hpas: seq<seq<Condition>>, disruptionsAllowed: seq<int>, nodes: seq<Node>,
    job: Option<Job>, memoryTrendRising: bool, change: Option<C.Change>)

  /** `str.lower` and the host pattern match, left as parameters. */
  datatype Lib = Lib(lower: string -> string, dbHost: string -> string)

  // ---- Hypotheses ----

  datatype Evidence = Evidence(source: string, timestamp: string)

  /** The branch that set root cause and fix. */
  datatype Finding =
    | Generic
    | DbAuth | DbAuthAfterSecret(name: Option<string>, at: string)
    | DbUnreachable(host: string) | DbServiceMissing(host: string)
    | ImageMissing | RegistryAuth | ConfigMapMissing | SecretMissing
    | Probe(kind: string) | ProbeSilent
    | NoCapacity | Tainted | Affinity | VolumeUnbound | EphemeralStorage
    | ProxyOom | ProxyImage

  datatype Hypothesis = Hypothesis(
    issue: string, confidence: int, finding: Finding, evidence: seq<Evidence>,
    rollbackRequired: bool, rollbackTarget: Option<string>)

  function Plain(issue: string, confidence: int, finding: Finding, sources: seq<string>): Hypothesis {
    Hypothesis(issue, confidence, finding, seq(|sources|, i requires 0 <= i < |sources| => Evidence(sources[i], "")),
               false, Some(""))
  }

  /** Between 40 and 95 confident, no rollback asked for, no secret credited. */
  ghost predicate Ordinary(h: Hypothesis) {
    40 <= h.confidence <= 95 && !h.rollbackRequired && h.rollbackTarget == Some("") && !h.finding.DbAuthAfterSecret?
  }

  function Min(a: int, b: int): int {
    if a <= b then a else b
  }

  // ---- Shared signals ----

  predicate Waits(ctx: Context, reason: string) {
    (exists c :: c in ctx.containers && c.waiting == reason) || (exists p :: p in ctx.pods && p.reason == reason)
  }

  predicate IsCrashlooping(ctx: Context) {
    || Waits(ctx, "CrashLoopBackOff")
    || exists c :: c in ctx.containers && c.restarts >= 3 && c.lastTerminated == "Error"
  }

  function AllLogs(lib: Lib, ctx: Context): string {
    lib.lower(Join(ctx.logs + ctx.previousLogs))
  }

  /** The messages of the events with one of these reasons. */
  function Messages(events: seq<Event>, reasons: set<string>): seq<string> {
    if events == [] then [] else
    (if events[0].reason in reasons then [events[0].message] else []) + Messages(events[1..], reasons)
  }

  function WarningMessages(events: seq<Event>): seq<string> {
    if events == [] then [] else
    (if events[0].kind == "Warning" then [events[0].message] else []) + WarningMessages(events[1..])
  }

  const DB_AUTH := ["password authentication failed", "authentication failed", "access denied for user",
                    "permission denied", "auth failed", "invalid password", "role \""]
  const DB_REACH := ["connection refused", "connection timed out", "could not connect", "econnrefused",
                     "i/o timeout", "no route to host", "dial tcp", "timed out"]
  const DNS_SPECIFIC := ["no such host", "name or service not known", "could not resolve",
                         "temporary failure in name resolution"]
  const DNS_STRONG := ["no such host", "name or service not known", "could not resolve"]
  const DNS_WEAK := ["temporary failure in name resolution", "server misbehaving"]
  const APP_ERRORS := ["fatal", "panic", "traceback", "exception", "could not connect", "connection refused",
                       "no such host", "x509", "segmentation fault", "unhandled", "exit status 1"]
  const TLS_SIGNALS := ["x509", "certificate has expired", "certificate verify failed", "tls handshake",
                        "unable to verify the first certificate"]
  const INIT_ERRORS := ["error", "fatal", "fail", "cannot", "denied", "lock", "timeout"]
  const JOB_ERRORS := ["fatal", "error", "fail", "exception", "cannot", "denied"]
  const EPHEMERAL := ["ephemeral", "emptydir", "exceeds the limit", "local storage"]

  // ---- Pod issues ----

  function UpToDot(host: string): string {
    if host == [] || host[0] == '.' then [] else [host[0]] + UpToDot(host[1..])
  }

  function DbFailure(lib: Lib, ctx: Context, base: Hypothesis): Hypothesis {
    var logs := AllLogs(lib, ctx);
    if ContainsAny(logs, DB_AUTH) then
      var h := base.(finding := DbAuth, confidence := 82, evidence := base.evidence + [Evidence("logs", "")]);
      if ctx.change.Some? && ctx.change.value.kind == C.SecretChange then
        var change := ctx.change.value;
        h.(confidence := Min(95, h.confidence + 12), finding := DbAuthAfterSecret(change.name, change.at),
           evidence := h.evidence + [Evidence("k8s", change.at)])
      else h
    else
      var host := lib.dbHost(logs);
      var short := UpToDot(host);
      var h := base.(finding := DbUnreachable(host), confidence := 80,
                     evidence := base.evidence + [Evidence("logs", "")]);
      if short != [] && ctx.services.Some? && short !in ctx.services.value then
        h.(issue := "CrashLoopBackOff (missing dependency)", finding := DbServiceMissing(short), confidence := 88,
           evidence := h.evidence + [Evidence("k8s", "")])
      else h
  }

  /** A release just before the failure makes it a rollback candidate. */
  function CreditRelease(ctx: Context, h: Hypothesis): Hypothesis {
    if ctx.change.Some? && ctx.change.value.kind != C.SecretChange then
      var change := ctx.change.value;
      h.(confidence := Min(95, h.confidence + 8), rollbackRequired := true,
         rollbackTarget := if change.rollback.Some? then change.rollback.value else Some("previous revision"),
         evidence := h.evidence + [Evidence("gitops", change.at)])
    else h
  }

  predicate DbSignal(lib: Lib, ctx: Context) {
    ContainsAny(AllLogs(lib, ctx), DB_AUTH) || ContainsAny(AllLogs(lib, ctx), DB_REACH)
  }

  function CrashloopDbConnection(lib: Lib, ctx: Context): (r: Option<Hypothesis>)
    ensures r.Some? ==> 40 <= r.value.confidence <= 95
  {
    if !IsCrashlooping(ctx) then None else
    var h := Plain("CrashLoopBackOff", 40, Generic, ["k8s"]);
    if ContainsAny(AllLogs(lib, ctx), DNS_SPECIFIC) || !DbSignal(lib, ctx) then Some(h)
    else Some(CreditRelease(ctx, DbFailure(lib, ctx, h)))
  }

  function ImagePull(lib: Lib, ctx: Context): (r: Option<Hypothesis>)
    ensures r.Some? ==> Ordinary(r.value)
  {
    if !Waits(ctx, "ErrImagePull") && !Waits(ctx, "ImagePullBackOff") then None else
    var issue := if Waits(ctx, "ErrImagePull") then "ErrImagePull" else "ImagePullBackOff";
    var msg := lib.lower(Join(Messages(ctx.events, {"Failed", "BackOff"})));
    var sources := if msg != "" then ["k8s", "events"] else ["k8s"];
    if ContainsAny(msg, ["not found", "manifest unknown"]) then Some(Plain(issue, 92, ImageMissing, sources))
    else if ContainsAny(msg, ["unauthorized", "denied", "forbidden"]) then Some(Plain(issue, 92, RegistryAuth, sources))
    else Some(Plain(issue, 88, Generic, sources))
  }

  function ContainerConfigError(lib: Lib, ctx: Context): (r: Option<Hypothesis>)
    ensures r.Some? ==> Ordinary(r.value)
  {
    if !Waits(ctx, "CreateContainerConfigError") && !Waits(ctx, "CreateContainerError") then None else
    var issue :=
      if Waits(ctx, "CreateContainerConfigError") then "CreateContainerConfigError" else "CreateContainerError";
    var warnings := WarningMessages(ctx.events);
    var msg := lib.lower(Join(warnings));
    var sources := if warnings != [] && warnings[0] != "" then ["k8s", "events"] else ["k8s"];
    if Contains(msg, "configmap") && Contains(msg, "not found") then Some(Plain(issue, 90, ConfigMapMissing, sources))
    else if Contains(msg, "secret") && Contains(msg, "not found") then Some(Plain(issue, 90, SecretMissing, sources))
    else Some(Plain(issue, 85, Generic, sources))
  }

  function OomKilled(ctx: Context): (r: Option<Hypothesis>)
    ensures r.Some? ==> Ordinary(r.value)
  {
    if !(exists c :: c in ctx.containers && c.lastTerminated == "OOMKilled")
       && !(exists p :: p in ctx.pods && p.lastTerminated == "OOMKilled") then None
    else if ctx.memoryTrendRising then Some(Plain("OOMKilled", 95, Generic, ["k8s", "metrics"]))
    else Some(Plain("OOMKilled", 90, Generic, ["k8s"]))
  }

  predicate PodInitFailing(ctx: Context) {
    exists p :: p in ctx.pods
                && (p.initWaiting == "CrashLoopBackOff" || p.initWaiting == "Error" || p.initTerminated != "")
  }

  /** The last line with one of the signals, or "". */
  function LastLine(lib: Lib, lines: seq<string>, signals: seq<string>): string {
    if lines == [] then ""
    else if ContainsAny(lib.lower(lines[|lines| - 1]), signals) then lines[|lines| - 1]
    else LastLine(lib, lines[..|lines| - 1], signals)
  }

  predicate AnyLine(lib: Lib, lines: seq<string>, signals: seq<string>) {
    exists i :: 0 <= i < |lines| && ContainsAny(lib.lower(lines[i]), signals)
  }

  predicate InitFailing(ctx: Context) {
    exists c :: c in ctx.inits
                && (c.waiting == "CrashLoopBackOff" || c.waiting == "Error"
                    || (c.lastTerminated != "" && c.lastExitCode != 0))
  }

  function InitContainerFailure(lib: Lib, ctx: Context): (r: Option<Hypothesis>)
    ensures r.Some? ==> Ordinary(r.value)
  {
    if !InitFailing(ctx) && !PodInitFailing(ctx) then None else
    var err := if AnyLine(lib, ctx.initLogs, INIT_ERRORS) then LastLine(lib, ctx.initLogs, INIT_ERRORS)
               else if ctx.initLogs != [] then ctx.initLogs[|ctx.initLogs| - 1] else "";
    if err != "" then Some(Plain("Init Container Failure", 90, Generic, ["k8s", "logs"]))
    else Some(Plain("Init Container Failure", 85, Generic, ["k8s"]))
  }

  function JobFailure(lib: Lib, ctx: Context): (r: Option<Hypothesis>)
    ensures r.Some? ==> Ordinary(r.value)
  {
    if ctx.job.None? then None else
    var job := ctx.job.value;
    if job.failed == 0 && !(exists c :: c in job.conditions && c.kind == "Failed") then None
    else if LastLine(lib, ctx.logs + ctx.previousLogs, JOB_ERRORS) != ""
    then Some(Plain("Job Failed", 90, Generic, ["k8s", "logs"]))
    else Some(Plain("Job Failed", 85, Generic, ["k8s"]))
  }

  function ProbeFailure(lib: Lib, ctx: Context): (r: Option<Hypothesis>)
    ensures r.Some? ==> Ordinary(r.value)
  {
    var unhealthy := Messages(ctx.events, {"Unhealthy"});
    if unhealthy != [] then
      var msgs := lib.lower(Join(unhealthy));
      if Contains(msgs, "liveness") then Some(Plain("Liveness Probe Failure", 78, Probe("Liveness"), ["events", "k8s"]))
      else if Contains(msgs, "readiness")
      then Some(Plain("Readiness Probe Failure", 78, Probe("Readiness"), ["events"]))
      else Some(Plain("Probe Probe Failure", 78, Probe("Probe"), ["events"]))
    else if && (exists c :: c in ctx.containers && c.liveness)
            && (exists p :: p in ctx.pods && (p.reason == "CrashLoopBackOff" || p.lastTerminated != ""))
            && !ContainsAny(AllLogs(lib, ctx), APP_ERRORS)
    then Some(Plain("Liveness Probe Failure", 62, ProbeSilent, ["k8s"]))
    else None
  }

  function PendingUnschedulable(lib: Lib, ctx: Context): (r: Option<Hypothesis>)
    ensures r.Some? ==> Ordinary(r.value)
  {
    var sched := Messages(ctx.events, {"FailedScheduling"});
    if PodInitFailing(ctx) && sched == [] then None
    else if !(exists p :: p in ctx.pods && p.phase == "Pending") && sched == [] then None else
    var msg := lib.lower(if sched != [] then sched[0] else "");
    var sources := if sched != [] then ["events"] else [];
    if ContainsAny(msg, ["insufficient cpu", "insufficient memory"])
    then Some(Plain("Pending Pods", 80, NoCapacity, sources))
    else if Contains(msg, "taint") then Some(Plain("Pending Pods", 80, Tainted, sources))
    else if (Contains(msg, "didn't match") && Contains(msg, "affinity")) || Contains(msg, "node affinity")
    then Some(Plain("Pending Pods", 80, Affinity, sources))
    else if ContainsAny(msg, ["persistentvolumeclaim", "pvc", "volume node affinity"])
    then Some(Plain("Pending Pods (PVC)", 80, VolumeUnbound, sources))
    else Some(Plain("Pending Pods", 80, Generic, sources))
  }

  function EvictionMessages(pods: seq<Pod>): seq<string> {
    if pods == [] then [] else
    (if pods[0].reason == "Evicted" then [pods[0].message] else []) + EvictionMessages(pods[1..])
  }

  function StorageEviction(lib: Lib, ctx: Context): (r: Option<Hypothesis>)
    ensures r.Some? ==> Ordinary(r.value)
  {
    var evicted := EvictionMessages(ctx.pods);
    if evicted == [] then None
    else if ContainsAny(lib.lower(Join(evicted)), EPHEMERAL)
    then Some(Plain("Pod Evicted: Ephemeral Storage", 88, EphemeralStorage, ["k8s"]))
    else Some(Plain("Pod Evicted", 80, Generic, ["k8s"]))
  }

  // ---- Scaling, disruption, nodes ----

  function HpaCannotScale(ctx: Context): (r: Option<Hypothesis>)
    ensures r.Some? ==> Ordinary(r.value)
  {
    if exists h :: h in ctx.hpas
                   && exists c :: c in h && c.kind in {"ScalingActive", "AbleToScale"} && c.status == "False"
    then Some(Plain("HPA Cannot Scale", 85, Generic, ["k8s"])) else None
  }

  function PdbBlocking(ctx: Context): (r: Option<Hypothesis>)
    ensures r.Some? ==> Ordinary(r.value)
  {
    if 0 in ctx.disruptionsAllowed then Some(Plain("PodDisruptionBudget Blocking", 80, Generic, ["k8s"])) else None
  }

  function NodePressure(nodes: seq<Node>): (r: Option<Hypothesis>)
    ensures r.Some? ==> Ordinary(r.value)
  {
    if nodes == [] then None else
    var n := nodes[0];
    if n.ready != "True" then Some(Plain("NodeNotReady", 85, Generic, ["k8s"]))
    else if n.disk == "True" then Some(Plain("Node DiskPressure", 85, Generic, ["k8s"]))
    else if n.memory == "True" then Some(Plain("Node MemoryPressure", 85, Generic, ["k8s"]))
    else if n.pid == "True" then Some(Plain("Node PidPressure", 85, Generic, ["k8s"]))
    else NodePressure(nodes[1..])
  }

  // ---- Mesh, TLS, DNS ----

  function FirstNamed(containers: seq<Container>, name: string): Option<Container> {
    if containers == [] then None
    else if containers[0].name == name then Some(containers[0])
    else FirstNamed(containers[1..], name)
  }

  function IstioSidecarNotReady(ctx: Context): (r: Option<Hypothesis>)
    ensures r.Some? ==> Ordinary(r.value)
  {
    var proxy := FirstNamed(ctx.containers, "istio-proxy");
    if proxy.None? || proxy.value.ready == Some(true) then None
    else if proxy.value.lastTerminated == "OOMKilled" then Some(Plain("Istio Sidecar Not Ready", 91, ProxyOom, ["k8s"]))
    else if proxy.value.waiting in {"ImagePullBackOff", "ErrImagePull"}
    then Some(Plain("Istio Sidecar Not Ready", 88, ProxyImage, ["k8s"]))
    else Some(Plain("Istio Sidecar Not Ready", 80, Generic, ["k8s"]))
  }

  function TlsCertificate(lib: Lib, ctx: Context): (r: Option<Hypothesis>)
    ensures r.Some? ==> Ordinary(r.value)
  {
    if ContainsAny(AllLogs(lib, ctx), TLS_SIGNALS) then Some(Plain("TLS Certificate Issue", 75, Generic, ["logs"]))
    else None
  }

  predicate DnsSignal(lib: Lib, ctx: Context) {
    ContainsAny(AllLogs(lib, ctx), DNS_STRONG) || ContainsAny(AllLogs(lib, ctx), DNS_WEAK)
  }

  function DnsFailure(lib: Lib, ctx: Context): (r: Option<Hypothesis>)
    ensures r.Some? ==> Ordinary(r.value)
  {
    var logs := AllLogs(lib, ctx);
    if ContainsAny(logs, DNS_STRONG) then Some(Plain("DNS Resolution Failure", 85, Generic, ["logs"]))
    else if ContainsAny(logs, DNS_WEAK) then Some(Plain("DNS Resolution Failure", 72, Generic, ["logs"]))
    else None
  }

  // ---- Ranking ----

  datatype Detector =
    | DCrashloop | DImagePull | DConfig | DOom | DInit | DJob | DProbe | DPending | DEviction
    | DHpa | DPdb | DNode | DIstio | DTls | DDns

  const REGISTRY := [DCrashloop, DImagePull, DConfig, DOom, DInit, DJob, DProbe, DPending, DEviction,
                     DHpa, DPdb, DNode, DIstio, DTls, DDns]

  function Detect(d: Detector, lib: Lib, ctx: Context): Option<Hypothesis> {
    match d
    case DCrashloop => CrashloopDbConnection(lib, ctx)
    case DImagePull => ImagePull(lib, ctx)
    case DConfig => ContainerConfigError(lib, ctx)
    case DOom => OomKilled(ctx)
    case DInit => InitContainerFailure(lib, ctx)
    case DJob => JobFailure(lib, ctx)
    case DProbe => ProbeFailure(lib, ctx)
    case DPending => PendingUnschedulable(lib, ctx)
    case DEviction => StorageEviction(lib, ctx)
    case DHpa => HpaCannotScale(ctx)
    case DPdb => PdbBlocking(ctx)
    case DNode => NodePressure(ctx.nodes)
    case DIstio => IstioSidecarNotReady(ctx)
    case DTls => TlsCertificate(lib, ctx)
    case DDns => DnsFailure(lib, ctx)
  }

  /** The non-null answers of the detectors, in the order given. */
  function Answers(ds: seq<Detector>, lib: Lib, ctx: Context): seq<Hypothesis> {
    if ds == [] then [] else
    var h := Detect(ds[0], lib, ctx);
    (if h.Some? then [h.value] else []) + Answers(ds[1..], lib, ctx)
  }

  /** Highest confidence first. */
  function Rank(h: Hypothesis): int {
    -h.confidence
  }

  function Ranking(ds: seq<Detector>, lib: Lib, ctx: Context): seq<Hypothesis> {
    Sort(Rank, Answers(ds, lib, ctx))
  }

  method RunDetectors(ds: seq<Detector>, lib: Lib, ctx: Context) returns (out: seq<Hypothesis>)
    ensures out == Answers(ds, lib, ctx)
  {
    out := [];
    for i := 0 to |ds|
      invariant out + Answers(ds[i..], lib, ctx) == Answers(ds, lib, ctx)
    {
      assert ds[i..][1..] == ds[i + 1..];
      var h := Detect(ds[i], lib, ctx);
      if h.Some? {
        out := out + [h.value];
      }
    }
  }

  ghost predicate Descending(out: seq<Hypothesis>) {
    forall i, j :: 0 <= i < j < |out| ==> out[i].confidence >= out[j].confidence
  }

  /** `out` is `answers` with multiplicity, by descending confidence, equals in their order. */
  ghost predicate Ranks(out: seq<Hypothesis>, answers: seq<Hypothesis>) {
    && multiset(out) == multiset(answers)
    && Descending(out)
    && forall k :: WithKey(Rank, out, k) == WithKey(Rank, answers, k)
  }

  method Evaluate(lib: Lib, ctx: Context) returns (out: seq<Hypothesis>)
    ensures Ranks(out, Answers(REGISTRY, lib, ctx))
    ensures out == Ranking(REGISTRY, lib, ctx)
  {
    out := RunDetectors(REGISTRY, lib, ctx);
    out := Sort(Rank, out);
    EvaluateRanks(REGISTRY, lib, ctx);
  }

  lemma Registered(d: Detector)
    ensures d in REGISTRY
  {
    assert REGISTRY[0] == DCrashloop && REGISTRY[1] == DImagePull && REGISTRY[2] == DConfig && REGISTRY[3] == DOom
        && REGISTRY[4] == DInit && REGISTRY[5] == DJob && REGISTRY[6] == DProbe && REGISTRY[7] == DPending
        && REGISTRY[8] == DEviction && REGISTRY[9] == DHpa && REGISTRY[10] == DPdb && REGISTRY[11] == DNode
        && REGISTRY[12] == DIstio && REGISTRY[13] == DTls && REGISTRY[14] == DDns;
  }

  lemma {:induction false} AnswersMembers(ds: seq<Detector>, lib: Lib, ctx: Context, h: Hypothesis)
    ensures h in Answers(ds, lib, ctx) <==> exists d :: d in ds && Detect(d, lib, ctx) == Some(h)
  {
    if ds == [] {
    } else {
      AnswersMembers(ds[1..], lib, ctx, h);
      assert ds == [ds[0]] + ds[1..];
    }
  }

  lemma {:induction false} RankingMembers(ds: seq<Detector>, lib: Lib, ctx: Context, h: Hypothesis)
    ensures h in Ranking(ds, lib, ctx) <==> exists d :: d in ds && Detect(d, lib, ctx) == Some(h)
  {
    AnswersMembers(ds, lib, ctx, h);
    SameMembers(Rank, Answers(ds, lib, ctx), h);
  }

  lemma DetectBounds(d: Detector, lib: Lib, ctx: Context)
    ensures Detect(d, lib, ctx).Some? ==> 40 <= Detect(d, lib, ctx).value.confidence <= 95
    ensures Detect(d, lib, ctx).Some? && d != DCrashloop ==> Ordinary(Detect(d, lib, ctx).value)
  {
  }

  lemma SortedDescends(out: seq<Hypothesis>)
    requires Sorted(Rank, out)
    ensures Descending(out)
  {
    forall i, j | 0 <= i < j < |out|
      ensures out[i].confidence >= out[j].confidence
    {
      assert Rank(out[i]) <= Rank(out[j]);
    }
  }

  lemma {:induction false} SortRanks(answers: seq<Hypothesis>)
    ensures Ranks(Sort(Rank, answers), answers)
  {
    SortKeeps(Rank, answers, 0);
    SortedDescends(Sort(Rank, answers));
    forall k
      ensures WithKey(Rank, Sort(Rank, answers), k) == WithKey(Rank, answers, k)
    {
      SortKeeps(Rank, answers, k);
    }
  }

  /** The ranking of any detectors is exactly their non-null answers, by descending confidence, equals in order. */
  lemma {:induction false} EvaluateRanks(ds: seq<Detector>, lib: Lib, ctx: Context)
    ensures Ranks(Ranking(ds, lib, ctx), Answers(ds, lib, ctx))
  {
    SortRanks(Answers(ds, lib, ctx));
  }

  /** Every ranked confidence lies between 40 and 95. */
  lemma {:induction false} ConfidenceBounds(lib: Lib, ctx: Context, h: Hypothesis)
    requires h in Ranking(REGISTRY, lib, ctx)
    ensures 40 <= h.confidence <= 95
  {
    RankingMembers(REGISTRY, lib, ctx, h);
    var d :| d in REGISTRY && Detect(d, lib, ctx) == Some(h);
    DetectBounds(d, lib, ctx);
  }

  /** Both stand in the ranking, and wherever they stand the first precedes the second. */
  ghost predicate Above(out: seq<Hypothesis>, first: Hypothesis, second: Hypothesis) {
    && first in out && second in out
    && forall i, j :: 0 <= i < |out| && 0 <= j < |out| && out[i] == first && out[j] == second ==> i < j
  }

  lemma SortedAbove(out: seq<Hypothesis>, a: Hypothesis, b: Hypothesis)
    requires Sorted(Rank, out) && a in out && b in out && a.confidence > b.confidence
    ensures Above(out, a, b) && !Above(out, b, a)
  {
    SortedDescends(out);
    var i :| 0 <= i < |out| && out[i] == a;
    var j :| 0 <= j < |out| && out[j] == b;
    assert i < j;
  }

  lemma {:induction false} MoreConfidentIsAbove(lib: Lib, ctx: Context, d: Detector, e: Detector)
    requires Detect(d, lib, ctx).Some? && Detect(e, lib, ctx).Some?
    requires Detect(d, lib, ctx).value.confidence != Detect(e, lib, ctx).value.confidence
    ensures Above(Ranking(REGISTRY, lib, ctx), Detect(d, lib, ctx).value, Detect(e, lib, ctx).value)
            <==> Detect(d, lib, ctx).value.confidence > Detect(e, lib, ctx).value.confidence
  {
    var out, a, b := Ranking(REGISTRY, lib, ctx), Detect(d, lib, ctx).value, Detect(e, lib, ctx).value;
    SortKeeps(Rank, Answers(REGISTRY, lib, ctx), 0);
    Registered(d);
    Registered(e);
    RankingMembers(REGISTRY, lib, ctx, a);
    RankingMembers(REGISTRY, lib, ctx, b);
    if a.confidence > b.confidence {
      SortedAbove(out, a, b);
    } else {
      SortedAbove(out, b, a);
    }
  }

  lemma DnsSpecificSplits(logs: string)
    ensures ContainsAny(logs, DNS_SPECIFIC)
            <==> ContainsAny(logs, DNS_STRONG) || Contains(logs, "temporary failure in name resolution")
    ensures Contains(logs, "temporary failure in name resolution") ==> ContainsAny(logs, DNS_WEAK)
  {
    assert forall i :: 0 <= i < 3 ==> DNS_STRONG[i] == DNS_SPECIFIC[i];
    assert DNS_SPECIFIC[3] == DNS_WEAK[0] == "temporary failure in name resolution";
  }

  lemma CrashloopConfidence(lib: Lib, ctx: Context)
    requires IsCrashlooping(ctx)
    ensures CrashloopDbConnection(lib, ctx).Some?
    ensures var c := CrashloopDbConnection(lib, ctx).value.confidence;
            if ContainsAny(AllLogs(lib, ctx), DNS_SPECIFIC) || !DbSignal(lib, ctx) then c == 40 else 80 <= c
  {
  }

  lemma {:induction false} DnsConfidence(lib: Lib, ctx: Context)
    requires IsCrashlooping(ctx) && DnsSignal(lib, ctx)
    ensures CrashloopDbConnection(lib, ctx).Some? && DnsFailure(lib, ctx).Some?
    ensures var c, d := CrashloopDbConnection(lib, ctx).value.confidence, DnsFailure(lib, ctx).value.confidence;
            c != d && (d > c <==> ContainsAny(AllLogs(lib, ctx), DNS_SPECIFIC) || !DbSignal(lib, ctx))
  {
    CrashloopConfidence(lib, ctx);
    DnsSpecificSplits(AllLogs(lib, ctx));
  }

  /**
   * When both speak, the DNS hypothesis ranks above the crashloop one exactly when the logs carry one of the crashloop
   * detector's four DNS strings or no database signal. "server misbehaving" is a DNS signal only to the DNS
   * detector: with a database signal beside it, the crashloop hypothesis wins.
   */
  lemma {:induction false} DnsAboveCrashloopExactly(lib: Lib, ctx: Context)
    requires IsCrashlooping(ctx) && DnsSignal(lib, ctx)
    ensures CrashloopDbConnection(lib, ctx).Some? && DnsFailure(lib, ctx).Some?
    ensures Above(Ranking(REGISTRY, lib, ctx), DnsFailure(lib, ctx).value, CrashloopDbConnection(lib, ctx).value)
            <==> ContainsAny(AllLogs(lib, ctx), DNS_SPECIFIC) || !DbSignal(lib, ctx)
  {
    DnsConfidence(lib, ctx);
    MoreConfidentIsAbove(lib, ctx, DDns, DCrashloop);
  }

  lemma {:induction false} ContainsAfter(before: string, s: string, sub: string)
    requires Contains(s, sub)
    ensures Contains(before + s, sub)
  {
    if before == [] {
      assert before + s == s;
    } else {
      assert (before + s)[1..] == before[1..] + s;
      ContainsAfter(before[1..], s, sub);
    }
  }

  lemma PrefixMembers(s: string, sub: string, c: char)
    ensures sub <= s && c in sub ==> c in s
  {
    if sub <= s && c in sub {
      var i :| 0 <= i < |sub| && sub[i] == c;
      assert s[i] == c;
    }
  }

  /** A text does not contain another with a character it lacks. */
  lemma {:induction false} LacksCharacter(s: string, sub: string, c: char)
    requires c in sub && c !in s
    ensures !Contains(s, sub)
  {
    PrefixMembers(s, sub, c);
    if s == [] {
    } else {
      LacksCharacter(s[1..], sub, c);
    }
  }

  const QUIET := Context([], [], [], [], [], [], [], None, [], [], [], None, false, None)
  const PLAIN_LIB := Lib((s: string) => s, (s: string) => "")

  /** A crash with this log: a database signal, and a failed lookup only the DNS detector recognises. */
  function MisbehavingServer(): Context {
    QUIET.(pods := [Pod("Running", "CrashLoopBackOff", "", "", "", "")],
           logs := ["dial tcp" + (": " + "server misbehaving")])
  }

  /** All four strings have this letter. */
  lemma {:induction false} LacksSpecific(logs: string)
    requires 'o' !in logs
    ensures !ContainsAny(logs, DNS_SPECIFIC)
  {
    assert DNS_SPECIFIC[0][1] == DNS_SPECIFIC[1][5] == DNS_SPECIFIC[2][1] == DNS_SPECIFIC[3][4] == 'o';
    forall i | 0 <= i < |DNS_SPECIFIC|
      ensures !Contains(logs, DNS_SPECIFIC[i])
    {
      LacksCharacter(logs, DNS_SPECIFIC[i], 'o');
    }
  }

  lemma BothEnds(a: string, middle: string, b: string)
    ensures Contains(a + (middle + b), a) && Contains(a + (middle + b), b)
  {
    assert Contains(b, b);
    ContainsAfter(middle, b, b);
    ContainsAfter(a, middle + b, b);
  }

  lemma Listed(logs: string, signals: seq<string>, i: nat)
    requires i < |signals| && Contains(logs, signals[i])
    ensures ContainsAny(logs, signals)
  {
  }

  lemma {:induction false} MisbehavingLogs()
    ensures IsCrashlooping(MisbehavingServer())
    ensures var logs := AllLogs(PLAIN_LIB, MisbehavingServer());
            && ContainsAny(logs, DNS_WEAK) && !ContainsAny(logs, DNS_SPECIFIC) && ContainsAny(logs, DB_REACH)
  {
    var ctx := MisbehavingServer();
    assert ctx.pods[0].reason == "CrashLoopBackOff" && ctx.pods[0] in ctx.pods;
    var logs := DB_REACH[6] + (": " + DNS_WEAK[1]);
    assert AllLogs(PLAIN_LIB, ctx) == logs;
    LacksSpecific(logs);
    BothEnds(DB_REACH[6], ": ", DNS_WEAK[1]);
    Listed(logs, DB_REACH, 6);
    Listed(logs, DNS_WEAK, 1);
  }

  /** A failed lookup with none of the four strings, beside a database signal: the crashloop hypothesis wins. */
  lemma {:induction false} CrashloopAboveDns(lib: Lib, ctx: Context)
    requires IsCrashlooping(ctx) && DbSignal(lib, ctx)
    requires DnsSignal(lib, ctx) && !ContainsAny(AllLogs(lib, ctx), DNS_SPECIFIC)
    ensures DnsFailure(lib, ctx).Some? && CrashloopDbConnection(lib, ctx).Some?
    ensures Above(Ranking(REGISTRY, lib, ctx), CrashloopDbConnection(lib, ctx).value, DnsFailure(lib, ctx).value)
  {
    DnsConfidence(lib, ctx);
    MoreConfidentIsAbove(lib, ctx, DCrashloop, DDns);
  }

  /** It happens. */
  lemma {:induction false} MisbehavingServerRanksBelow()
    ensures var lib, ctx := PLAIN_LIB, MisbehavingServer();
            && DnsFailure(lib, ctx).Some? && CrashloopDbConnection(lib, ctx).Some?
            && Above(Ranking(REGISTRY, lib, ctx), CrashloopDbConnection(lib, ctx).value, DnsFailure(lib, ctx).value)
  {
    MisbehavingLogs();
    CrashloopAboveDns(PLAIN_LIB, MisbehavingServer());
  }

  lemma {:induction false} FirstNamedIsMember(containers: seq<Container>, name: string)
    ensures FirstNamed(containers, name).Some? ==> FirstNamed(containers, name).value in containers
  {
    if containers == [] {
    } else {
      FirstNamedIsMember(containers[1..], name);
    }
  }

  /**
   * An out-of-memory proxy always raises both hypotheses, and ranks above the generic one unless memory was rising. The
   * engine's own collection never sets that flag; only a context put together by another caller can.
   */
  lemma {:induction false} ProxyOomAboveOomExactly(lib: Lib, ctx: Context)
    requires IstioSidecarNotReady(ctx).Some? && IstioSidecarNotReady(ctx).value.finding == ProxyOom
    ensures OomKilled(ctx).Some?
    ensures Above(Ranking(REGISTRY, lib, ctx), IstioSidecarNotReady(ctx).value, OomKilled(ctx).value)
            <==> !ctx.memoryTrendRising
  {
    FirstNamedIsMember(ctx.containers, "istio-proxy");
    MoreConfidentIsAbove(lib, ctx, DIstio, DOom);
  }

  /** A proxy that ran out of memory while memory was seen to rise: the generic hypothesis wins. */
  lemma {:induction false} RisingMemoryRanksProxyBelow()
    ensures var ctx := QUIET.(containers := [Container("istio-proxy", "", "OOMKilled", 137, 1, Some(false), false)],
                              memoryTrendRising := true);
            && IstioSidecarNotReady(ctx).Some? && OomKilled(ctx).Some?
            && IstioSidecarNotReady(ctx).value.finding == ProxyOom
            && forall lib :: !Above(Ranking(REGISTRY, lib, ctx), IstioSidecarNotReady(ctx).value, OomKilled(ctx).value)
  {
    var proxy := Container("istio-proxy", "", "OOMKilled", 137, 1, Some(false), false);
    var ctx := QUIET.(containers := [proxy], memoryTrendRising := true);
    assert ctx.containers[0] == proxy && FirstNamed(ctx.containers, "istio-proxy") == Some(proxy);
    forall lib
      ensures !Above(Ranking(REGISTRY, lib, ctx), IstioSidecarNotReady(ctx).value, OomKilled(ctx).value)
    {
      ProxyOomAboveOomExactly(lib, ctx);
    }
  }

  /** A crash whose logs reject credentials and name no DNS failure. */
  predicate AuthCrash(lib: Lib, ctx: Context) {
    && IsCrashlooping(ctx)
    && ContainsAny(AllLogs(lib, ctx), DB_AUTH)
    && !ContainsAny(AllLogs(lib, ctx), DNS_SPECIFIC)
  }

  lemma PullIgnoresChange(lib: Lib, ctx: Context, ctx': Context)
    requires ctx' == ctx.(change := ctx'.change)
    ensures ImagePull(lib, ctx') == ImagePull(lib, ctx)
  {
  }

  lemma ConfigIgnoresChange(lib: Lib, ctx: Context, ctx': Context)
    requires ctx' == ctx.(change := ctx'.change)
    ensures ContainerConfigError(lib, ctx') == ContainerConfigError(lib, ctx)
  {
  }

  lemma PendingIgnoresChange(lib: Lib, ctx: Context, ctx': Context)
    requires ctx' == ctx.(change := ctx'.change)
    ensures PendingUnschedulable(lib, ctx') == PendingUnschedulable(lib, ctx)
  {
  }

  lemma LogReadersIgnoreChange(lib: Lib, ctx: Context, ctx': Context)
    requires ctx' == ctx.(change := ctx'.change)
    ensures ProbeFailure(lib, ctx') == ProbeFailure(lib, ctx)
    ensures TlsCertificate(lib, ctx') == TlsCertificate(lib, ctx)
    ensures DnsFailure(lib, ctx') == DnsFailure(lib, ctx)
  {
  }

  lemma LineReadersIgnoreChange(lib: Lib, ctx: Context, ctx': Context)
    requires ctx' == ctx.(change := ctx'.change)
    ensures InitContainerFailure(lib, ctx') == InitContainerFailure(lib, ctx)
    ensures JobFailure(lib, ctx') == JobFailure(lib, ctx)
  {
  }

  lemma StatusReadersIgnoreChange(lib: Lib, ctx: Context, ctx': Context)
    requires ctx' == ctx.(change := ctx'.change)
    ensures OomKilled(ctx') == OomKilled(ctx)
    ensures StorageEviction(lib, ctx') == StorageEviction(lib, ctx)
    ensures HpaCannotScale(ctx') == HpaCannotScale(ctx)
    ensures PdbBlocking(ctx') == PdbBlocking(ctx)
    ensures IstioSidecarNotReady(ctx') == IstioSidecarNotReady(ctx)
  {
  }

  lemma {:induction false} OthersIgnoreChange(d: Detector, lib: Lib, ctx: Context, ctx': Context)
    requires d != DCrashloop && ctx' == ctx.(change := ctx'.change)
    ensures Detect(d, lib, ctx') == Detect(d, lib, ctx)
  {
    match d {
      case DImagePull => PullIgnoresChange(lib, ctx, ctx');
      case DConfig => ConfigIgnoresChange(lib, ctx, ctx');
      case DPending => PendingIgnoresChange(lib, ctx, ctx');
      case DInit => LineReadersIgnoreChange(lib, ctx, ctx');
      case DJob => LineReadersIgnoreChange(lib, ctx, ctx');
      case DProbe => LogReadersIgnoreChange(lib, ctx, ctx');
      case DTls => LogReadersIgnoreChange(lib, ctx, ctx');
      case DDns => LogReadersIgnoreChange(lib, ctx, ctx');
      case DNode =>
      case _ => StatusReadersIgnoreChange(lib, ctx, ctx');
    }
  }

  lemma CrashloopIgnoresSecret(lib: Lib, ctx: Context)
    requires ctx.change.Some? && ctx.change.value.kind == C.SecretChange && !AuthCrash(lib, ctx)
    ensures CrashloopDbConnection(lib, ctx.(change := None)) == CrashloopDbConnection(lib, ctx)
  {
  }

  lemma {:induction false} SameAnswers(ds: seq<Detector>, lib: Lib, ctx: Context, ctx': Context)
    requires forall d :: d in ds ==> Detect(d, lib, ctx') == Detect(d, lib, ctx)
    ensures Answers(ds, lib, ctx') == Answers(ds, lib, ctx)
  {
    if ds == [] {
    } else {
      SameAnswers(ds[1..], lib, ctx, ctx');
    }
  }

  lemma AuthCrashCreditsSecret(lib: Lib, ctx: Context)
    requires ctx.change.Some? && ctx.change.value.kind == C.SecretChange && AuthCrash(lib, ctx)
    ensures CrashloopDbConnection(lib, ctx).Some? && CrashloopDbConnection(lib, ctx).value.finding.DbAuthAfterSecret?
    ensures CrashloopDbConnection(lib, ctx.(change := None)).Some?
    ensures !CrashloopDbConnection(lib, ctx.(change := None)).value.finding.DbAuthAfterSecret?
  {
  }

  /** A changed secret leaves the whole ranked list as it is without it, exactly when the crash is no auth crash. */
  lemma {:induction false} SecretMattersExactly(lib: Lib, ctx: Context)
    requires ctx.change.Some? && ctx.change.value.kind == C.SecretChange
    ensures Ranking(REGISTRY, lib, ctx) == Ranking(REGISTRY, lib, ctx.(change := None)) <==> !AuthCrash(lib, ctx)
  {
    var without := ctx.(change := None);
    if AuthCrash(lib, ctx) {
      AuthCrashCreditsSecret(lib, ctx);
      var h := Detect(DCrashloop, lib, ctx).value;
      Registered(DCrashloop);
      RankingMembers(REGISTRY, lib, ctx, h);
      RankingMembers(REGISTRY, lib, without, h);
      forall d | d in REGISTRY
        ensures Detect(d, lib, without) != Some(h)
      {
        DetectBounds(d, lib, without);
      }
    } else {
      CrashloopIgnoresSecret(lib, ctx);
      forall d | d in REGISTRY
        ensures Detect(d, lib, without) == Detect(d, lib, ctx)
      {
        if d != DCrashloop {
          OthersIgnoreChange(d, lib, ctx, without);
        }
      }
      SameAnswers(REGISTRY, lib, ctx, without);
    }
  }

  lemma CrashloopRollback(lib: Lib, ctx: Context)
    requires CrashloopDbConnection(lib, ctx).Some? && CrashloopDbConnection(lib, ctx).value.rollbackRequired
    ensures ctx.change.Some? && ctx.change.value.kind != C.SecretChange
    ensures CrashloopDbConnection(lib, ctx).value.rollbackTarget
            == if ctx.change.value.rollback.Some? then ctx.change.value.rollback.value else Some("previous revision")
  {
  }

  lemma CrashloopTarget(lib: Lib, ctx: Context)
    requires CrashloopDbConnection(lib, ctx).Some? && !CrashloopDbConnection(lib, ctx).value.rollbackRequired
    ensures CrashloopDbConnection(lib, ctx).value.rollbackTarget == Some("")
  {
  }

  /** Without a rollback the target stays empty text. */
  lemma {:induction false} TargetOnlyWithRollback(lib: Lib, ctx: Context, h: Hypothesis)
    requires h in Ranking(REGISTRY, lib, ctx) && !h.rollbackRequired
    ensures h.rollbackTarget == Some("")
  {
    RankingMembers(REGISTRY, lib, ctx, h);
    var d :| d in REGISTRY && Detect(d, lib, ctx) == Some(h);
    if d == DCrashloop {
      CrashloopTarget(lib, ctx);
    } else {
      DetectBounds(d, lib, ctx);
    }
  }

  /** A rollback is asked for only after a sync or a deploy, and to the target that change carries. */
  lemma {:induction false} RollbackNeedsRelease(lib: Lib, ctx: Context, h: Hypothesis)
    requires h in Ranking(REGISTRY, lib, ctx) && h.rollbackRequired
    ensures ctx.change.Some? && ctx.change.value.kind != C.SecretChange
    ensures h.rollbackTarget
            == if ctx.change.value.rollback.Some? then ctx.change.value.rollback.value else Some("previous revision")
  {
    RankingMembers(REGISTRY, lib, ctx, h);
    var d :| d in REGISTRY && Detect(d, lib, ctx) == Some(h);
    DetectBounds(d, lib, ctx);
    CrashloopRollback(lib, ctx);
  }
}
