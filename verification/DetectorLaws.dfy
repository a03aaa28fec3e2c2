/** What each detector answers, exactly, over the collected context and its logs. */
module DetectorLaws {
  import opened Wrappers
  import opened Text
  import opened Detectors
  import C = Correlate

  // ---- Reading the context ----

  ghost predicate Stands(text: string, s: string) {
    exists i :: 0 <= i <= |text| && s <= text[i..]
  }

  /** One of the signals stands somewhere in the text. */
  ghost predicate Says(text: string, signals: seq<string>) {
    exists s :: s in signals && Stands(text, s)
  }

  lemma SaysExactly(text: string, signals: seq<string>)
    ensures ContainsAny(text, signals) <==> Says(text, signals)
  {
    forall s
      ensures Contains(text, s) <==> Stands(text, s)
    {
      ContainsExactly(text, s);
    }
    if s :| s in signals && Stands(text, s) {
      var i :| 0 <= i < |signals| && signals[i] == s;
      assert Contains(text, signals[i]);
    }
  }

  /** The whole log of the subject, current before previous, in lower case. */
  function Logs(lib: Lib, ctx: Context): string {
    lib.lower(Join(ctx.logs + ctx.previousLogs))
  }

  ghost predicate Stuck(ctx: Context, reason: string) {
    (exists c :: c in ctx.containers && c.waiting == reason) || (exists p :: p in ctx.pods && p.reason == reason)
  }

  ghost predicate Crashing(ctx: Context) {
    || Stuck(ctx, "CrashLoopBackOff")
    || exists c :: c in ctx.containers && c.restarts >= 3 && c.lastTerminated == "Error"
  }

  lemma {:induction false} JoinExactly(ws: seq<string>, w: string)
    ensures Join([]) == "" && Join([w]) == w
    ensures ws != [] ==> Join(ws + [w]) == Join(ws) + (" " + w)
  {
    if |ws| <= 1 {
    } else {
      JoinExactly(ws[1..], w);
      assert (ws + [w])[1..] == ws[1..] + [w];
      Regroup(ws[0], [' '] + Join(ws[1..]), [' '] + w);
      Regroup([' '], Join(ws[1..]), [' '] + w);
    }
  }

  /** The messages grow, event by event, by those with a listed reason. */
  lemma {:induction false} MessagesExactly(events: seq<Event>, e: Event, reasons: set<string>)
    ensures Messages([], reasons) == []
    ensures Messages(events + [e], reasons)
            == Messages(events, reasons) + if e.reason in reasons then [e.message] else []
  {
    if events == [] {
      assert ([] + [e])[1..] == [];
    } else {
      MessagesExactly(events[1..], e, reasons);
      assert (events + [e])[1..] == events[1..] + [e];
    }
  }

  lemma {:induction false} WarningMessagesExactly(events: seq<Event>, e: Event)
    ensures WarningMessages([]) == []
    ensures WarningMessages(events + [e]) == WarningMessages(events) + if e.kind == "Warning" then [e.message] else []
  {
    if events == [] {
      assert ([] + [e])[1..] == [];
    } else {
      WarningMessagesExactly(events[1..], e);
      assert (events + [e])[1..] == events[1..] + [e];
    }
  }

  lemma {:induction false} EvictionMessagesExactly(pods: seq<Pod>, p: Pod)
    ensures EvictionMessages([]) == []
    ensures EvictionMessages(pods + [p]) == EvictionMessages(pods) + if p.reason == "Evicted" then [p.message] else []
  {
    if pods == [] {
      assert ([] + [p])[1..] == [];
    } else {
      EvictionMessagesExactly(pods[1..], p);
      assert (pods + [p])[1..] == pods[1..] + [p];
    }
  }

  /** An answer with these sources, without times and without a rollback. */
  lemma PlainExactly(issue: string, confidence: int, finding: Finding, sources: seq<string>)
    ensures var h := Plain(issue, confidence, finding, sources);
            && h.issue == issue && h.confidence == confidence && h.finding == finding
            && |h.evidence| == |sources|
            && (forall i :: 0 <= i < |sources| ==> h.evidence[i] == Evidence(sources[i], ""))
            && !h.rollbackRequired && h.rollbackTarget == Some("")
  {
  }

  // ---- The crashloop detector ----

  ghost predicate SaysDns(logs: string) {
    Says(logs, ["no such host", "name or service not known", "could not resolve",
                "temporary failure in name resolution"])
  }

  ghost predicate SaysAuth(logs: string) {
    Says(logs, ["password authentication failed", "authentication failed", "access denied for user",
                "permission denied", "auth failed", "invalid password", "role \""])
  }

  ghost predicate SaysUnreachable(logs: string) {
    Says(logs, ["connection refused", "connection timed out", "could not connect", "econnrefused",
                "i/o timeout", "no route to host", "dial tcp", "timed out"])
  }

  lemma CrashSignals(lib: Lib, ctx: Context)
    ensures AllLogs(lib, ctx) == Logs(lib, ctx) && (IsCrashlooping(ctx) <==> Crashing(ctx))
    ensures ContainsAny(AllLogs(lib, ctx), DNS_SPECIFIC) <==> SaysDns(Logs(lib, ctx))
    ensures ContainsAny(AllLogs(lib, ctx), DB_AUTH) <==> SaysAuth(Logs(lib, ctx))
    ensures ContainsAny(AllLogs(lib, ctx), DB_REACH) <==> SaysUnreachable(Logs(lib, ctx))
  {
    var logs := Logs(lib, ctx);
    SaysExactly(logs, DNS_SPECIFIC);
    SaysExactly(logs, DB_AUTH);
    SaysExactly(logs, DB_REACH);
  }

  /** It answers exactly for a crashing subject, and only 40 for one with a DNS string or without a database signal. */
  lemma CrashloopExactly(lib: Lib, ctx: Context)
    ensures var r, logs := Detect(DCrashloop, lib, ctx), Logs(lib, ctx);
            && (r.None? <==> !Crashing(ctx))
            && (Crashing(ctx) && (SaysDns(logs) || !(SaysAuth(logs) || SaysUnreachable(logs))) ==>
                  r == Some(Plain("CrashLoopBackOff", 40, Generic, ["k8s"])))
  {
    CrashSignals(lib, ctx);
  }

  lemma CrashEvidence()
    ensures Plain("CrashLoopBackOff", 40, Generic, ["k8s"])
            == Hypothesis("CrashLoopBackOff", 40, Generic, [Evidence("k8s", "")], false, Some(""))
  {
    assert Plain("CrashLoopBackOff", 40, Generic, ["k8s"]).evidence == [Evidence("k8s", "")];
  }

  lemma Third(a: Evidence, b: Evidence, c: Evidence)
    ensures [a, b] + [c] == [a, b, c]
  {
  }

  function TargetOf(change: C.Change): Option<string> {
    if change.rollback.Some? then change.rollback.value else Some("previous revision")
  }

  /** Rejected credentials: 82, a changed secret makes it 94 and is named, a release 90 and asks for a rollback. */
  lemma CrashloopAuthExactly(lib: Lib, ctx: Context)
    requires Crashing(ctx) && !SaysDns(Logs(lib, ctx)) && SaysAuth(Logs(lib, ctx))
    ensures var r := Detect(DCrashloop, lib, ctx);
            match ctx.change
            case None =>
              r == Some(Hypothesis(
                "CrashLoopBackOff", 82, DbAuth, [Evidence("k8s", ""), Evidence("logs", "")], false, Some("")))
            case Some(change) =>
              if change.kind == C.SecretChange then
                r == Some(Hypothesis(
                  "CrashLoopBackOff", 94, DbAuthAfterSecret(change.name, change.at),
                  [Evidence("k8s", ""), Evidence("logs", ""), Evidence("k8s", change.at)], false, Some("")))
              else
                r == Some(Hypothesis(
                  "CrashLoopBackOff", 90, DbAuth,
                  [Evidence("k8s", ""), Evidence("logs", ""), Evidence("gitops", change.at)],
                  true, TargetOf(change)))
  {
    CrashSignals(lib, ctx);
    CrashEvidence();
    assert [Evidence("k8s", "")] + [Evidence("logs", "")] == [Evidence("k8s", ""), Evidence("logs", "")];
    if ctx.change.Some? {
      Third(Evidence("k8s", ""), Evidence("logs", ""), Evidence("k8s", ctx.change.value.at));
      Third(Evidence("k8s", ""), Evidence("logs", ""), Evidence("gitops", ctx.change.value.at));
    }
  }

  lemma {:induction false} UpToDotExactly(short: string, rest: string)
    requires '.' !in short && (rest == [] || rest[0] == '.')
    ensures UpToDot(short + rest) == short
  {
    if short == [] {
      assert short + rest == rest;
    } else {
      assert (short + rest)[1..] == short[1..] + rest;
      UpToDotExactly(short[1..], rest);
    }
  }

  /**
   * An unreachable database at a host whose first label is `short`: a missing dependency exactly when the services
   * were listed and none has that name, at 88 instead of 80. A release adds 8, up to 95; a secret adds nothing.
   */
  lemma CrashloopUnreachableExactly(lib: Lib, ctx: Context, short: string, rest: string)
    requires Crashing(ctx) && !SaysDns(Logs(lib, ctx)) && !SaysAuth(Logs(lib, ctx)) && SaysUnreachable(Logs(lib, ctx))
    requires lib.dbHost(Logs(lib, ctx)) == short + rest && '.' !in short && (rest == [] || rest[0] == '.')
    ensures var missing := short != [] && ctx.services.Some? && short !in ctx.services.value;
            var issue := if missing then "CrashLoopBackOff (missing dependency)" else "CrashLoopBackOff";
            var finding := if missing then DbServiceMissing(short) else DbUnreachable(short + rest);
            var evidence := [Evidence("k8s", ""), Evidence("logs", "")] + if missing then [Evidence("k8s", "")] else [];
            Detect(DCrashloop, lib, ctx) == Some(
              if ctx.change.Some? && ctx.change.value.kind != C.SecretChange then
                Hypothesis(issue, if missing then 95 else 88, finding,
                           evidence + [Evidence("gitops", ctx.change.value.at)], true, TargetOf(ctx.change.value))
              else Hypothesis(issue, if missing then 88 else 80, finding, evidence, false, Some("")))
  {
    CrashSignals(lib, ctx);
    CrashEvidence();
    UpToDotExactly(short, rest);
    var evidence := [Evidence("k8s", "")] + [Evidence("logs", "")];
    assert evidence + [] == evidence == [Evidence("k8s", ""), Evidence("logs", "")];
  }

  // ---- The other pod detectors ----

  lemma ImagePullExactly(lib: Lib, ctx: Context)
    ensures var r := Detect(DImagePull, lib, ctx);
            var err, backOff := Stuck(ctx, "ErrImagePull"), Stuck(ctx, "ImagePullBackOff");
            var msg := lib.lower(Join(Messages(ctx.events, {"Failed", "BackOff"})));
            var issue := if err then "ErrImagePull" else "ImagePullBackOff";
            var sources := if msg == "" then ["k8s"] else ["k8s", "events"];
            var missing := Says(msg, ["not found", "manifest unknown"]);
            var refused := Says(msg, ["unauthorized", "denied", "forbidden"]);
            && (r.None? <==> !err && !backOff)
            && (r.Some? && missing ==> r == Some(Plain(issue, 92, ImageMissing, sources)))
            && (r.Some? && !missing && refused ==> r == Some(Plain(issue, 92, RegistryAuth, sources)))
            && (r.Some? && !missing && !refused ==> r == Some(Plain(issue, 88, Generic, sources)))
  {
    var msg := lib.lower(Join(Messages(ctx.events, {"Failed", "BackOff"})));
    SaysExactly(msg, ["not found", "manifest unknown"]);
    SaysExactly(msg, ["unauthorized", "denied", "forbidden"]);
    assert Waits(ctx, "ErrImagePull") <==> Stuck(ctx, "ErrImagePull");
    assert Waits(ctx, "ImagePullBackOff") <==> Stuck(ctx, "ImagePullBackOff");
  }

  lemma ContainerConfigExactly(lib: Lib, ctx: Context)
    ensures var r := Detect(DConfig, lib, ctx);
            var config, create := Stuck(ctx, "CreateContainerConfigError"), Stuck(ctx, "CreateContainerError");
            var warnings := WarningMessages(ctx.events);
            var msg := lib.lower(Join(warnings));
            var issue := if config then "CreateContainerConfigError" else "CreateContainerError";
            var sources := if warnings == [] || warnings[0] == "" then ["k8s"] else ["k8s", "events"];
            var missing := Stands(msg, "not found");
            && (r.None? <==> !config && !create)
            && (r.Some? && missing && Stands(msg, "configmap") ==>
                  r == Some(Plain(issue, 90, ConfigMapMissing, sources)))
            && (r.Some? && missing && !Stands(msg, "configmap") && Stands(msg, "secret") ==>
                  r == Some(Plain(issue, 90, SecretMissing, sources)))
            && (r.Some? && !(missing && (Stands(msg, "configmap") || Stands(msg, "secret"))) ==>
                  r == Some(Plain(issue, 85, Generic, sources)))
  {
    var msg := lib.lower(Join(WarningMessages(ctx.events)));
    ContainsExactly(msg, "configmap");
    ContainsExactly(msg, "secret");
    ContainsExactly(msg, "not found");
    assert Waits(ctx, "CreateContainerConfigError") <==> Stuck(ctx, "CreateContainerConfigError");
    assert Waits(ctx, "CreateContainerError") <==> Stuck(ctx, "CreateContainerError");
  }

  lemma OomExactly(lib: Lib, ctx: Context)
    ensures var r := Detect(DOom, lib, ctx);
            var killed := (exists c :: c in ctx.containers && c.lastTerminated == "OOMKilled")
                          || exists p :: p in ctx.pods && p.lastTerminated == "OOMKilled";
            && (r.None? <==> !killed)
            && (killed && ctx.memoryTrendRising ==> r == Some(Plain("OOMKilled", 95, Generic, ["k8s", "metrics"])))
            && (killed && !ctx.memoryTrendRising ==> r == Some(Plain("OOMKilled", 90, Generic, ["k8s"])))
  {
  }

  /** `k` is the last line with one of the signals, or before the first when there is none. */
  ghost predicate LastSaying(lib: Lib, lines: seq<string>, signals: seq<string>, k: int) {
    && -1 <= k < |lines| && (k >= 0 ==> Says(lib.lower(lines[k]), signals))
    && forall i :: k < i < |lines| ==> !Says(lib.lower(lines[i]), signals)
  }

  lemma {:induction false} LastLineExactly(lib: Lib, lines: seq<string>, signals: seq<string>) returns (k: int)
    ensures LastSaying(lib, lines, signals, k)
    ensures LastLine(lib, lines, signals) == if k >= 0 then lines[k] else ""
    ensures AnyLine(lib, lines, signals) <==> k >= 0
  {
    if lines == [] {
      k := -1;
    } else {
      var n := |lines| - 1;
      SaysExactly(lib.lower(lines[n]), signals);
      var k' := LastLineExactly(lib, lines[..n], signals);
      k := if Says(lib.lower(lines[n]), signals) then n else k';
      if k >= 0 {
        SaysExactly(lib.lower(lines[k]), signals);
      } else {
        forall i | 0 <= i < |lines|
          ensures !ContainsAny(lib.lower(lines[i]), signals)
        {
          SaysExactly(lib.lower(lines[i]), signals);
        }
      }
    }
  }

  ghost predicate InitStuck(ctx: Context) {
    exists p :: p in ctx.pods && (p.initWaiting in {"CrashLoopBackOff", "Error"} || p.initTerminated != "")
  }

  ghost predicate InitDied(ctx: Context) {
    exists c :: c in ctx.inits
                && (c.waiting in {"CrashLoopBackOff", "Error"} || (c.lastTerminated != "" && c.lastExitCode != 0))
  }

  /** The telling line of the init log is the last with a signal, or simply the last. */
  lemma InitExactly(lib: Lib, ctx: Context) returns (k: int)
    ensures LastSaying(lib, ctx.initLogs, ["error", "fatal", "fail", "cannot", "denied", "lock", "timeout"], k)
    ensures var r, failing := Detect(DInit, lib, ctx), InitDied(ctx) || InitStuck(ctx);
            var line := if k >= 0 then ctx.initLogs[k]
                        else if ctx.initLogs != [] then ctx.initLogs[|ctx.initLogs| - 1] else "";
            && (r.None? <==> !failing)
            && (failing && line == "" ==> r == Some(Plain("Init Container Failure", 85, Generic, ["k8s"])))
            && (failing && line != "" ==> r == Some(Plain("Init Container Failure", 90, Generic, ["k8s", "logs"])))
  {
    k := LastLineExactly(lib, ctx.initLogs, INIT_ERRORS);
    assert PodInitFailing(ctx) <==> InitStuck(ctx);
    assert InitFailing(ctx) <==> InitDied(ctx);
  }

  lemma JobExactly(lib: Lib, ctx: Context) returns (k: int)
    ensures LastSaying(lib, ctx.logs + ctx.previousLogs,
                       ["fatal", "error", "fail", "exception", "cannot", "denied"], k)
    ensures var r, lines := Detect(DJob, lib, ctx), ctx.logs + ctx.previousLogs;
            var failed := ctx.job.Some? && (ctx.job.value.failed != 0
                                            || exists c :: c in ctx.job.value.conditions && c.kind == "Failed");
            && (r.None? <==> !failed)
            && (failed && (k < 0 || lines[k] == "") ==> r == Some(Plain("Job Failed", 85, Generic, ["k8s"])))
            && (failed && k >= 0 && lines[k] != "" ==> r == Some(Plain("Job Failed", 90, Generic, ["k8s", "logs"])))
  {
    k := LastLineExactly(lib, ctx.logs + ctx.previousLogs, JOB_ERRORS);
  }

  ghost predicate SaysAppError(logs: string) {
    Says(logs, ["fatal", "panic", "traceback", "exception", "could not connect", "connection refused",
                "no such host", "x509", "segmentation fault", "unhandled", "exit status 1"])
  }

  /** Fresh events name the probe; without any, restarts with a liveness probe and no application error blame it. */
  lemma ProbeExactly(lib: Lib, ctx: Context)
    ensures var r, unhealthy := Detect(DProbe, lib, ctx), Messages(ctx.events, {"Unhealthy"});
            var msgs := lib.lower(Join(unhealthy));
            var killer := (exists c :: c in ctx.containers && c.liveness)
                          && (exists p :: p in ctx.pods && (p.reason == "CrashLoopBackOff" || p.lastTerminated != ""))
                          && !SaysAppError(Logs(lib, ctx));
            && (r.None? <==> unhealthy == [] && !killer)
            && (unhealthy == [] && killer ==> r == Some(Plain("Liveness Probe Failure", 62, ProbeSilent, ["k8s"])))
            && (unhealthy != [] && Stands(msgs, "liveness") ==>
                  r == Some(Plain("Liveness Probe Failure", 78, Probe("Liveness"), ["events", "k8s"])))
            && (unhealthy != [] && !Stands(msgs, "liveness") && Stands(msgs, "readiness") ==>
                  r == Some(Plain("Readiness Probe Failure", 78, Probe("Readiness"), ["events"])))
            && (unhealthy != [] && !Stands(msgs, "liveness") && !Stands(msgs, "readiness") ==>
                  r == Some(Plain("Probe Probe Failure", 78, Probe("Probe"), ["events"])))
  {
    ProbeSignals(lib.lower(Join(Messages(ctx.events, {"Unhealthy"}))), Logs(lib, ctx));
  }

  lemma ProbeSignals(msgs: string, logs: string)
    ensures Stands(msgs, "liveness") <==> Contains(msgs, "liveness")
    ensures Stands(msgs, "readiness") <==> Contains(msgs, "readiness")
    ensures SaysAppError(logs) <==> ContainsAny(logs, APP_ERRORS)
  {
    ContainsExactly(msgs, "liveness");
    ContainsExactly(msgs, "readiness");
    SaysExactly(logs, APP_ERRORS);
  }

  /** It speaks for a pending pod or a scheduler's event; a stuck init container without one is not its affair. */
  lemma PendingSpeaks(lib: Lib, ctx: Context)
    ensures var sched := Messages(ctx.events, {"FailedScheduling"});
            var pending := exists p :: p in ctx.pods && p.phase == "Pending";
            Detect(DPending, lib, ctx).None? <==> sched == [] && (InitStuck(ctx) || !pending)
  {
    assert PodInitFailing(ctx) <==> InitStuck(ctx);
  }

  /** The scheduler's first message decides what it says. */
  lemma PendingExactly(lib: Lib, ctx: Context)
    requires Detect(DPending, lib, ctx).Some?
    ensures var h, sched := Detect(DPending, lib, ctx).value, Messages(ctx.events, {"FailedScheduling"});
            var msg := lib.lower(if sched == [] then "" else sched[0]);
            var sources := if sched == [] then [] else ["events"];
            var full, taint := Says(msg, ["insufficient cpu", "insufficient memory"]), Stands(msg, "taint");
            var affine := Stands(msg, "node affinity") || (Stands(msg, "didn't match") && Stands(msg, "affinity"));
            var volume := Says(msg, ["persistentvolumeclaim", "pvc", "volume node affinity"]);
            && (full ==> h == Plain("Pending Pods", 80, NoCapacity, sources))
            && (!full && taint ==> h == Plain("Pending Pods", 80, Tainted, sources))
            && (!full && !taint && affine ==> h == Plain("Pending Pods", 80, Affinity, sources))
            && (!full && !taint && !affine && volume ==>
                  h == Plain("Pending Pods (PVC)", 80, VolumeUnbound, sources))
            && (!full && !taint && !affine && !volume ==> h == Plain("Pending Pods", 80, Generic, sources))
  {
    var sched := Messages(ctx.events, {"FailedScheduling"});
    PendingSignals(lib.lower(if sched == [] then "" else sched[0]));
  }

  lemma PendingSignals(msg: string)
    ensures Says(msg, ["insufficient cpu", "insufficient memory"])
            <==> ContainsAny(msg, ["insufficient cpu", "insufficient memory"])
    ensures Says(msg, ["persistentvolumeclaim", "pvc", "volume node affinity"])
            <==> ContainsAny(msg, ["persistentvolumeclaim", "pvc", "volume node affinity"])
    ensures Stands(msg, "taint") <==> Contains(msg, "taint")
    ensures Stands(msg, "node affinity") <==> Contains(msg, "node affinity")
    ensures Stands(msg, "didn't match") <==> Contains(msg, "didn't match")
    ensures Stands(msg, "affinity") <==> Contains(msg, "affinity")
  {
    SaysExactly(msg, ["insufficient cpu", "insufficient memory"]);
    SaysExactly(msg, ["persistentvolumeclaim", "pvc", "volume node affinity"]);
    ContainsExactly(msg, "taint");
    ContainsExactly(msg, "node affinity");
    ContainsExactly(msg, "didn't match");
    ContainsExactly(msg, "affinity");
  }

  lemma EvictionExactly(lib: Lib, ctx: Context)
    ensures var r, msg := Detect(DEviction, lib, ctx), lib.lower(Join(EvictionMessages(ctx.pods)));
            var evicted := EvictionMessages(ctx.pods) != [];
            var storage := Says(msg, ["ephemeral", "emptydir", "exceeds the limit", "local storage"]);
            && (r.None? <==> !evicted)
            && (evicted && storage ==>
                  r == Some(Plain("Pod Evicted: Ephemeral Storage", 88, EphemeralStorage, ["k8s"])))
            && (evicted && !storage ==> r == Some(Plain("Pod Evicted", 80, Generic, ["k8s"])))
  {
    SaysExactly(lib.lower(Join(EvictionMessages(ctx.pods))), EPHEMERAL);
  }

  // ---- Cluster detectors ----

  ghost predicate Stalled(conditions: seq<Condition>) {
    exists c :: c in conditions && (c.kind == "ScalingActive" || c.kind == "AbleToScale") && c.status == "False"
  }

  lemma ScalingExactly(lib: Lib, ctx: Context)
    ensures var r := Detect(DHpa, lib, ctx);
            var stalled := exists h :: h in ctx.hpas && Stalled(h);
            (r.None? <==> !stalled) && (stalled ==> r == Some(Plain("HPA Cannot Scale", 85, Generic, ["k8s"])))
    ensures var r, blocked := Detect(DPdb, lib, ctx), exists n :: n in ctx.disruptionsAllowed && n == 0;
            && (r.None? <==> !blocked)
            && (blocked ==> r == Some(Plain("PodDisruptionBudget Blocking", 80, Generic, ["k8s"])))
  {
  }

  ghost predicate Sick(n: Node) {
    n.ready != "True" || n.disk == "True" || n.memory == "True" || n.pid == "True"
  }

  lemma {:induction false} FirstSick(nodes: seq<Node>) returns (k: nat)
    ensures k <= |nodes| && forall i :: 0 <= i < k ==> !Sick(nodes[i])
    ensures k < |nodes| ==> Sick(nodes[k])
    ensures NodePressure(nodes) == if k < |nodes| then NodePressure([nodes[k]]) else None
  {
    if nodes == [] || Sick(nodes[0]) {
      k := 0;
    } else {
      var k' := FirstSick(nodes[1..]);
      k := k' + 1;
    }
  }

  /** The first sick node speaks. */
  lemma NodeExactly(lib: Lib, ctx: Context) returns (k: nat)
    ensures k <= |ctx.nodes| && forall i :: 0 <= i < k ==> !Sick(ctx.nodes[i])
    ensures k == |ctx.nodes| ==> Detect(DNode, lib, ctx).None?
    ensures k < |ctx.nodes| ==>
              var n := ctx.nodes[k];
              && Sick(n)
              && Detect(DNode, lib, ctx) == Some(Plain(
                   if n.ready != "True" then "NodeNotReady"
                   else if n.disk == "True" then "Node DiskPressure"
                   else if n.memory == "True" then "Node MemoryPressure" else "Node PidPressure",
                   85, Generic, ["k8s"]))
  {
    k := FirstSick(ctx.nodes);
  }

  lemma {:induction false} FirstNamedExactly(containers: seq<Container>, name: string) returns (k: nat)
    ensures k <= |containers| && forall i :: 0 <= i < k ==> containers[i].name != name
    ensures k == |containers| ==> FirstNamed(containers, name) == None
    ensures k < |containers| ==> containers[k].name == name && FirstNamed(containers, name) == Some(containers[k])
  {
    if containers == [] || containers[0].name == name {
      k := 0;
    } else {
      var k' := FirstNamedExactly(containers[1..], name);
      k := k' + 1;
    }
  }

  /** The first container of that name is the proxy; it is silent only when absent or known to be ready. */
  lemma ProxyExactly(lib: Lib, ctx: Context) returns (k: nat)
    ensures k <= |ctx.containers| && forall i :: 0 <= i < k ==> ctx.containers[i].name != "istio-proxy"
    ensures k < |ctx.containers| ==> ctx.containers[k].name == "istio-proxy"
    ensures var r := Detect(DIstio, lib, ctx);
            if k == |ctx.containers| || ctx.containers[k].ready == Some(true) then r.None?
            else if ctx.containers[k].lastTerminated == "OOMKilled" then
              r == Some(Plain("Istio Sidecar Not Ready", 91, ProxyOom, ["k8s"]))
            else if ctx.containers[k].waiting == "ImagePullBackOff" || ctx.containers[k].waiting == "ErrImagePull" then
              r == Some(Plain("Istio Sidecar Not Ready", 88, ProxyImage, ["k8s"]))
            else r == Some(Plain("Istio Sidecar Not Ready", 80, Generic, ["k8s"]))
  {
    k := FirstNamedExactly(ctx.containers, "istio-proxy");
  }

  lemma TlsExactly(lib: Lib, ctx: Context)
    ensures var r := Detect(DTls, lib, ctx);
            var broken := Says(Logs(lib, ctx), ["x509", "certificate has expired", "certificate verify failed",
                                                "tls handshake", "unable to verify the first certificate"]);
            (r.None? <==> !broken) && (broken ==> r == Some(Plain("TLS Certificate Issue", 75, Generic, ["logs"])))
  {
    SaysExactly(Logs(lib, ctx), TLS_SIGNALS);
  }

  lemma DnsExactly(lib: Lib, ctx: Context)
    ensures var r, logs := Detect(DDns, lib, ctx), Logs(lib, ctx);
            var strong := Says(logs, ["no such host", "name or service not known", "could not resolve"]);
            var weak := Says(logs, ["temporary failure in name resolution", "server misbehaving"]);
            && (r.None? <==> !strong && !weak)
            && (strong ==> r == Some(Plain("DNS Resolution Failure", 85, Generic, ["logs"])))
            && (!strong && weak ==> r == Some(Plain("DNS Resolution Failure", 72, Generic, ["logs"])))
  {
    SaysExactly(Logs(lib, ctx), DNS_STRONG);
    SaysExactly(Logs(lib, ctx), DNS_WEAK);
  }

  // ---- All of them ----

  /** Its place in the order of registration. */
  function Position(d: Detector): (n: nat)
    ensures n < 15
  {
    match d
    case DCrashloop => 0 case DImagePull => 1 case DConfig => 2 case DOom => 3 case DInit => 4
    case DJob => 5 case DProbe => 6 case DPending => 7 case DEviction => 8 case DHpa => 9
    case DPdb => 10 case DNode => 11 case DIstio => 12 case DTls => 13 case DDns => 14
  }

  /** Every detector is registered once, at its place. */
  lemma RegistryExactly(d: Detector)
    ensures |REGISTRY| == 15 && REGISTRY[Position(d)] == d
  {
    assert REGISTRY[0] == DCrashloop && REGISTRY[1] == DImagePull && REGISTRY[2] == DConfig && REGISTRY[3] == DOom
        && REGISTRY[4] == DInit && REGISTRY[5] == DJob && REGISTRY[6] == DProbe && REGISTRY[7] == DPending
        && REGISTRY[8] == DEviction && REGISTRY[9] == DHpa && REGISTRY[10] == DPdb && REGISTRY[11] == DNode
        && REGISTRY[12] == DIstio && REGISTRY[13] == DTls && REGISTRY[14] == DDns;
  }

  /** The answers grow, detector by detector, by the one that speaks. */
  lemma {:induction false} AnswersExactly(ds: seq<Detector>, d: Detector, lib: Lib, ctx: Context)
    ensures Answers([], lib, ctx) == []
    ensures var r := Detect(d, lib, ctx);
            Answers(ds + [d], lib, ctx) == Answers(ds, lib, ctx) + if r.Some? then [r.value] else []
  {
    if ds == [] {
      assert ([] + [d])[1..] == [];
    } else {
      AnswersExactly(ds[1..], d, lib, ctx);
      assert (ds + [d])[1..] == ds[1..] + [d];
    }
  }
}
