/** The diagnosis pipeline: correlate, rank, bump the top hypothesis on a runbook match, report. */
module Engine {
  import opened Wrappers
  import C = Correlate
  import opened Detectors

  datatype Report = Report(
    issue: string, confidence: int, evidence: seq<Evidence>, rollbackRequired: bool, rollbackTarget: string,
    alternatives: seq<Hypothesis>)

  /** A report's fields are validated: a rollback target that is no text raises. */
  datatype ReportError = TargetMissing

  /** One entry when some reads were denied, none otherwise. */
  function DegradedEvidence(degraded: seq<string>): seq<Evidence> {
    if degraded == [] then [] else [Evidence("k8s", "")]
  }

  /** `hypotheses[1:4]`. */
  function NextThree(ranked: seq<Hypothesis>): seq<Hypothesis>
    requires ranked != []
  {
    ranked[1..if |ranked| <= 4 then |ranked| else 4]
  }

  /** A top hypothesis with what the engine notes on it. */
  function Noted(top: Hypothesis, degraded: seq<string>, runbook: Option<string>): Hypothesis {
    var h := top.(evidence := top.evidence + DegradedEvidence(degraded));
    if runbook.None? then h
    else h.(confidence := Min(97, h.confidence + 3), evidence := h.evidence + [Evidence("kb", "")])
  }

  const NOTHING := "No known failure signature detected"

  function ReportOn(ranked: seq<Hypothesis>, degraded: seq<string>, runbook: Option<string>)
    : Result<Report, ReportError>
  {
    if ranked == [] then
      Ok(Report(NOTHING, 20, [Evidence("k8s", "")] + DegradedEvidence(degraded), false, "", []))
    else
      var top := Noted(ranked[0], degraded, runbook);
      match top.rollbackTarget
      case None => Err(TargetMissing)
      case Some(target) =>
        Ok(Report(top.issue, top.confidence, top.evidence, top.rollbackRequired, target, NextThree(ranked)))
  }

  /** A hypothesis as the object the detectors create and the engine edits. */
  class Draft {
    const issue: string
    const finding: Finding
    const rollbackRequired: bool
    const rollbackTarget: Option<string>
    var confidence: int
    var evidence: seq<Evidence>
    var runbook: Option<string>

    constructor (h: Hypothesis)
      ensures View() == h && runbook == None
    {
      issue, finding, rollbackRequired, rollbackTarget := h.issue, h.finding, h.rollbackRequired, h.rollbackTarget;
      confidence, evidence, runbook := h.confidence, h.evidence, None;
    }

    function View(): Hypothesis
      reads this
    {
      Hypothesis(issue, confidence, finding, evidence, rollbackRequired, rollbackTarget)
    }
  }

  function Views(drafts: seq<Draft>): seq<Hypothesis>
    reads drafts
  {
    seq(|drafts|, i requires 0 <= i < |drafts| reads drafts => drafts[i].View())
  }

  /** One new object for each hypothesis. */
  method RaiseAll(hs: seq<Hypothesis>) returns (drafts: seq<Draft>)
    ensures fresh(drafts) && Views(drafts) == hs
    ensures forall i, j :: 0 <= i < j < |drafts| ==> drafts[i] != drafts[j]
  {
    drafts := [];
    for n := 0 to |hs|
      invariant |drafts| == n && fresh(drafts)
      invariant forall i :: 0 <= i < n ==> drafts[i].View() == hs[i]
      invariant forall i, j :: 0 <= i < j < n ==> drafts[i] != drafts[j]
    {
      var d := new Draft(hs[n]);
      drafts := drafts + [d];
    }
  }

  /** Notes on the first object leave all others as they were. */
  method Annotate(drafts: seq<Draft>, degraded: seq<string>, runbook: Option<string>)
    requires drafts != [] && forall i, j :: 0 <= i < j < |drafts| ==> drafts[i] != drafts[j]
    modifies drafts[0]
    ensures Views(drafts) == old(Views(drafts))[0 := Noted(old(drafts[0].View()), degraded, runbook)]
    ensures drafts[0].runbook == (if runbook.Some? then runbook else old(drafts[0].runbook))
  {
    var top := drafts[0];
    top.evidence := top.evidence + DegradedEvidence(degraded);
    if runbook.Some? {
      top.runbook := runbook;
      top.evidence := top.evidence + [Evidence("kb", "")];
      top.confidence := Min(97, top.confidence + 3);
    }
  }

  /** What the engine adds to the evidence of the top: a note on denied reads, then one on the runbook. */
  function Notes(degraded: seq<string>, runbook: Option<string>): seq<Evidence> {
    (if degraded != [] then [Evidence("k8s", "")] else []) + if runbook.Some? then [Evidence("kb", "")] else []
  }

  /**
   * The report leads with the first in the ranking and its rollback, and lists the next three unchanged. A runbook
   * makes it 3 more confident, up to 97; nothing in the ranking is more confident than the report.
   */
  ghost predicate Leads(report: Report, ranked: seq<Hypothesis>, degraded: seq<string>, runbook: Option<string>) {
    if ranked == [] then
      report == Report("No known failure signature detected", 20, [Evidence("k8s", "")] + Notes(degraded, None),
                       false, "", [])
    else
      && report.issue == ranked[0].issue
      && report.confidence == (if runbook.Some? then Min(97, ranked[0].confidence + 3) else ranked[0].confidence)
      && report.evidence == ranked[0].evidence + Notes(degraded, runbook)
      && report.rollbackRequired == ranked[0].rollbackRequired
      && Some(report.rollbackTarget) == ranked[0].rollbackTarget
      && (forall h :: h in ranked ==> h.confidence <= report.confidence)
      && 40 <= ranked[0].confidence <= report.confidence <= 97
      && report.alternatives <= ranked[1..] && |report.alternatives| == Min(3, |ranked| - 1)
  }

  /**
   * `runbook` is what the optional lookup matched; disabled, failing or empty lookups match nothing. Only the top
   * object is edited, so the alternatives are reported as the detectors raised them.
   */
  method Diagnose(lib: Lib, ctx: Context, degraded: seq<string>, runbook: Option<string>)
    returns (r: Result<Report, ReportError>)
    ensures r.Ok? ==> Leads(r.value, Ranking(REGISTRY, lib, ctx), degraded, runbook)
    ensures r.Err? <==> Unreportable(Ranking(REGISTRY, lib, ctx))
    ensures r == ReportOn(Ranking(REGISTRY, lib, ctx), degraded, runbook)
  {
    var ranked := Evaluate(lib, ctx);
    ReportLeads(lib, ctx, degraded, runbook);
    if ranked == [] {
      return Ok(Report(NOTHING, 20, [Evidence("k8s", "")] + DegradedEvidence(degraded), false, "", []));
    }
    var hypotheses := RaiseAll(ranked);
    Annotate(hypotheses, degraded, runbook);
    var top := hypotheses[0];
    assert top.View() == Views(hypotheses)[0];
    if top.rollbackTarget.None? {
      return Err(TargetMissing);
    }
    return Ok(Report(top.issue, top.confidence, top.evidence, top.rollbackRequired, top.rollbackTarget.value,
                     NextThree(Views(hypotheses))));
  }

  /** The top hypothesis asks for a rollback to a revision whose name is missing. */
  predicate Unreportable(ranked: seq<Hypothesis>) {
    ranked != [] && ranked[0].rollbackRequired && ranked[0].rollbackTarget.None?
  }

  lemma NotedEvidence(top: Hypothesis, degraded: seq<string>, runbook: Option<string>)
    ensures Noted(top, degraded, runbook).evidence == top.evidence + Notes(degraded, runbook)
  {
  }

  lemma {:induction false} ReportLeads(lib: Lib, ctx: Context, degraded: seq<string>, runbook: Option<string>)
    ensures var ranked := Ranking(REGISTRY, lib, ctx);
            var r := ReportOn(ranked, degraded, runbook);
            (r.Ok? ==> Leads(r.value, ranked, degraded, runbook)) && (r.Err? <==> Unreportable(ranked))
  {
    var ranked := Ranking(REGISTRY, lib, ctx);
    if ranked == [] {
      assert DegradedEvidence(degraded) == Notes(degraded, None);
    } else {
      NotedEvidence(ranked[0], degraded, runbook);
      FirstIsMost(lib, ctx);
      ConfidenceBounds(lib, ctx, ranked[0]);
      assert NextThree(ranked) == ranked[1..][..Min(3, |ranked| - 1)];
      if !ranked[0].rollbackRequired {
        TargetOnlyWithRollback(lib, ctx, ranked[0]);
      }
    }
  }

  lemma {:induction false} FirstIsMost(lib: Lib, ctx: Context)
    requires Ranking(REGISTRY, lib, ctx) != []
    ensures var ranked := Ranking(REGISTRY, lib, ctx); forall h :: h in ranked ==> h.confidence <= ranked[0].confidence
  {
    var ranked := Ranking(REGISTRY, lib, ctx);
    EvaluateRanks(REGISTRY, lib, ctx);
    forall h | h in ranked
      ensures h.confidence <= ranked[0].confidence
    {
      var i :| 0 <= i < |ranked| && ranked[i] == h;
      assert i > 0 ==> ranked[0].confidence >= ranked[i].confidence;
    }
  }

  // ---- From the histories to the report ----

  /** Whether some pod of the subject has been failing since it started. */
  predicate CrashingSinceStart(pods: seq<Pod>) {
    exists p :: p in pods && (p.reason == "CrashLoopBackOff" || p.reason == "Error" || p.lastTerminated != "")
  }

  /** The events as correlation reads them. */
  function Stamped(events: seq<Event>): seq<C.Event> {
    seq(|events|, i requires 0 <= i < |events| => C.Event(events[i].kind, events[i].timestamp))
  }

  /** The changes that correlation chooses among, from the engine's anchor on the context, or from the present. */
  function CandidatesFor(
    parse: string -> Option<int>, h: C.History, ctx: Context, podStart: Option<int>, now: int): seq<C.Candidate>
  {
    var anchor := C.FailureAnchor(parse, Stamped(ctx.events), CrashingSinceStart(ctx.pods), podStart);
    C.Candidates(parse, h, if anchor.Some? then anchor.value else now)
  }

  /** The context's change is what correlation blamed among these candidates. */
  ghost predicate Correlated(ctx: Context, cs: seq<C.Candidate>) {
    ctx.change == C.Blame(cs)
  }

  /** The name of the change next before the blamed release in its history, or the words for it when there is none. */
  ghost predicate GoesBackTo(cs: seq<C.Candidate>, target: Option<string>)
    requires cs != []
  {
    var same := C.SameKind(cs);
    target == if |same| >= 2 then same[|same| - 2].name else Some("previous revision")
  }

  /**
   * A rollback at the top follows the latest release before the failure. It is reported with the revision next before
   * in that release's history; if that one has no name, building the report raises instead.
   */
  lemma {:induction false} ReportedRollback(
    lib: Lib, ctx: Context, cs: seq<C.Candidate>, degraded: seq<string>, runbook: Option<string>)
    requires Correlated(ctx, cs)
    requires Ranking(REGISTRY, lib, ctx) != [] && Ranking(REGISTRY, lib, ctx)[0].rollbackRequired
    ensures cs != [] && C.Latest(cs).kind != C.SecretChange
    ensures match ReportOn(Ranking(REGISTRY, lib, ctx), degraded, runbook)
            case Ok(report) => report.rollbackRequired && GoesBackTo(cs, Some(report.rollbackTarget))
            case Err(_) => GoesBackTo(cs, None)
  {
    var ranked := Ranking(REGISTRY, lib, ctx);
    assert ranked[0] in ranked;
    RollbackNeedsRelease(lib, ctx, ranked[0]);
    if |C.SameKind(cs)| >= 2 {
      C.RollbackTargetExact(cs);
    }
  }

  lemma {:induction false} StampedWarning(events: seq<Event>, e: Event)
    requires e in events
    ensures C.Event(e.kind, e.timestamp) in Stamped(events)
  {
    var i :| 0 <= i < |events| && events[i] == e;
    assert Stamped(events)[i] == C.Event(e.kind, e.timestamp);
  }

  /** A change at this time is after no readable Warning of the context, nor after pod start when crashing since. */
  ghost predicate BeforeFailure(t: int, parse: string -> Option<int>, ctx: Context, podStart: Option<int>) {
    forall at :: FailsAt(parse, ctx, podStart, at) ==> t <= at
  }

  /** The time of a readable Warning, or of the pod's start if some pod has been failing since. */
  ghost predicate FailsAt(parse: string -> Option<int>, ctx: Context, podStart: Option<int>, at: int) {
    || (exists e :: e in ctx.events && e.kind == "Warning" && C.Readable(parse, e.timestamp)
                    && C.TimeOf(parse, e.timestamp) == at)
    || (podStart == Some(at)
        && exists p :: p in ctx.pods && (p.reason in {"CrashLoopBackOff", "Error"} || p.lastTerminated != ""))
  }

  lemma {:induction false} StampedExactly(parse: string -> Option<int>, ctx: Context, podStart: Option<int>, at: int)
    ensures C.FailingAt(parse, Stamped(ctx.events), CrashingSinceStart(ctx.pods), podStart, at)
            <==> FailsAt(parse, ctx, podStart, at)
  {
    if e :| C.WarnsAt(parse, Stamped(ctx.events), e) && C.TimeOf(parse, e.timestamp) == at {
      var i :| 0 <= i < |ctx.events| && Stamped(ctx.events)[i] == e;
      assert ctx.events[i] in ctx.events;
    }
    if e :| e in ctx.events && e.kind == "Warning" && C.Readable(parse, e.timestamp)
            && C.TimeOf(parse, e.timestamp) == at {
      StampedWarning(ctx.events, e);
      assert C.WarnsAt(parse, Stamped(ctx.events), C.Event(e.kind, e.timestamp));
    }
  }

  /** The candidates are the readable changes up to the first of those moments, or up to the present without any. */
  lemma {:induction false} CandidatesForExactly(
    parse: string -> Option<int>, h: C.History, ctx: Context, podStart: Option<int>, now: int)
    returns (anchor: int)
    ensures if exists at :: FailsAt(parse, ctx, podStart, at)
            then FailsAt(parse, ctx, podStart, anchor) && BeforeFailure(anchor, parse, ctx, podStart)
            else anchor == now
    ensures CandidatesFor(parse, h, ctx, podStart, now) == C.Candidates(parse, h, anchor)
  {
    var found := C.FailureAnchor(parse, Stamped(ctx.events), CrashingSinceStart(ctx.pods), podStart);
    anchor := if found.Some? then found.value else now;
    C.AnchorExact(parse, Stamped(ctx.events), CrashingSinceStart(ctx.pods), podStart);
    forall at
      ensures C.FailingAt(parse, Stamped(ctx.events), CrashingSinceStart(ctx.pods), podStart, at)
              <==> FailsAt(parse, ctx, podStart, at)
    {
      StampedExactly(parse, ctx, podStart, at);
    }
  }

  lemma {:induction false} BlamedBeforeFailure(
    parse: string -> Option<int>, h: C.History, ctx: Context, podStart: Option<int>, now: int)
    requires CandidatesFor(parse, h, ctx, podStart, now) != []
    ensures BeforeFailure(C.Latest(CandidatesFor(parse, h, ctx, podStart, now)).t, parse, ctx, podStart)
  {
    var cs := CandidatesFor(parse, h, ctx, podStart, now);
    var anchor := CandidatesForExactly(parse, h, ctx, podStart, now);
    C.LatestBounds(cs, cs[0]);
    C.CandidatesExact(parse, h, anchor, C.Latest(cs));
  }

  /** The predecessor, if there is one, is strictly earlier exactly when no other change of the kind shares the time. */
  ghost predicate PredecessorEarlier(cs: seq<C.Candidate>)
    requires cs != []
  {
    var same := C.SameKind(cs);
    |same| >= 2 ==> (same[|same| - 2].t < C.Latest(cs).t <==> |C.Ties(cs)| == 1)
  }

  lemma {:induction false} PredecessorIsEarlier(cs: seq<C.Candidate>)
    requires cs != []
    ensures PredecessorEarlier(cs)
  {
    if |C.SameKind(cs)| >= 2 {
      C.RollbackTargetExact(cs);
    }
  }

  /**
   * From the histories to the report: a rollback at the top leaves a release that happened no later than any readable
   * Warning of the subject, and than the pod's start if it has been crashing since. It goes to the change of that kind
   * before it, which is strictly earlier exactly when the release shares its moment with no other, and which is
   * reported if it has a name.
   */
  lemma {:induction false} RollbackChain(
    lib: Lib, parse: string -> Option<int>, h: C.History, ctx: Context, podStart: Option<int>, now: int,
    degraded: seq<string>, runbook: Option<string>)
    requires Correlated(ctx, CandidatesFor(parse, h, ctx, podStart, now))
    requires Ranking(REGISTRY, lib, ctx) != [] && Ranking(REGISTRY, lib, ctx)[0].rollbackRequired
    ensures var cs := CandidatesFor(parse, h, ctx, podStart, now);
            && cs != [] && C.Latest(cs).kind != C.SecretChange
            && BeforeFailure(C.Latest(cs).t, parse, ctx, podStart)
            && PredecessorEarlier(cs)
            && match ReportOn(Ranking(REGISTRY, lib, ctx), degraded, runbook)
               case Ok(report) => report.rollbackRequired && GoesBackTo(cs, Some(report.rollbackTarget))
               case Err(_) => GoesBackTo(cs, None)
  {
    var cs := CandidatesFor(parse, h, ctx, podStart, now);
    ReportedRollback(lib, ctx, cs, degraded, runbook);
    BlamedBeforeFailure(parse, h, ctx, podStart, now);
    PredecessorIsEarlier(cs);
  }

  /**
   * The engine's own collection fills in secret changes only, never syncs or deploys: whatever it finds, it makes a
   * report, and one that asks for no rollback.
   */
  lemma {:induction false} OwnCollectionNeverRollsBack(
    lib: Lib, ctx: Context, parse: string -> Option<int>, secrets: seq<C.Record>, podStart: Option<int>, now: int,
    degraded: seq<string>, runbook: Option<string>)
    requires Correlated(ctx, CandidatesFor(parse, C.History([], [], secrets), ctx, podStart, now))
    ensures var r := ReportOn(Ranking(REGISTRY, lib, ctx), degraded, runbook); r.Ok? && !r.value.rollbackRequired
  {
    var cs := CandidatesFor(parse, C.History([], [], secrets), ctx, podStart, now);
    var ranked := Ranking(REGISTRY, lib, ctx);
    ReportLeads(lib, ctx, degraded, runbook);
    if ranked != [] && ranked[0].rollbackRequired {
      var anchor := CandidatesForExactly(parse, C.History([], [], secrets), ctx, podStart, now);
      ReportedRollback(lib, ctx, cs, degraded, runbook);
      C.LatestBounds(cs, cs[0]);
      C.CandidatesExact(parse, C.History([], [], secrets), anchor, C.Latest(cs));
      assert false;
    }
  }

  /** Only the generic detector raises this issue. */
  ghost predicate NotOom(r: Option<Hypothesis>) {
    r.Some? ==> r.value.issue != "OOMKilled"
  }

  lemma PodIssues(lib: Lib, ctx: Context)
    ensures NotOom(CrashloopDbConnection(lib, ctx)) && NotOom(ImagePull(lib, ctx))
    ensures NotOom(ContainerConfigError(lib, ctx))
  {
  }

  lemma RunIssues(lib: Lib, ctx: Context)
    ensures NotOom(InitContainerFailure(lib, ctx)) && NotOom(JobFailure(lib, ctx)) && NotOom(ProbeFailure(lib, ctx))
  {
  }

  lemma PlacementIssues(lib: Lib, ctx: Context)
    ensures NotOom(PendingUnschedulable(lib, ctx)) && NotOom(StorageEviction(lib, ctx))
    ensures NotOom(HpaCannotScale(ctx)) && NotOom(PdbBlocking(ctx))
  {
  }

  lemma PlatformIssues(lib: Lib, ctx: Context)
    ensures NotOom(IstioSidecarNotReady(ctx)) && NotOom(TlsCertificate(lib, ctx)) && NotOom(DnsFailure(lib, ctx))
  {
  }

  lemma {:induction false} NodeIssue(nodes: seq<Node>)
    ensures NotOom(NodePressure(nodes))
  {
    if nodes == [] {
    } else {
      NodeIssue(nodes[1..]);
    }
  }

  lemma {:induction false} OnlyOomDetectorSaysSo(d: Detector, lib: Lib, ctx: Context)
    requires d != DOom
    ensures NotOom(Detect(d, lib, ctx))
  {
    match d {
      case DCrashloop => PodIssues(lib, ctx);
      case DImagePull => PodIssues(lib, ctx);
      case DConfig => PodIssues(lib, ctx);
      case DInit => RunIssues(lib, ctx);
      case DJob => RunIssues(lib, ctx);
      case DProbe => RunIssues(lib, ctx);
      case DNode => NodeIssue(ctx.nodes);
      case DIstio => PlatformIssues(lib, ctx);
      case DTls => PlatformIssues(lib, ctx);
      case DDns => PlatformIssues(lib, ctx);
      case _ => PlacementIssues(lib, ctx);
    }
  }

  /**
   * The engine's collection never sees the memory trend, so with an out-of-memory proxy its ranking has the proxy above
   * the generic hypothesis and its report never leads with the generic one.
   */
  lemma {:induction false} ProxyLeadsGenericOom(lib: Lib, ctx: Context, degraded: seq<string>, runbook: Option<string>)
    requires !ctx.memoryTrendRising
    requires IstioSidecarNotReady(ctx).Some? && IstioSidecarNotReady(ctx).value.finding == ProxyOom
    ensures OomKilled(ctx).Some?
    ensures Above(Ranking(REGISTRY, lib, ctx), IstioSidecarNotReady(ctx).value, OomKilled(ctx).value)
    ensures var r := ReportOn(Ranking(REGISTRY, lib, ctx), degraded, runbook); r.Ok? ==> r.value.issue != "OOMKilled"
  {
    var ranked := Ranking(REGISTRY, lib, ctx);
    ProxyOomAboveOomExactly(lib, ctx);
    FirstIsMost(lib, ctx);
    assert ranked[0] in ranked;
    RankingMembers(REGISTRY, lib, ctx, ranked[0]);
    var d :| d in REGISTRY && Detect(d, lib, ctx) == Some(ranked[0]);
    if d != DOom {
      OnlyOomDetectorSaysSo(d, lib, ctx);
    }
  }
}
