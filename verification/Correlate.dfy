/** Change correlation: which change to blame for a failure, and where to roll back to. */
module Correlate {
  import opened Wrappers
  import opened Sorting
  import opened Text

  datatype Kind = SyncChange | DeployChange | SecretChange

  /** One history entry: its revision, sha or name (absent if the key is), and its timestamp ("" if absent). */
  datatype Record = Record(name: Option<string>, at: string)

  datatype History = History(argocd: seq<Record>, deployments: seq<Record>, secrets: seq<Record>)

  datatype Candidate = Candidate(kind: Kind, name: Option<string>, at: string, t: int)

  /** `rollback` is absent, or holds the looked-up revision, which may itself be missing. */
  datatype Change = Change(kind: Kind, name: Option<string>, at: string, rollback: Option<Option<string>>)

  datatype Event = Event(kind: string, timestamp: string)

  /** Date parsing is a parameter; only an empty text is known to yield nothing. */
  function ParseTime(parse: string -> Option<int>, at: string): Option<int> {
    if at == "" then None else parse(at)
  }

  predicate Readable(parse: string -> Option<int>, at: string) {
    at != "" && parse(at).Some?
  }

  /** The time of a readable timestamp. */
  function TimeOf(parse: string -> Option<int>, at: string): int {
    if Readable(parse, at) then parse(at).value else 0
  }

  function TimeKey(c: Candidate): int {
    c.t
  }

  // ---- The failure anchor ----

  function WarningTimes(parse: string -> Option<int>, events: seq<Event>): seq<int> {
    if events == [] then [] else
    var e := events[0];
    (if e.kind == "Warning" && ParseTime(parse, e.timestamp).Some? then [ParseTime(parse, e.timestamp).value] else [])
    + WarningTimes(parse, events[1..])
  }

  /** The earliest Warning. */
  function FirstFailureTime(parse: string -> Option<int>, events: seq<Event>): Option<int> {
    var times := Sort((t: int) => t, WarningTimes(parse, events));
    if times == [] then None else Some(times[0])
  }

  /** Where the engine puts the failure: no later than the pod's start if it has been crashing since. */
  function FailureAnchor(
    parse: string -> Option<int>, events: seq<Event>, crashing: bool, podStart: Option<int>): Option<int>
  {
    var first := FirstFailureTime(parse, events);
    if crashing && podStart.Some? then
      Some(if first.Some? && first.value <= podStart.value then first.value else podStart.value)
    else first
  }

  // ---- Candidates ----

  function CandidatesOf(parse: string -> Option<int>, kind: Kind, records: seq<Record>, anchor: int): seq<Candidate> {
    if records == [] then [] else
    var r := records[0];
    var t := ParseTime(parse, r.at);
    (if t.Some? && t.value <= anchor then [Candidate(kind, r.name, r.at, t.value)] else [])
    + CandidatesOf(parse, kind, records[1..], anchor)
  }

  function Candidates(parse: string -> Option<int>, h: History, anchor: int): seq<Candidate> {
    CandidatesOf(parse, SyncChange, h.argocd, anchor)
    + CandidatesOf(parse, DeployChange, h.deployments, anchor)
    + CandidatesOf(parse, SecretChange, h.secrets, anchor)
  }

  /** Python's `max`: the first of the latest. */
  function LatestIndex(cs: seq<Candidate>): (i: nat)
    requires cs != []
    ensures i < |cs| && forall j :: 0 <= j < |cs| ==> cs[j].t <= cs[i].t
    ensures forall j :: 0 <= j < i ==> cs[j].t < cs[i].t
  {
    if |cs| == 1 then 0 else
    var i := LatestIndex(cs[..|cs| - 1]);
    if cs[|cs| - 1].t > cs[i].t then |cs| - 1 else i
  }

  function Latest(cs: seq<Candidate>): Candidate
    requires cs != []
  {
    cs[LatestIndex(cs)]
  }

  function OfKind(cs: seq<Candidate>, kind: Kind): seq<Candidate> {
    if cs == [] then [] else (if cs[0].kind == kind then [cs[0]] else []) + OfKind(cs[1..], kind)
  }

  function RevisionOf(c: Candidate): Option<string> {
    if c.kind == SecretChange then Some("previous revision") else c.name
  }

  /** The candidates of the blamed kind by time; the last but one is rolled back to. */
  function SameKind(cs: seq<Candidate>): seq<Candidate>
    requires cs != []
  {
    Sort(TimeKey, OfKind(cs, Latest(cs).kind))
  }

  function RollbackOf(cs: seq<Candidate>): Option<Option<string>>
    requires cs != []
  {
    var same := SameKind(cs);
    if |same| >= 2 then Some(RevisionOf(same[|same| - 2])) else None
  }

  function Blame(cs: seq<Candidate>): Option<Change> {
    if cs == [] then None else
    var best := Latest(cs);
    Some(Change(best.kind, best.name, best.at, RollbackOf(cs)))
  }

  method CollectCandidates(parse: string -> Option<int>, kind: Kind, records: seq<Record>, anchor: int)
    returns (cs: seq<Candidate>)
    ensures cs == CandidatesOf(parse, kind, records, anchor)
  {
    cs := [];
    for i := 0 to |records|
      invariant cs + CandidatesOf(parse, kind, records[i..], anchor) == CandidatesOf(parse, kind, records, anchor)
    {
      assert records[i..][1..] == records[i + 1..];
      ghost var later := CandidatesOf(parse, kind, records[i + 1..], anchor);
      var t := ParseTime(parse, records[i].at);
      if t.Some? && t.value <= anchor {
        var c := Candidate(kind, records[i].name, records[i].at, t.value);
        Regroup(cs, [c], later);
        cs := cs + [c];
      } else {
        assert CandidatesOf(parse, kind, records[i..], anchor) == later;
      }
    }
  }

  method LatestOf(candidates: seq<Candidate>) returns (best: Candidate)
    requires candidates != []
    ensures best == Latest(candidates)
  {
    best := candidates[0];
    for i := 1 to |candidates|
      invariant best == Latest(candidates[..i])
    {
      assert candidates[..i + 1][..i] == candidates[..i];
      if candidates[i].t > best.t {
        best := candidates[i];
      }
    }
    assert candidates[..|candidates|] == candidates;
  }

  /** `anchor` is the context's first failure time; without one, the present counts. */
  method FindRecentChange(parse: string -> Option<int>, h: History, anchor: Option<int>, now: int)
    returns (change: Option<Change>)
    ensures change == Blame(Candidates(parse, h, if anchor.Some? then anchor.value else now))
  {
    var failure := if anchor.Some? then anchor.value else now;
    var syncs := CollectCandidates(parse, SyncChange, h.argocd, failure);
    var deploys := CollectCandidates(parse, DeployChange, h.deployments, failure);
    var secrets := CollectCandidates(parse, SecretChange, h.secrets, failure);
    var candidates := syncs + deploys + secrets;
    if candidates == [] {
      return None;
    }
    var best := LatestOf(candidates);
    var same := Sort(TimeKey, OfKind(candidates, best.kind));
    var rollback := None;
    if |same| >= 2 {
      rollback := Some(RevisionOf(same[|same| - 2]));
    }
    return Some(Change(best.kind, best.name, best.at, rollback));
  }

  // ---- What is blamed ----

  function RecordsOf(h: History, kind: Kind): seq<Record> {
    match kind case SyncChange => h.argocd case DeployChange => h.deployments case SecretChange => h.secrets
  }

  /** The entry has a readable time no later than the anchor. */
  predicate InTime(parse: string -> Option<int>, r: Record, anchor: int) {
    Readable(parse, r.at) && TimeOf(parse, r.at) <= anchor
  }

  /** Such an entry in the history of that kind. */
  ghost predicate Eligible(parse: string -> Option<int>, h: History, anchor: int, kind: Kind, r: Record) {
    r in RecordsOf(h, kind) && InTime(parse, r, anchor)
  }

  lemma {:induction false} CandidatesOfExact(
    parse: string -> Option<int>, kind: Kind, records: seq<Record>, anchor: int, c: Candidate)
    ensures c in CandidatesOf(parse, kind, records, anchor)
            <==> c.kind == kind && Record(c.name, c.at) in records
                 && Readable(parse, c.at) && TimeOf(parse, c.at) == c.t && c.t <= anchor
  {
    if records == [] {
    } else {
      CandidatesOfExact(parse, kind, records[1..], anchor, c);
      assert records == [records[0]] + records[1..];
    }
  }

  lemma {:induction false} CandidatesExact(parse: string -> Option<int>, h: History, anchor: int, c: Candidate)
    ensures c in Candidates(parse, h, anchor)
            <==> TimeOf(parse, c.at) == c.t && Eligible(parse, h, anchor, c.kind, Record(c.name, c.at))
  {
    CandidatesOfExact(parse, SyncChange, h.argocd, anchor, c);
    CandidatesOfExact(parse, DeployChange, h.deployments, anchor, c);
    CandidatesOfExact(parse, SecretChange, h.secrets, anchor, c);
  }

  /** Nothing is blamed exactly when nothing is eligible; otherwise a latest eligible change is. */
  lemma {:induction false} BlameExact(parse: string -> Option<int>, h: History, anchor: int)
    ensures var change := Blame(Candidates(parse, h, anchor));
            && (change.None? <==> forall kind, r :: !Eligible(parse, h, anchor, kind, r))
            && (change.Some? ==>
                  && Eligible(parse, h, anchor, change.value.kind, Record(change.value.name, change.value.at))
                  && forall kind, r :: Eligible(parse, h, anchor, kind, r) ==>
                       TimeOf(parse, r.at) <= TimeOf(parse, change.value.at))
  {
    var cs := Candidates(parse, h, anchor);
    if cs != [] {
      assert Latest(cs) in cs;
      CandidatesExact(parse, h, anchor, Latest(cs));
    }
    forall kind, r | Eligible(parse, h, anchor, kind, r)
      ensures cs != [] && TimeOf(parse, r.at) <= Latest(cs).t
    {
      CandidatesExact(parse, h, anchor, Candidate(kind, r.name, r.at, TimeOf(parse, r.at)));
    }
  }

  /** Candidates stand in the order of their entries. */
  lemma {:induction false} CandidatePosition(
    parse: string -> Option<int>, kind: Kind, records: seq<Record>, anchor: int, i: nat) returns (m: nat)
    requires i < |CandidatesOf(parse, kind, records, anchor)|
    ensures var cs := CandidatesOf(parse, kind, records, anchor);
            && m < |records| && records[m] == Record(cs[i].name, cs[i].at)
            && forall n :: 0 <= n < m && InTime(parse, records[n], anchor) ==>
                 exists k :: 0 <= k < i && cs[k].t == TimeOf(parse, records[n].at)
  {
    var cs, later := CandidatesOf(parse, kind, records, anchor), CandidatesOf(parse, kind, records[1..], anchor);
    var d := |cs| - |later|;
    assert d == if InTime(parse, records[0], anchor) then 1 else 0;
    if i < d {
      m := 0;
    } else {
      var m' := CandidatePosition(parse, kind, records[1..], anchor, i - d);
      m := m' + 1;
      forall n | 0 <= n < m && InTime(parse, records[n], anchor)
        ensures exists k :: 0 <= k < i && cs[k].t == TimeOf(parse, records[n].at)
      {
        if n == 0 {
          assert cs[0].t == TimeOf(parse, records[0].at);
        } else {
          assert records[1..][n - 1] == records[n];
          var k :| 0 <= k < i - d && later[k].t == TimeOf(parse, records[n].at);
          assert cs[k + d] == later[k];
        }
      }
    }
  }

  /** The entry is at that place, and each usable one before it is earlier. */
  ghost predicate FirstOfItsTime(parse: string -> Option<int>, records: seq<Record>, anchor: int, r: Record) {
    exists m :: 0 <= m < |records| && records[m] == r && BeforeAreEarlier(parse, records, anchor, m)
  }

  ghost predicate BeforeAreEarlier(parse: string -> Option<int>, records: seq<Record>, anchor: int, m: nat)
    requires m < |records|
  {
    forall n :: 0 <= n < m && InTime(parse, records[n], anchor) ==>
      TimeOf(parse, records[n].at) < TimeOf(parse, records[m].at)
  }

  /** No entry of the kind reaches the time. */
  ghost predicate AllEarlier(parse: string -> Option<int>, h: History, anchor: int, kind: Kind, t: int) {
    forall r :: Eligible(parse, h, anchor, kind, r) ==> TimeOf(parse, r.at) < t
  }

  function PartOf(parse: string -> Option<int>, h: History, anchor: int, kind: Kind): seq<Candidate> {
    CandidatesOf(parse, kind, RecordsOf(h, kind), anchor)
  }

  /** What comes before the candidates of a kind, and what after. */
  lemma AroundPart(parse: string -> Option<int>, h: History, anchor: int, kind: Kind)
    returns (before: seq<Candidate>, after: seq<Candidate>)
    ensures Candidates(parse, h, anchor) == before + (PartOf(parse, h, anchor, kind) + after)
    ensures forall c :: c in before ==> c.kind != kind && c.kind != SecretChange
    ensures forall c :: c in after ==> c.kind != kind
    ensures kind == SyncChange ==> before == []
    ensures forall c :: c in PartOf(parse, h, anchor, kind) ==> c.kind == kind
  {
    var syncs := PartOf(parse, h, anchor, SyncChange);
    var deploys := PartOf(parse, h, anchor, DeployChange);
    var secrets := PartOf(parse, h, anchor, SecretChange);
    Regroup(syncs, deploys, secrets);
    before := match kind case SyncChange => [] case DeployChange => syncs case SecretChange => syncs + deploys;
    after := match kind case SyncChange => deploys + secrets case DeployChange => secrets case SecretChange => [];
    forall c
      ensures c in syncs ==> c.kind == SyncChange
      ensures c in deploys ==> c.kind == DeployChange
      ensures c in secrets ==> c.kind == SecretChange
    {
      CandidatesOfExact(parse, SyncChange, h.argocd, anchor, c);
      CandidatesOfExact(parse, DeployChange, h.deployments, anchor, c);
      CandidatesOfExact(parse, SecretChange, h.secrets, anchor, c);
    }
  }

  /** An element of the part's kind stands in the part, behind the same elements. */
  lemma PlaceInPart(before: seq<Candidate>, part: seq<Candidate>, after: seq<Candidate>, kind: Kind, i: nat)
    requires var cs := before + (part + after);
             && i < |cs| && cs[i].kind == kind && forall j :: 0 <= j < i ==> cs[j].t < cs[i].t
    requires forall c :: c in before || c in after ==> c.kind != kind
    ensures var p := i - |before|;
            && 0 <= p < |part| && part[p] == (before + (part + after))[i]
            && forall k :: 0 <= k < p ==> part[k].t < part[p].t
  {
    var cs := before + (part + after);
    forall k | 0 <= k < |part|
      ensures cs[|before| + k] == part[k]
    {
    }
  }

  /** The first of the latest is later than a whole part of other kinds before it. */
  lemma PartIsEarlier(before: seq<Candidate>, part: seq<Candidate>, after: seq<Candidate>, i: nat, k: nat)
    requires var cs := before + (part + after);
             && i < |cs| && forall j :: 0 <= j < i ==> cs[j].t < cs[i].t
    requires var kind := (before + (part + after))[i].kind; forall c :: c in before || c in part ==> c.kind != kind
    requires k < |part|
    ensures part[k].t < (before + (part + after))[i].t
  {
    var cs := before + (part + after);
    assert cs[|before| + k] == part[k];
    assert forall j :: 0 <= j < |before| + |part| ==> cs[j] in before || cs[j] in part;
  }

  /** Where the blamed candidate stands among those of its kind. */
  lemma BlamedPlace(parse: string -> Option<int>, h: History, anchor: int) returns (p: nat)
    requires Candidates(parse, h, anchor) != []
    ensures var best := Latest(Candidates(parse, h, anchor));
            var part := PartOf(parse, h, anchor, best.kind);
            p < |part| && part[p] == best && forall k :: 0 <= k < p ==> part[k].t < best.t
  {
    var cs := Candidates(parse, h, anchor);
    var kind := Latest(cs).kind;
    var before, after := AroundPart(parse, h, anchor, kind);
    PlaceInPart(before, PartOf(parse, h, anchor, kind), after, kind, LatestIndex(cs));
    p := LatestIndex(cs) - |before|;
  }

  /** Of the entries of the blamed kind, the first listed at the latest time. */
  lemma BlameIsFirstListed(parse: string -> Option<int>, h: History, anchor: int)
    requires Candidates(parse, h, anchor) != []
    ensures var best := Latest(Candidates(parse, h, anchor));
            FirstOfItsTime(parse, RecordsOf(h, best.kind), anchor, Record(best.name, best.at))
  {
    var best := Latest(Candidates(parse, h, anchor));
    LatestBounds(Candidates(parse, h, anchor), best);
    CandidatesExact(parse, h, anchor, best);
    var p := BlamedPlace(parse, h, anchor);
    FirstInRecords(parse, best.kind, RecordsOf(h, best.kind), anchor, p);
  }

  lemma FirstInRecords(parse: string -> Option<int>, kind: Kind, records: seq<Record>, anchor: int, p: nat)
    requires var part := CandidatesOf(parse, kind, records, anchor);
             p < |part| && part[p].t == TimeOf(parse, part[p].at) && forall k :: 0 <= k < p ==> part[k].t < part[p].t
    ensures var c := CandidatesOf(parse, kind, records, anchor)[p];
            FirstOfItsTime(parse, records, anchor, Record(c.name, c.at))
  {
    var m := CandidatePosition(parse, kind, records, anchor, p);
    assert BeforeAreEarlier(parse, records, anchor, m);
  }

  lemma EarlierKind(parse: string -> Option<int>, h: History, anchor: int, kind: Kind)
    requires Candidates(parse, h, anchor) != []
    requires var best := Latest(Candidates(parse, h, anchor)).kind;
             best != kind && (kind == SyncChange || best == SecretChange)
    ensures AllEarlier(parse, h, anchor, kind, Latest(Candidates(parse, h, anchor)).t)
  {
    var cs, part := Candidates(parse, h, anchor), PartOf(parse, h, anchor, kind);
    var before, after := AroundPart(parse, h, anchor, kind);
    forall r | Eligible(parse, h, anchor, kind, r)
      ensures TimeOf(parse, r.at) < Latest(cs).t
    {
      var c := Candidate(kind, r.name, r.at, TimeOf(parse, r.at));
      CandidatesOfExact(parse, kind, RecordsOf(h, kind), anchor, c);
      var k :| 0 <= k < |part| && part[k] == c;
      PartIsEarlier(before, part, after, LatestIndex(cs), k);
    }
  }

  /** Among changes of the latest time, syncs go before deploys, those before secrets, and the first listed wins. */
  lemma {:induction false} BlameBreaksTies(parse: string -> Option<int>, h: History, anchor: int)
    requires Blame(Candidates(parse, h, anchor)).Some?
    ensures var change := Blame(Candidates(parse, h, anchor)).value;
            var t := TimeOf(parse, change.at);
            && FirstOfItsTime(parse, RecordsOf(h, change.kind), anchor, Record(change.name, change.at))
            && (change.kind != SyncChange ==> AllEarlier(parse, h, anchor, SyncChange, t))
            && (change.kind == SecretChange ==> AllEarlier(parse, h, anchor, DeployChange, t))
  {
    var cs := Candidates(parse, h, anchor);
    LatestBounds(cs, cs[0]);
    CandidatesExact(parse, h, anchor, Latest(cs));
    BlameIsFirstListed(parse, h, anchor);
    if Latest(cs).kind != SyncChange {
      EarlierKind(parse, h, anchor, SyncChange);
    }
    if Latest(cs).kind == SecretChange {
      EarlierKind(parse, h, anchor, DeployChange);
    }
  }

  /** An earlier anchor never yields a later blame. */
  lemma {:induction false} BlameMonotone(parse: string -> Option<int>, h: History, anchor: int, later: int)
    requires anchor <= later
    ensures var a, b := Blame(Candidates(parse, h, anchor)), Blame(Candidates(parse, h, later));
            a.Some? ==> b.Some? && TimeOf(parse, a.value.at) <= TimeOf(parse, b.value.at)
  {
    BlameExact(parse, h, anchor);
    BlameExact(parse, h, later);
    var a := Blame(Candidates(parse, h, anchor));
    if a.Some? {
      assert Eligible(parse, h, later, a.value.kind, Record(a.value.name, a.value.at));
    }
  }

  /** A Warning among the events with a readable time. */
  ghost predicate WarnsAt(parse: string -> Option<int>, events: seq<Event>, e: Event) {
    e in events && e.kind == "Warning" && Readable(parse, e.timestamp)
  }

  lemma {:induction false} WarningTimesExact(parse: string -> Option<int>, events: seq<Event>, t: int)
    ensures t in WarningTimes(parse, events)
            <==> exists e :: WarnsAt(parse, events, e) && TimeOf(parse, e.timestamp) == t
  {
    if events == [] {
    } else {
      WarningTimesExact(parse, events[1..], t);
      assert events == [events[0]] + events[1..];
    }
  }

  /** The first failure is the time of a readable Warning, no readable Warning is before it, and there is one if any. */
  lemma {:induction false} FirstFailureIsEarliest(parse: string -> Option<int>, events: seq<Event>)
    ensures var first := FirstFailureTime(parse, events);
            && (first.Some? <==> exists e :: WarnsAt(parse, events, e))
            && (first.Some? ==> exists e :: WarnsAt(parse, events, e) && TimeOf(parse, e.timestamp) == first.value)
            && forall e :: WarnsAt(parse, events, e) ==> first.Some? && first.value <= TimeOf(parse, e.timestamp)
  {
    var key := (t: int) => t;
    var times := WarningTimes(parse, events);
    var sorted := Sort(key, times);
    SortKeeps(key, times, 0);
    if sorted != [] {
      SameMembers(key, times, sorted[0]);
      WarningTimesExact(parse, events, sorted[0]);
    }
    forall e | WarnsAt(parse, events, e)
      ensures sorted != [] && sorted[0] <= TimeOf(parse, e.timestamp)
    {
      var t := TimeOf(parse, e.timestamp);
      WarningTimesExact(parse, events, t);
      SameMembers(key, times, t);
      var i :| 0 <= i < |sorted| && sorted[i] == t;
      assert key(sorted[0]) <= key(t);
    }
  }

  /** A moment the subject is known to have been failing at. */
  ghost predicate FailingAt(
    parse: string -> Option<int>, events: seq<Event>, crashing: bool, podStart: Option<int>, t: int)
  {
    (crashing && podStart == Some(t)) || exists e :: WarnsAt(parse, events, e) && TimeOf(parse, e.timestamp) == t
  }

  /** The anchor is the earliest of those moments, and absent exactly when there is none. */
  lemma {:induction false} AnchorExact(
    parse: string -> Option<int>, events: seq<Event>, crashing: bool, podStart: Option<int>)
    ensures match FailureAnchor(parse, events, crashing, podStart)
            case None => forall t :: !FailingAt(parse, events, crashing, podStart, t)
            case Some(anchor) =>
              && FailingAt(parse, events, crashing, podStart, anchor)
              && forall t :: FailingAt(parse, events, crashing, podStart, t) ==> anchor <= t
  {
    FirstFailureIsEarliest(parse, events);
  }

  /**
   * Through the engine's anchor, a blamed change is never after any readable Warning, nor after the pod's start when
   * it has been crashing since.
   */
  lemma {:induction false} BlamePrecedesFailure(
    parse: string -> Option<int>, h: History, events: seq<Event>, crashing: bool, podStart: Option<int>, now: int)
    ensures var anchor := FailureAnchor(parse, events, crashing, podStart);
            var change := Blame(Candidates(parse, h, if anchor.Some? then anchor.value else now));
            change.Some? ==>
              && (forall e :: WarnsAt(parse, events, e) ==>
                    TimeOf(parse, change.value.at) <= TimeOf(parse, e.timestamp))
              && (crashing && podStart.Some? ==> TimeOf(parse, change.value.at) <= podStart.value)
  {
    var anchor := FailureAnchor(parse, events, crashing, podStart);
    BlameExact(parse, h, if anchor.Some? then anchor.value else now);
    FirstFailureIsEarliest(parse, events);
  }

  // ---- The rollback target ----

  lemma {:induction false} OfKindMembers(cs: seq<Candidate>, kind: Kind, c: Candidate)
    ensures c in OfKind(cs, kind) <==> c in cs && c.kind == kind
  {
    if cs == [] {
    } else {
      OfKindMembers(cs[1..], kind, c);
      assert cs == [cs[0]] + cs[1..];
    }
  }

  /** The candidates of the blamed kind and time. */
  function Ties(cs: seq<Candidate>): seq<Candidate>
    requires cs != []
  {
    WithKey(TimeKey, OfKind(cs, Latest(cs).kind), Latest(cs).t)
  }

  lemma {:induction false} SameKindMembers(cs: seq<Candidate>, c: Candidate)
    requires cs != []
    ensures c in SameKind(cs) <==> c in cs && c.kind == Latest(cs).kind
  {
    OfKindMembers(cs, Latest(cs).kind, c);
    SameMembers(TimeKey, OfKind(cs, Latest(cs).kind), c);
  }

  lemma {:induction false} SameKindSorted(cs: seq<Candidate>)
    requires cs != []
    ensures Sorted(TimeKey, SameKind(cs)) && WithKey(TimeKey, SameKind(cs), Latest(cs).t) == Ties(cs)
  {
    SortKeeps(TimeKey, OfKind(cs, Latest(cs).kind), Latest(cs).t);
  }

  lemma LatestBounds(cs: seq<Candidate>, c: Candidate)
    requires c in cs
    ensures c.t <= Latest(cs).t && Latest(cs) in cs
  {
  }

  lemma SortedLast(s: seq<Candidate>, c: Candidate)
    requires Sorted(TimeKey, s) && c in s
    ensures c.t <= s[|s| - 1].t
  {
    var i :| 0 <= i < |s| && s[i] == c;
    assert i < |s| - 1 ==> TimeKey(s[i]) <= TimeKey(s[|s| - 1]);
  }

  lemma {:induction false} LatestIsAmongSameKind(cs: seq<Candidate>)
    requires cs != []
    ensures Latest(cs) in SameKind(cs)
  {
    LatestBounds(cs, cs[0]);
    SameKindMembers(cs, Latest(cs));
  }

  lemma {:induction false} LastIsLatest(cs: seq<Candidate>)
    requires cs != []
    ensures SameKind(cs) != [] && SameKind(cs)[|SameKind(cs)| - 1].t == Latest(cs).t
  {
    LatestIsAmongSameKind(cs);
    SameKindSorted(cs);
    SortedLast(SameKind(cs), Latest(cs));
    var last := SameKind(cs)[|SameKind(cs)| - 1];
    SameKindMembers(cs, last);
    LatestBounds(cs, last);
  }

  lemma {:induction false} TwoOfKind(cs: seq<Candidate>, kind: Kind)
    ensures |OfKind(cs, kind)| >= 1 <==> exists i :: 0 <= i < |cs| && cs[i].kind == kind
    ensures |OfKind(cs, kind)| >= 2 <==> exists i, j :: 0 <= i < j < |cs| && cs[i].kind == cs[j].kind == kind
  {
    if cs == [] {
    } else {
      var rest := cs[1..];
      TwoOfKind(rest, kind);
      if i, j :| 0 <= i < j < |cs| && cs[i].kind == cs[j].kind == kind {
        assert rest[j - 1].kind == kind;
        assert i > 0 ==> rest[i - 1].kind == kind;
      }
      if i :| 0 <= i < |cs| && cs[i].kind == kind {
        assert i > 0 ==> rest[i - 1].kind == kind;
      }
      if i :| 0 <= i < |rest| && rest[i].kind == kind {
        assert cs[i + 1].kind == kind;
      }
      if i, j :| 0 <= i < j < |rest| && rest[i].kind == rest[j].kind == kind {
        assert cs[i + 1].kind == cs[j + 1].kind == kind;
      }
    }
  }

  /** A rollback is offered exactly when two candidates have the blamed kind. */
  lemma {:induction false} RollbackOfferedExactly(cs: seq<Candidate>)
    requires cs != []
    ensures var change := Blame(cs).value;
            && change.kind == Latest(cs).kind
            && (change.rollback.Some? <==> |SameKind(cs)| >= 2)
            && (change.rollback.Some? <==>
                  exists i, j :: 0 <= i < j < |cs| && cs[i].kind == cs[j].kind == change.kind)
  {
    var kind := Latest(cs).kind;
    TwoOfKind(cs, kind);
    SortKeeps(TimeKey, OfKind(cs, kind), 0);
    assert |multiset(SameKind(cs))| == |multiset(OfKind(cs, kind))|;
  }

  /**
   * The rollback goes to the revision of the last but one change of the kind by time; a secret has none, and gets the
   * words instead. That change is strictly earlier than the blamed one exactly when no other of its kind happened at
   * the same time; then it is the latest of the earlier ones.
   */
  lemma {:induction false} RollbackTargetExact(cs: seq<Candidate>)
    requires cs != [] && |SameKind(cs)| >= 2
    ensures var best, target := Latest(cs), SameKind(cs)[|SameKind(cs)| - 2];
            && (best.kind != SecretChange ==> Blame(cs).value.rollback == Some(target.name))
            && (best.kind == SecretChange ==> Blame(cs).value.rollback == Some(Some("previous revision")))
            && target in cs && target.kind == best.kind
            && (target.t < best.t <==> |Ties(cs)| == 1)
            && (target.t < best.t ==>
                  forall c :: c in cs && c.kind == best.kind && c.t < best.t ==> c.t <= target.t)
  {
    var best, same := Latest(cs), SameKind(cs);
    var target := same[|same| - 2];
    LastIsLatest(cs);
    SameKindSorted(cs);
    LastTwo(TimeKey, same);
    SameKindMembers(cs, target);
    forall c | c in cs && c.kind == best.kind && c.t < best.t
      ensures c.t <= target.t
    {
      SameKindMembers(cs, c);
      var i :| 0 <= i < |same| && same[i] == c;
      assert i != |same| - 1;
      if i < |same| - 2 {
        assert TimeKey(same[i]) <= TimeKey(target);
      }
    }
  }

  lemma {:induction false} TieTarget(cs: seq<Candidate>)
    requires cs != [] && |Ties(cs)| == 2
    ensures |SameKind(cs)| >= 2 && SameKind(cs)[|SameKind(cs)| - 2] == Ties(cs)[0]
  {
    LastIsLatest(cs);
    SameKindSorted(cs);
    WithKeyShorter(TimeKey, SameKind(cs), Latest(cs).t);
    LastTwo(TimeKey, SameKind(cs));
  }

  /** Two changes of one kind at the same latest moment: the target is the first of them, which is the one blamed. */
  lemma {:induction false} TieRollsBackToItself(cs: seq<Candidate>)
    requires cs != [] && |Ties(cs)| == 2
    ensures |SameKind(cs)| >= 2 && SameKind(cs)[|SameKind(cs)| - 2] == Latest(cs)
    ensures Latest(cs).kind != SecretChange ==> Blame(cs).value.rollback == Some(Blame(cs).value.name)
  {
    TieTarget(cs);
    FirstTie(cs, LatestIndex(cs));
  }

  lemma {:induction false} FirstTie(cs: seq<Candidate>, i: nat)
    requires i < |cs| && forall j :: 0 <= j < i ==> cs[j].t < cs[i].t
    ensures var ties := WithKey(TimeKey, OfKind(cs, cs[i].kind), cs[i].t); ties != [] && ties[0] == cs[i]
  {
    var k := cs[i].kind;
    ConsWithKey(TimeKey, cs[0], OfKind(cs[1..], k), cs[i].t);
    if i == 0 {
    } else {
      assert TimeKey(cs[0]) != cs[i].t;
      FirstTie(cs[1..], i - 1);
      if cs[0].kind != k {
        assert OfKind(cs, k) == OfKind(cs[1..], k);
      }
    }
  }
}
