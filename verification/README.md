# Verified model of the Kubernetes SRE agent

A Dafny 4.11 model of the algorithms of the agent that carry promises of their own, with proofs. `dafny verify
dfyconfig.toml` checks all of it. One module models one component, in the component's own form: objects that update
their fields are classes, loops are methods with loops, expressions are functions. Each method is tied by its `ensures`
to a function, and the promises are proved about that function over all inputs, runs and histories.

| module | component |
|---|---|
| `TokenBucket`, `Limiter`, `RedisLimiter`, `Replicas` | the token bucket in memory and as an atomic Redis script with expiring keys; whole runs of one and of many replicas |
| `Gateway`, `SharedGateway` | the HTTP gateway: public paths, bearer authentication, limiter; many gateways over one Redis server |
| `Json`, `Sse`, `ChatLoop` | `json.dumps`, the server-sent-event printer, the page's incremental reader, and the two copies of the bounded tool loop |
| `Chunker` | heading sections and overlapping word windows |
| `Correlate`, `Sorting`, `Detectors`, `DetectorLaws`, `Engine` | change correlation, fifteen detectors and what each answers, their ranking, and the report |
| `Mesh` | static analysis of Istio configuration |
| `Cookie` | signed session cookies |
| `Text`, `Wrappers` | Python and JavaScript character classes; option and result |

## What came out false of the code

Each of these is proved as an exact condition (the promise holds if and only if it is met), so the failing family is
covered as a whole; where it helps, a lemma beside it shows one failing input.

* "Same math" and "strict global limit" (`src/k8s_sre_agent/ratelimit.py:46-48`, `docs/operations.md:87-92`) depend on the
  replicas' clocks. Refill goes by each caller's clock, expiry by the server's. With readings up to a skew off the server's
  clock, both promises hold exactly when twice the skew fits between a whole refill and the TTL. For every positive rate
  that room is at most one second, so no configuration stands clocks more than half a second off. For a rate of zero they
  hold exactly when there is nothing to burst, for a negative rate never: an idle hour hands a Redis principal a fresh
  bucket (`RedisLimiter.ExpiryInvisibleExactly`, `RedisLimiter.ToleratedSkew`, `Replicas.GlobalLimitExactly`).
* A denied poll is invisible to all later calls on every clock exactly when its cost fits the capacity or nothing refills;
  a larger one is capped, and shows when the clock goes back (`TokenBucket.PollsInvisibleExactly`). Gateway requests cost
  one, so a denied one never hurts its principal (`Gateway.DeniedRequestsNeverHurt`).
* The chunker loses nothing exactly when `max_tokens` exceeds the overlap of 100 or every section fits. At 100 it throws,
  below 100 a long section yields no chunk at all (`Chunker.LosslessExactly`, `Chunker.LongTextLost`).
* `run_chat` and `stream_chat` agree on conversation, tool runs and trace. A finished chat's reply is the streamed text
  exactly when no turn that asked for tools said anything and the last text has no white space at its ends; at the limit of
  rounds, exactly when those turns said the sentence the plain form ends with (`ChatLoop.StreamAgrees`,
  `ChatLoop.AnnouncementStreamed`, `ChatLoop.LineBreakStreamed`).
* "DNS errors are owned by dns_failure" (`src/k8s_sre_agent/rca/detectors.py:94`) fails for "server misbehaving", which
  only the DNS detector knows: beside a database signal it ranks below the crashloop hypothesis
  (`Detectors.DnsAboveCrashloopExactly`, `Detectors.MisbehavingServerRanksBelow`). The proxy's out-of-memory hypothesis is
  above the generic one exactly when the memory trend is not rising (`Detectors.ProxyOomAboveOomExactly`,
  `Detectors.RisingMemoryRanksProxyBelow`); the engine never sets that flag, so in its reports it always is
  (`Engine.ProxyLeadsGenericOom`).
* The rollback target precedes the blamed change exactly when no other change of its kind shares its time; with two at
  one time, the target is the blamed revision itself (`Correlate.RollbackTargetExact`, `Correlate.TieRollsBackToItself`).
* Peer authentications may be reordered without changing a finding exactly when those without a selector agree on the
  mode, or none of them is STRICT or DISABLE (`Mesh.PeerOrderIrrelevantExactly`, `Mesh.PeerOrderMatters`).
* A text is the base64url spelling of the bytes it decodes to exactly when it is canonical: the alphabet's own characters,
  a length some bytes encode to, and no loose low bits (`Cookie.CanonicalExactly`, `Cookie.LooseBits`). Cookies are safe
  from other spellings because the tag covers the body's text.

Two more consequences of the code. The engine's own collection fills in secret changes only
(`src/k8s_sre_agent/rca/engine.py:292-297`), so its reports never ask for a rollback
(`Engine.OwnCollectionNeverRollsBack`). With other histories, a rollback to a predecessor without a revision raises when the
report is built, and nothing else does (`Engine.Diagnose`, `Engine.ReportedRollback`).

## Model

| member | source | states |
|---|---|---|
| `TokenBucket.Conservation` | src/k8s_sre_agent/ratelimit.py:37-43 | over any run, tokens left plus cost admitted never exceed tokens held plus refill; after an admitted call the bucket is not negative |
| `TokenBucket.WindowBound` | src/k8s_sre_agent/ratelimit.py:30-43 | any window of any run ending in an admitted call admits at most one burst plus the refill between its first and last readings, even if the clock goes back |
| `TokenBucket.RefillComposes` | src/k8s_sre_agent/ratelimit.py:37-39 | two capped refills are one, for a rate that is not negative and a clock that does not go back |
| `TokenBucket.DeniedCallsInvisible` | src/k8s_sre_agent/ratelimit.py:33-43 | deleting any set of denied calls from a trace changes no other decision, if each fitted the capacity, or nothing refills, or no later reading is before it |
| `TokenBucket.PollsInvisibleExactly` | src/k8s_sre_agent/ratelimit.py:33-43 | on arbitrary clocks, dropping denied polls of a cost changes no other decision in any run exactly when the cost fits the capacity or the rate is zero |
| `TokenBucket.PollHurts` | src/k8s_sre_agent/ratelimit.py:37-43 | for every other cost and rate, a run in which a denied poll denies a call that would have been admitted |
| `TokenBucket.AdmissionTime` | src/k8s_sre_agent/ratelimit.py:33-43 | after any denied polls of that kind a call is admitted exactly when its cost fits the capacity and the refill since the last write has made up the difference |
| `TokenBucket.EventuallyAdmitted` | src/k8s_sre_agent/ratelimit.py:33-43 | with a positive rate a cost within capacity is admitted from a computable moment on, however often it was so polled |
| `Limiter.TokenBucketLimiter.constructor` | src/k8s_sre_agent/ratelimit.py:25-28 | a new limiter knows no principal |
| `Limiter.TokenBucketLimiter.Allow` | src/k8s_sre_agent/ratelimit.py:30-43 | creating the bucket and updating it in place is one value-level step for that principal and leaves every other bucket alone |
| `Limiter.PrincipalsIsolated` | src/k8s_sre_agent/ratelimit.py:33-36 | in any trace, a principal's decisions are those of one bucket run over that principal's own calls |
| `RedisLimiter.RedisServer.TokenBucketScript` | src/k8s_sre_agent/ratelimit.py:49-72 | for any TTL the script takes the same bucket step by the caller's reading and writes the hash back, due to expire a TTL later on the server's clock |
| `RedisLimiter.RedisServer.DropExpired` | src/k8s_sre_agent/ratelimit.py:70 | the server forgets a key, and only that key, at any moment from its deadline on: the drop step of every run |
| `RedisLimiter.RedisTokenBucketLimiter.Allow` | src/k8s_sre_agent/ratelimit.py:80-92 | a replica's call is one atomic step of the shared store under the namespaced key, with the TTL the code computes |
| `RedisLimiter.ToleratedSkew` | src/k8s_sre_agent/ratelimit.py:88-89 | a skew is tolerated exactly when its double fits between a whole refill and the TTL, a room of more than zero and at most one second; at rate zero when there is nothing to burst; at a negative rate never; without refill the TTL is 3600 |
| `RedisLimiter.SharedClockExactly` | src/k8s_sre_agent/ratelimit.py:87-89 | without skew the TTL outlasts a refill exactly when the rate is positive, or zero with nothing to burst |
| `RedisLimiter.RequestSimulated` | src/k8s_sre_agent/ratelimit.py:46-72 | a request read within the skew is answered alike by the store and the in-memory map, which stay related although keys may be missing from the store |
| `RedisLimiter.DropSimulated` | src/k8s_sre_agent/ratelimit.py:70 | dropping an expired key keeps store and map related: for every caller within the skew the forgotten bucket is full |
| `RedisLimiter.ExpiryInvisibleExactly` | src/k8s_sre_agent/ratelimit.py:46-92 | on all traces of callers within the skew, with keys expiring by the server's clock, the Redis form decides like the in-memory form, exactly when the skew is tolerated |
| `RedisLimiter.LiveKeysAreRecent` | src/k8s_sre_agent/ratelimit.py:88-89 | bounded memory: a key the server must still hold belongs to a principal that called within the last TTL seconds |
| `Replicas.PerReplicaWindow` | docs/operations.md:87-89 | from any state, however calls are balanced over N in-memory limiters, each on a clock of its own, they admit at most N times burst plus the refill of the longest time any one of them sees pass |
| `Replicas.PerReplicaWindowOfRun` | docs/operations.md:87-89 | hence every window of every run of N replicas that start idle stays within that bound |
| `Replicas.PerReplicaFactorReached` | docs/operations.md:87-89 | the factor N is real: N idle replicas admit N bursts at one instant, one limiter fed the same calls admits one |
| `Replicas.SharedScriptWindow` | src/k8s_sre_agent/ratelimit.py:75-92 | any interleaving of replicas through the shared script, each read from its own clock, with keys expiring, keeps each principal within one burst plus refill in every such window |
| `Replicas.GlobalLimitExactly` | docs/operations.md:89-92 | that strict global limit holds on all traces exactly when the skew is tolerated |
| `Gateway.GatewayApp.Handle` | src/k8s_sre_agent/middleware.py:65-100 | every connection gets exactly one outcome, decided by the first authorization header and its verification, and changes the limiter as one request of the verified principal, or not at all |
| `Gateway.ScreenConnection` | src/k8s_sre_agent/middleware.py:66-93 | the header scan and the early returns screen every connection in the code's order, by the first authorization header |
| `Gateway.RespondExactly` | src/k8s_sre_agent/middleware.py:65-100 | every connection: open exactly outside http or on the three public paths; else no token exactly without a leading "bearer " in any case; else rejected with the message of the verification, or failed; else one limiter step filed under the verified subject, for one token, says served or limited. Nothing else touches the limiter |
| `Gateway.GatewayRun` | src/k8s_sre_agent/middleware.py:65-100 | over any run, screening alone decides public, tokenless and rejected connections; the others are served or limited as one limiter run over exactly them decides |
| `Gateway.Noninterference` | src/k8s_sre_agent/middleware.py:65-100 | two runs with the same verified calls of a principal answer that principal alike, whatever else arrives |
| `Gateway.NoRefillServesOneBurst` | src/k8s_sre_agent/middleware.py:95-100 | with rate zero a principal is served exactly the first `burst` verified requests |
| `Gateway.DeniedRequestsNeverHurt` | src/k8s_sre_agent/middleware.py:95-99 | with any denied requests of a principal left out, all its other answers are the same, whatever the clock reads and whatever else arrives |
| `SharedGateway.SharedGatewayApp.Handle` | src/k8s_sre_agent/middleware.py:65-100 | over the Redis limiter a connection is one outcome and at most one atomic step of the shared store, under the principal's namespaced key |
| `SharedGateway.RespondSharedExactly` | src/k8s_sre_agent/middleware.py:65-100 | the same outcomes over the shared store, which changes only by one script run under the key made of the namespace, a colon and the verified subject |
| `SharedGateway.ManyGatewaysAsOne` | docs/operations.md:87-92 | any number of gateways on one Redis server, with keys expiring, answer every connection as one gateway with an in-memory limiter that got all of them, if their clocks stay within a tolerated skew |
| `Json.ParseUndoesDumps` | webapp/chat.py:73 | reading what `json.dumps` printed gives the value back, with the escapes and surrogate pairs of section 7 of RFC 8259, for any white-space gap after separators |
| `Json.PrintPlain` | webapp/chat.py:73 | printed JSON is printable ASCII, so it holds no line break |
| `Json.DumpsArray` | webapp/chat.py:65-73 | an array of several items is its first item, a comma, the gap and the rest, between brackets |
| `Json.DumpsObject` | webapp/chat.py:65-73 | an object of several members is its first name in quotes, a colon, the gap and the value, a comma, the gap and the rest, between braces |
| `Json.UnicodeExactly` | webapp/chat.py:65-73 | a character outside printable ASCII without a letter of its own, up to U+FFFF, is spelled by its number in four lower-case hexadecimal digits |
| `Sse.SplitResumes` | webapp/static/app.js:174-176 | splitting what has arrived, keeping the unfinished piece and splitting on is splitting the whole, even if the cut falls inside a delimiter |
| `Sse.JoinUndoesSplit` | webapp/static/app.js:175-176 | frames and leftover, with the delimiters put back, are the text |
| `Sse.ReadStream` | webapp/static/app.js:168-190 | the reading loop ends as the whole stream would, whatever the cuts between chunks; a malformed event, or a tool event whose name is no text, fails it for good |
| `Sse.StreamFrames` | webapp/chat.py:72-73 | the printed stream splits into exactly its frames and leaves nothing over |
| `Sse.FrameConsumed` | webapp/static/app.js:178-182 | reading a printed frame has exactly the effect of its event |
| `Sse.DoneReadsBack` | webapp/chat.py:72-127 | the last frame holds the whole trace, each call with its tool and its input, and whether a model answered |
| `Sse.ConsumeExactly` | webapp/static/app.js:177-183 | what any text after "data: " does to the page: text that is no JSON, `null` and a tool whose name is no text fail it; a delta adds its text or what JavaScript makes of it; the rest is ignored |
| `Sse.StreamShown` | webapp/static/app.js:168-187 | however the printed stream is cut, the page shows the concatenated deltas and one chip for each tool event, with an empty buffer |
| `ChatLoop.RunChat` | webapp/chat.py:41-69 | the loops over rounds and blocks keep the whole protocol of the tool loop, in at most 8 model calls, and return the answer of the rounds specification |
| `ChatLoop.StreamTools` | webapp/chat.py:111-124 | announcing and running the blocks of a streamed turn gives the same trace, runs and results as the plain form, each call told what it yielded |
| `ChatLoop.StreamChat` | webapp/chat.py:94-127 | the generator keeps the same protocol, has the same conversation as `run_chat` and yields exactly the specified events |
| `ChatLoop.ToolLoopProtocol` | webapp/chat.py:41-69 | for every model, tool table and raising tool: at most 8 model calls, and 8 exactly if the model asks for tools every time; each list sent is history, user message, then assistant turns, each what the model answered to the messages before, each answered by results with their tool-use ids one to one in order; a result is the first 20000 characters of the printed value, of the error raised, or of the tool's being unknown; the trace is all tool uses in order; exactly the known, never excluded, ones are run |
| `ChatLoop.EmittedShape` | webapp/chat.py:97-127 | a stream has exactly one `done`, last, with the trace, or none if the model call raised |
| `ChatLoop.EmittedTools` | webapp/chat.py:114-119 | the `tool` events are the names in the trace, one by one |
| `ChatLoop.AllTextIsTurns` | webapp/chat.py:97-109 | the text of all rounds is that of the turns that asked for tools followed by the last reply |
| `ChatLoop.StreamAgrees` | webapp/chat.py:44-127 | the streamed text is the reply `run_chat` returns exactly when no tool turn said anything and the last text has nothing to strip; at the round limit, exactly when the tool turns said its closing sentence; both have the same trace |
| `ChatLoop.AnnouncementStreamed` | webapp/chat.py:44-50 | a model that announces a tool call: the announcement is streamed but not returned |
| `ChatLoop.LineBreakStreamed` | webapp/chat.py:49-50 | a final line break is streamed but stripped from the returned reply |
| `ChatLoop.PageShowsChat` | webapp/static/app.js:168-187 | model to page, for any limit on the rounds: for any cutting of a finished chat's stream, the page shows the text of all rounds and one chip for each call of the trace |
| `Chunker.WordsOfJoin` | src/k8s_sre_agent/rag/embed.py:28-35 | splitting joined words gives them back |
| `Chunker.WordsOfStrip` | src/k8s_sre_agent/rag/embed.py:28-31 | stripping loses no word and leaves nothing exactly when there is none |
| `Chunker.SectionsRebuild` | src/k8s_sre_agent/rag/embed.py:25 | the sections concatenate to the text and no word straddles two of them |
| `Chunker.CutsAreHeadings` | src/k8s_sre_agent/rag/embed.py:25 | the text is cut exactly where one to three hashes and white space open a line |
| `Chunker.SlideWindows` | src/k8s_sre_agent/rag/embed.py:33-35 | the window loop yields the specified windows; a zero step throws and a negative one yields nothing |
| `Chunker.ChunkDocument` | src/k8s_sre_agent/rag/embed.py:23-36 | the loop over sections returns the pieces of every section in order, and throws exactly when `max_tokens` is 100 and a section has more than 100 words |
| `Chunker.ListExactly` | src/k8s_sre_agent/rag/embed.py:27-36 | the returned list, section by section: nothing for one without words; the section without the white space around it, line breaks and all, for one that fits; for a long one its windows, each its words with single blanks between, the k-th from word k * (max_tokens - 100) on; nothing below the overlap |
| `Chunker.ThrowsExactly` | src/k8s_sre_agent/rag/embed.py:33-34 | a zero step: chunking throws exactly at 100 with some section of more words |
| `Chunker.HeadsRebuild` | src/k8s_sre_agent/rag/embed.py:33-35 | the first `max_tokens - 100` words of every window, in order, are the section's words |
| `Chunker.LosslessExactly` | src/k8s_sre_agent/rag/embed.py:23-36 | chunking succeeds and the chunk list, read section by section, gives back all words of the text exactly when every section fits or has none, or `max_tokens` exceeds the overlap |
| `Chunker.AllRecovered` | src/k8s_sre_agent/rag/embed.py:27-36 | whenever a list is returned, it gives back all words exactly when every section survives, and never more words than there are |
| `Chunker.LongTextLost` | src/k8s_sre_agent/rag/embed.py:33-35 | a text of more than `max_tokens` words under no heading: at 100 the chunker throws, below it returns an empty list |
| `Chunker.ChunkSizes` | src/k8s_sre_agent/rag/embed.py:27-36 | every chunk of a returned list, of short sections too, has 1 to `max_tokens` words |
| `Chunker.RunInsideList` | src/k8s_sre_agent/rag/embed.py:20-36 | any run of at most 101 consecutive words of any surviving section stands together in one chunk of the returned list |
| `Chunker.WindowShape` | src/k8s_sre_agent/rag/embed.py:33-35 | a long section of n words gives ceil(n / (max_tokens - 100)) chunks of 1 to `max_tokens` words, the k-th starting at word k * (max_tokens - 100) |
| `Chunker.RunInsideChunk` | src/k8s_sre_agent/rag/embed.py:20-35 | any run of at most 101 consecutive words of a long section stands together in one chunk |
| `Chunker.OverlapExactly` | src/k8s_sre_agent/rag/embed.py:20-35 | 101 is the most: a length is covered in all windowed sections exactly when it is at most 101 |
| `Sorting.SortKeeps` | src/k8s_sre_agent/rca/correlate.py:60 | the sort is ordered, keeps every element with its multiplicity, and keeps equal keys in their order |
| `Correlate.CollectCandidates` | src/k8s_sre_agent/rca/correlate.py:40-53 | the loop keeps exactly the readable entries no later than the anchor, in order |
| `Correlate.LatestOf` | src/k8s_sre_agent/rca/correlate.py:58 | the maximum is the first of the latest candidates |
| `Correlate.FindRecentChange` | src/k8s_sre_agent/rca/correlate.py:28-64 | the three scans, the maximum and the predecessor compute the specified blame; without an anchor the present counts |
| `Correlate.BlameExact` | src/k8s_sre_agent/rca/correlate.py:37-58 | nothing is blamed exactly when nothing readable lies at or before the anchor; otherwise a latest such change is |
| `Correlate.BlameBreaksTies` | src/k8s_sre_agent/rca/correlate.py:40-58 | among changes of the latest time a sync is blamed before a deploy and that before a secret, and within a history the first listed |
| `Correlate.BlameMonotone` | src/k8s_sre_agent/rca/correlate.py:37-58 | an earlier anchor never yields a later blame |
| `Correlate.FirstFailureIsEarliest` | src/k8s_sre_agent/rca/correlate.py:21-25 | the first failure is the time of a readable Warning, no later than any, and there is one exactly when there is such a Warning |
| `Correlate.AnchorExact` | src/k8s_sre_agent/rca/engine.py:264-278 | the anchor is the earliest of the readable Warnings and, when crashing since, the pod start; it is absent exactly without any |
| `Correlate.BlamePrecedesFailure` | src/k8s_sre_agent/rca/engine.py:264-278 | through the engine's anchor, a blamed change is never after a readable Warning, nor after pod start when crashing since |
| `Correlate.RollbackTargetExact` | src/k8s_sre_agent/rca/correlate.py:59-62 | a sync or deploy goes back to the name of the last but one of its kind by time, a secret to the words "previous revision"; that one is the latest strictly earlier change of the kind exactly when no other of the kind shares the blamed time |
| `Correlate.RollbackOfferedExactly` | src/k8s_sre_agent/rca/correlate.py:60-62 | a rollback is offered exactly when two candidates have the blamed kind |
| `Correlate.TieRollsBackToItself` | src/k8s_sre_agent/rca/correlate.py:58-62 | two changes of a kind at the latest moment make the blamed name its own rollback target |
| `Detectors.RunDetectors` | src/k8s_sre_agent/rca/detectors.py:546 | the scan collects exactly the non-null answers, in registration order |
| `Detectors.Evaluate` | src/k8s_sre_agent/rca/detectors.py:544-548 | what is returned is the non-null answers with multiplicity, by descending confidence, equals in registration order |
| `Detectors.EvaluateRanks` | src/k8s_sre_agent/rca/detectors.py:544-548 | the same of any list of detectors: a permutation of the answers, descending, stable for every confidence |
| `Detectors.ConfidenceBounds` | src/k8s_sre_agent/rca/detectors.py:86-541 | every ranked confidence lies between 40 and 95 |
| `Detectors.DnsAboveCrashloopExactly` | src/k8s_sre_agent/rca/detectors.py:94-103 | the DNS hypothesis ranks above the crashloop one exactly when the logs hold one of the four DNS strings or no database signal |
| `Detectors.CrashloopAboveDns` | src/k8s_sre_agent/rca/detectors.py:94-103 | without the four strings, beside a database signal, the crashloop hypothesis ranks above the DNS one |
| `Detectors.MisbehavingServerRanksBelow` | src/k8s_sre_agent/rca/detectors.py:530-536 | a crash that logs "dial tcp: server misbehaving" is such a case |
| `Detectors.ProxyOomAboveOomExactly` | src/k8s_sre_agent/rca/detectors.py:490-493 | an out-of-memory proxy always raises both hypotheses and ranks above the generic one exactly when memory was not rising |
| `Detectors.RisingMemoryRanksProxyBelow` | src/k8s_sre_agent/rca/detectors.py:215-217 | an out-of-memory proxy with the trend flag set ranks below the generic hypothesis |
| `Detectors.SecretMattersExactly` | src/k8s_sre_agent/rca/detectors.py:105-119 | a changed secret leaves the whole ranked list as it would be without it, exactly when the crash is no database-authentication crash |
| `Detectors.RollbackNeedsRelease` | src/k8s_sre_agent/rca/detectors.py:141-147 | a ranked rollback follows a deploy or sync and carries that change's target |
| `DetectorLaws.CrashloopExactly` | src/k8s_sre_agent/rca/detectors.py:52-103 | it speaks exactly for a crashing subject, and says only 40 with one of the four DNS strings or without a database string in the logs |
| `DetectorLaws.CrashloopAuthExactly` | src/k8s_sre_agent/rca/detectors.py:105-147 | rejected credentials: 82; 94 after a changed secret, with its name and time; 90 after a release, which asks for a rollback; with the evidence of each |
| `DetectorLaws.CrashloopUnreachableExactly` | src/k8s_sre_agent/rca/detectors.py:117-147 | an unreachable database: a missing dependency at 88 exactly when services were listed and none has the first label of the host, else 80; a release adds 8 up to 95 and asks for a rollback; a secret adds nothing |
| `DetectorLaws.ImagePullExactly` | src/k8s_sre_agent/rca/detectors.py:150-173 | when it speaks, under which reason, and 92 for a missing image or a refusing registry by the messages of failed pulls, else 88 |
| `DetectorLaws.ContainerConfigExactly` | src/k8s_sre_agent/rca/detectors.py:176-199 | when it speaks, under which reason, and 90 for a missing config map or secret by the Warnings, else 85 |
| `DetectorLaws.OomExactly` | src/k8s_sre_agent/rca/detectors.py:202-218 | exactly after an out-of-memory kill, 95 with rising memory and 90 without |
| `DetectorLaws.InitExactly` | src/k8s_sre_agent/rca/detectors.py:221-253 | exactly for a failing init container, 90 if the last telling line of its log, or else the last, is not empty, else 85 |
| `DetectorLaws.JobExactly` | src/k8s_sre_agent/rca/detectors.py:256-280 | exactly for a failed job, 90 if its logs hold a telling line that is not empty, else 85 |
| `DetectorLaws.ProbeExactly` | src/k8s_sre_agent/rca/detectors.py:291-338 | 78 for the probe that fresh events name; without any, 62 exactly for restarts beside a liveness probe and no application error in the logs |
| `DetectorLaws.PendingExactly` | src/k8s_sre_agent/rca/detectors.py:355-372 | which of the five causes the first scheduler message names, in their order of precedence |
| `DetectorLaws.PendingSpeaks` | src/k8s_sre_agent/rca/detectors.py:342-354 | it speaks exactly for a scheduler event, or for a pending pod when no init container fails |
| `DetectorLaws.EvictionExactly` | src/k8s_sre_agent/rca/detectors.py:375-401 | exactly for an evicted pod, 88 for ephemeral storage by the eviction messages, else 80 |
| `DetectorLaws.ScalingExactly` | src/k8s_sre_agent/rca/detectors.py:406-441 | exactly for a stalled autoscaler, and exactly for a budget that allows no disruption |
| `DetectorLaws.NodeExactly` | src/k8s_sre_agent/rca/detectors.py:446-466 | the first sick node speaks, not ready before disk, memory and process pressure |
| `DetectorLaws.ProxyExactly` | src/k8s_sre_agent/rca/detectors.py:471-497 | the first container named istio-proxy speaks unless it is ready: 91 out of memory, 88 without its image, else 80 |
| `DetectorLaws.TlsExactly` | src/k8s_sre_agent/rca/detectors.py:508-521 | exactly for one of five strings in the logs |
| `DetectorLaws.DnsExactly` | src/k8s_sre_agent/rca/detectors.py:524-541 | 85 for one of three strings in the logs, 72 for one of two others, silent without any |
| `DetectorLaws.RegistryExactly` | src/k8s_sre_agent/rca/detectors.py:23-29 | all fifteen are registered, each once, in the order of their definition |
| `DetectorLaws.AnswersExactly` | src/k8s_sre_agent/rca/detectors.py:546 | the answers grow, detector by detector, by each one that speaks |
| `Engine.Diagnose` | src/k8s_sre_agent/rca/engine.py:357-402 | a report has the issue, rollback and evidence of the first in the ranking, with a note on denied reads and one on a runbook, which makes it 3 more confident up to 97; it is at least as confident as every hypothesis and lists the next three unchanged; only the top object is edited; a fixed report at 20 when nothing matched. It raises exactly when the top asks for a rollback to a revision without a name |
| `Engine.Annotate` | src/k8s_sre_agent/rca/engine.py:374-385 | noting degraded reads and a runbook on the first object changes its evidence, confidence and runbook and leaves every other hypothesis as it was |
| `Engine.ReportLeads` | src/k8s_sre_agent/rca/engine.py:374-401 | the same for every context, degraded reads and runbook match |
| `Engine.ReportedRollback` | src/k8s_sre_agent/rca/engine.py:395 | a rollback at the top is reported with the name of the last but one of the blamed release's history, or "previous revision" without one; if it has no name the report raises |
| `Engine.CandidatesForExactly` | src/k8s_sre_agent/rca/engine.py:264-297 | correlation looks at the changes up to the first readable Warning of the subject, or the start of a pod failing since; without either, up to the present |
| `Engine.RollbackChain` | src/k8s_sre_agent/rca/engine.py:264-278 | from pods, events and histories to the report: the release a rollback at the top leaves is after no readable Warning, nor after pod start when crashing since, and the target is strictly earlier exactly when the release shares its time with no other of its kind; it is reported if it has a revision |
| `Engine.OwnCollectionNeverRollsBack` | src/k8s_sre_agent/rca/engine.py:292-297 | with the secret changes the engine itself collects, a report is always made and never asks for a rollback |
| `Engine.ProxyLeadsGenericOom` | src/k8s_sre_agent/rca/detectors.py:490-493 | in the contexts the engine collects, an out-of-memory proxy is ranked above the generic hypothesis and the report never leads with the generic one |
| `Mesh.CollectDefined` | src/k8s_sre_agent/tools/istio.py:55-59 | the grown map knows exactly the subsets some rule defines |
| `Mesh.FindNamespaceMode` | src/k8s_sre_agent/tools/istio.py:28-34 | the search loop returns the mode of the first policy without a selector |
| `Mesh.NamespaceModeExactly` | src/k8s_sre_agent/tools/istio.py:28-34 | the first policy without a selector sets the mode, even to none; without such a policy there is none |
| `Mesh.ShortNameExactly` | src/k8s_sre_agent/tools/istio.py:110-136 | a reference is bound by the part behind its last slash |
| `Mesh.RouteUsesExactly` | src/k8s_sre_agent/tools/istio.py:61-67 | every route of every rule is checked once, in order, under its service's name |
| `Mesh.GatewayUsesExactly` | src/k8s_sre_agent/tools/istio.py:131-136 | every reference but those to "mesh" is checked once, in order, under its service's name |
| `Mesh.AnalyzeMesh` | src/k8s_sre_agent/tools/istio.py:52-146 | the nested loops compute the specified findings in order |
| `Mesh.SoundAndComplete` | src/k8s_sre_agent/tools/istio.py:52-146 | each finding occurs exactly as often as the configuration holds the fault it names |
| `Mesh.HealthyExactly` | src/k8s_sre_agent/tools/istio.py:43-51 | no finding exactly when every route's subset is defined, no plaintext rule meets STRICT and no mutual one DISABLE, every gateway is bound and every reference exists |
| `Mesh.OrderIndependent` | src/k8s_sre_agent/tools/istio.py:52-146 | permuting services, rules and gateways keeps the multiset of findings |
| `Mesh.RulesOnlyResolve` | src/k8s_sre_agent/tools/istio.py:55-67 | more destination rules never add a dangling-subset finding |
| `Mesh.PeerOrderIrrelevantExactly` | src/k8s_sre_agent/tools/istio.py:28-34 | every reordering of the policies keeps the findings, whatever else the mesh holds, exactly when those without a selector agree on the mode or none of them is STRICT or DISABLE |
| `Mesh.PeerOrderMatters` | src/k8s_sre_agent/tools/istio.py:28-34 | a failing case: swapping a STRICT policy with one that sets no mode removes a conflict |
| `Cookie.DecodeUndoesEncode` | webapp/auth.py:68-73 | padded base64url text decodes to the bytes it encodes |
| `Cookie.GroupExactly` | webapp/auth.py:68-69 | three bytes, big end first, are the number their four digits write in base 64; the last group is filled with zeros (section 4 of RFC 4648) |
| `Cookie.JunkOverlooked` | webapp/auth.py:72-73 | a character outside both alphabets changes nothing wherever it stands |
| `Cookie.PaddingRestored` | webapp/auth.py:68-73 | the padding put back from the length is exactly what was stripped (sections 3.2 and 5 of RFC 4648), and the text stays in the URL-safe alphabet |
| `Cookie.B64Plain` | webapp/auth.py:68-79 | an encoded text is ASCII without "." or "=" |
| `Cookie.Unb64UndoesB64` | webapp/auth.py:68-73 | every byte string survives encoding and decoding |
| `Cookie.CanonicalExactly` | webapp/auth.py:68-73 | for every text: it decodes, and encodes back to itself, exactly when it is canonical |
| `Cookie.LooseBits` | webapp/auth.py:72-73 | failing cases: texts that differ in unused low bits decode alike |
| `Cookie.SignExactly` | webapp/auth.py:76-79 | a signed token is the printed payload and the tag of that text, both canonical base64url, around its only separator |
| `Cookie.UnsignExactly` | webapp/auth.py:82-95 | every token, split at its first separator: accepted exactly with its body's own tag, an object and an expiry not before now; raised exactly for a tag outside ASCII, or under the right tag for a body that is no object or an expiry that is no number |
| `Cookie.ExpiryExactly` | webapp/auth.py:93 | the expiry is the last member of that name, a number or a truth value, and zero without one |
| `Cookie.SignedPayloadReturns` | webapp/auth.py:76-95 | for any tag function, a signed payload comes back unchanged exactly under a key with the same tag and while its expiry (zero if absent) is a number not before now; an expiry that is no number raises |
| `Cookie.OnlyTagged` | webapp/auth.py:82-88 | only a text made of a body without "." and that body's own tag is accepted |
| `Cookie.NoSecondSpelling` | webapp/auth.py:82-88 | no other token with a signed cookie's body is accepted; an accepted one carries another body with its own tag |

## Left out

- Numbers of the limiter are exact reals: floating-point rounding and Redis number formatting are not modelled, nor is the passing of script arguments as text.
- Locks and threads: each limiter call and each script execution is one atomic step, as the lock and Redis make it.
- `_Bucket` is the class `Limiter.BucketCell`; `Bucket` is its value.
- `build_limiter` and the settings: the rate and burst are parameters, and each limiter has its own gateway class.
- The in-memory limiters' clocks are free; a window is measured by the time each replica sees pass. The skew of the Redis limiter is a bound on how far any caller's reading is from the server's clock when the script runs, network delay included; the server's clock itself never goes back.
- Token verification, the tag function, date parsing, `str.lower`, the database-host pattern and JavaScript's coercion of non-strings are parameters; nothing is assumed of them beyond what a lemma requires.
- The gateway's metrics, response bodies and the application behind it: an outcome says which response it is.
- Text decoding of network chunks: frames are proved printable ASCII, on which `TextDecoder` works byte by byte, so chunks are strings. Other encodings of hand-made streams are not modelled.
- JSON texts with lone surrogates or the literals `NaN` and `Infinity`, `json.dumps` raising on a value it cannot encode, and numbers beyond their literal text.
- The chat fallback without an API key or client library; network failures between page and server; `default=str` conversion inside `json.dumps`, which is part of what running a tool returns.
- ChatLoop.StreamAgrees: requires that the deltas of a model call add up to the text of its final message, as the streaming client promises; that client is not part of this model.
- `chunk_document` on any other overlap than the constant 100; embedding, storage and retrieval. Nothing is claimed about re-ingesting documents: docs/rag.md:28 promises replacement, the store only inserts.
- `build_timeline`, message wording, evidence weights, the severity table and a report's summary text.
- Detectors build values where the code overwrites the fields of one new object; `evaluate` orders such values, and `diagnose` edits objects made of them.
- Comparing dates with and without a time zone, which raises in Python: times are integers.
- The collection half of `collect_context`: the context is an arbitrary record, and a missing or null text field is the empty text.
- Mesh finding details (their wording and the sorted list of defined subsets); fields of another type than expected.
- A cookie's text decoding is a parameter that must leave printable ASCII alone; signing payloads whose values JSON cannot encode.
- Login flow, OIDC, JWKS, PKCE and cloud tokens; Kubernetes, Prometheus, Loki, ArgoCD, GitHub, Jira and Slack clients; the dashboard outside the stream reader; deployment files: plumbing around the algorithms above.
