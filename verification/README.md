# Verified model of the cloud security posture backend

A Dafny model of the backend's three hardest parts, with proofs over all inputs, all graphs and all runs.

- **Attack paths** (`Resources`, `Edges`, `EdgeOrder`, `AttackGraph`, `GraphOrder`, `PathFinder`, `PathOrder`,
  `Layering`, `PathKinds`, `AttackRoute`, `RouteMeaning`, `Justification`): normalized resources become typed relationships, a directed graph with one label per
  pair, bounded simple paths from the derived `internet` node, and a response. Proved: the edge builder
  against a declarative relation, the graph against the edge list, the search against the definition of an
  attack path, the effect of every cutoff and cap on every graph, the layered shape of every path, and that
  every path is backed by a rule finding on the same resources.
- **Sessions and ownership** (`Server`, `Service`, `Sessions`, `SessionEnd`, `Ownership`, `Uploads`, `Reads`,
  `AccessControl`, `Outcomes`, `Isolation`, `LiveScans`, `Scenarios`): the API as a state machine over users, scans, findings,
  signed tokens and used refresh-token ids. `Service.Api` is the same handlers updating that state in place, proved step by step
  against the machine. Proved over whole runs: single use of refresh tokens, conservation of live tokens,
  one identity per session, what ends a session, admin ownership of every scan, reads that no other user
  can disturb, and stored evidence for every attack path of a live scan. `Scenarios` holds concrete runs.
- **Scan pipeline** (`Json`, `DepthLimit`, `RuleEngine`, `PathText`, `RuleMeaning`, `Scorer`, `Compliance`,
  `ReportMeaning`, `Records`): depth check,
  path lookup, rule evaluation, risk scores and the CIS/NIST report, as loops proved against plain
  specifications, with findings conserved from evaluation to report.

`Prelude` and `Ordering` hold sequences, stable duplicate removal and Python's stable `sorted`.
Loops and in-place updates of the source are methods and classes here; each is proved equal to a
specification function, and the lemmas are about that function. `EdgeOrder`, `GraphOrder`, `PathOrder`,
`RouteMeaning`, `RuleMeaning`, `PathText`, `ReportMeaning` and `Outcomes` say what those functions yield in
the texts and numbers of the code, without calling the helpers the functions are made of.

## Assumptions

- `networkx.all_simple_paths` is a library call. `PathFinder.SearchFrom` is a depth-first search with the
  current path as visited set, written to its documented contract, trying successors in insertion order; the completeness of the reported paths
  is a theorem about that search.
- A resource is what the resource mappers emit: string ids, kinds and ARNs, lists of strings, and any JSON
  value under `ingress`. `Resources.Describes` says which dict is such a resource, so the rule engine
  and the graph speak of the same input.
- *Typed ids* (`Layering.TypedIds`): no resource is called `internet`, no id belongs to two kinds, and a
  policy name or bucket id named by an edge is not `internet` and is either no resource or one of the right
  kind. Where a result needs this, it says so; `Layering` exhibits what goes wrong without it.
- Every handler is one atomic step. `uuid4` returns an id never used before. A JWT verifies exactly when
  the server signed it, and is accepted from `iat` up to but excluding `exp` (RFC 7519, section 4.1.4).
- Audit rows are always stored; the code goes on when storing one fails.
- `str.lower`, Argon2id, SHA-256, `float()`, `re.search`, `str(value)` and the conversion of a value for
  a string column are arbitrary functions. Numbers are compared as reals, as Python's `==` compares `1`, `1.0`
  and `True`; NaN does not occur.
- `int(text)` for list segments covers ASCII whitespace, sign, digits and single underscores.

## Where the code and its documentation differ

- `docs/asvs-l1-checklist.md` line 38 says logout invalidates the session. The code marks the presented
  refresh id as used and nothing else.
  - A logout ends a session if and only if it presents that session's unused refresh token
    (`SessionEnd.LogoutEndsSessionExactly`); it then stays closed (`SessionEnd.ClosedSessionsStayClosed`),
    and nothing else uses a session up (`SessionEnd.SessionsEndByLogoutOnly`).
    `Scenarios.OlderTokenEndsNothing` is a run in which an accepted logout ends nothing.
  - Access tokens are never ended: each is served if and only if it is within its lifetime
    (`AccessControl.AuthenticatedAsHolder`). `Scenarios.AccessOutlivesLogout` is a run of signup and logout
    after which the access token is still served.
- An upload commits the scan row before its findings. The findings are stored if and only if each has a known
  severity, a mapped rule and values its columns take (`Uploads.UploadConservesFindings`); otherwise the
  request fails and the scan stays without findings. `Scenarios.UnmappedRuleLosesFindings` is such an upload.
- `networkx` keeps one label per pair of nodes. The links of the graph equal the built edges if and only if
  no pair is related in two ways (`AttackGraph.LinksRoundTrip`); `Layering.SharedIdLosesALink` names two
  resources and the edge they lose.
- `docs/phase7-compliance_M1.md` line 84 and the docstring at `backend/src/compliance/engine.py` line 162 call
  `total` the number of distinct controls. The code counts rows: the two numbers agree if and only if no two
  rows share a control id (`Compliance.TotalIsDistinctExactly`). The seeded rows of CIS-AWS-003 and CIS-AWS-005
  share both of theirs, so the shipped map reports one control too many in each framework
  (`Compliance.WildcardRulesCountTwice`).
- The default cutoff of 5 hides a path, against some larger cutoff, if and only if some simple path from
  internet to a target has six edges or more (`PathFinder.DefaultCutoffExactly`). Typed ids rule that out
  (`Layering.DefaultCutoffDropsNothing`); `Layering.UntypedNamesOutgrowTheCutoff` is a graph that has one.

## Model

| member | source | states |
|---|---|---|
| Edges.ExtractNameIsFinalComponent | backend/src/attack_paths/edges.py:161-172 | the name is what follows the last slash, else the last colon: it contains no further one and some prefix plus it gives back the ARN |
| Edges.BuildProfileIndex | backend/src/attack_paths/edges.py:21-31 | the nested loops compute the profile index of the specification |
| Edges.ProfileIndexMeaning | backend/src/attack_paths/edges.py:21-31 | an ARN is indexed to a role exactly when that is the last listed role with an id that declares it |
| Edges.DeduplicateEdges | backend/src/attack_paths/edges.py:188-210 | the seen-set loop is the stable removal of repeated triples |
| Edges.BuildEdges | backend/src/attack_paths/edges.py:4-158 | the nested typed loops followed by deduplication compute the specified edge list, for any resources |
| Edges.EdgesOfIsRelation | backend/src/attack_paths/edges.py:4-158 | build_edges lists no triple twice and lists a triple exactly when ASSUMES, HAS_PERMISSION, ACCESSES or EXPOSES holds declaratively of the resources |
| EdgeOrder.EdgesAreMade | backend/src/attack_paths/edges.py:4-158 | a triple is listed exactly when some entry makes it: an instance's profile through the last declaring role, a role's policy ARN, a policy's plain or dict bucket entry, or an instance in an open group |
| EdgeOrder.EdgesFollowEntries | backend/src/attack_paths/edges.py:37-210 | the triples come in the order of the entries that first make them, resource by resource and entry by entry |
| AttackGraph.BuildAttackGraph | backend/src/attack_paths/graph.py:8-51 | the object built in place has the value the specification gives for the resources |
| AttackGraph.GraphOfProperties | backend/src/attack_paths/graph.py:20-51 | the graph is well formed, a node's type is that of the last resource listed under its id, and an edge carries a label exactly when that is the last edge built for the pair |
| AttackGraph.GraphHasEdge | backend/src/attack_paths/graph.py:34-51 | two nodes are joined exactly when some declarative relationship joins them |
| GraphOrder.NodesInOrder | backend/src/attack_paths/graph.py:20-43 | nodes stand in the order of first mention, by a resource or else by an edge |
| GraphOrder.SuccessorsInOrder | backend/src/attack_paths/graph.py:35-49 | the successors of a node stand in the order in which its edges are first listed |
| AttackGraph.GraphToLinks | backend/src/attack_paths/graph.py:54-76 | the loop over nodes and successors yields the specified links and leaves the graph alone |
| AttackGraph.LinksAreLastEdges | backend/src/attack_paths/graph.py:35-76 | the links are exactly the last edges of build_edges for their pair |
| AttackGraph.LinksNameEachPairOnce | backend/src/attack_paths/graph.py:54-76 | no ordered pair of nodes is linked twice |
| GraphOrder.LinksInOrder | backend/src/attack_paths/graph.py:54-76 | links come node by node, and for each node successor by successor |
| AttackGraph.LinksRoundTrip | backend/src/attack_paths/graph.py:35-76 | the links equal the built edges as sets if and only if no pair of nodes is related in two ways, as declared by the resources |
| Layering.SourceDeterminesRelationship | backend/src/attack_paths/edges.py:37-156 | with distinct ids two edges from one source have the same relationship |
| Layering.LinksAreEdges | backend/src/attack_paths/graph.py:35-76 | with distinct ids the links of the graph are exactly the built edges |
| Layering.SharedIdLosesALink | backend/src/attack_paths/graph.py:45-49 | for a named list, a role and a policy of one name, the HAS_PERMISSION edge is built and missing from the links while the ACCESSES edge is kept |
| Layering.AmbiguityLosesALink | backend/src/attack_paths/graph.py:45-49 | whenever a pair carries two relationships some built edge is missing from the links |
| PathFinder.FindTargets | backend/src/attack_paths/path_finder.py:61-94 | the loop collects the specified targets in node order |
| PathFinder.TargetsAmongProperties | backend/src/attack_paths/path_finder.py:75-94 | the targets are exactly the role and bucket nodes other than internet without outgoing edges, each once |
| PathOrder.TargetsAreTerminalSensitive | backend/src/attack_paths/path_finder.py:61-94 | a node is a target exactly when it is not internet, its type is iam_role or s3_bucket and no edge leaves it |
| PathFinder.FindAttackPaths | backend/src/attack_paths/path_finder.py:10-58 | for any graph, cutoff and cap, negative ones too, the loops with early return give the first max_paths elements of the uncapped list |
| PathFinder.SearchFromCorrect | backend/src/attack_paths/path_finder.py:39-44 | the search from a path finds a path exactly when it continues it without repetition, within the budget, along edges, to the target; cyclic graphs included |
| PathFinder.AllPathsCorrect | backend/src/attack_paths/path_finder.py:26-58 | uncapped, the result holds exactly the simple directed paths from internet of at most cutoff edges that end in a target, each once |
| PathOrder.ReportedPaths | backend/src/attack_paths/path_finder.py:26-58 | the same with everything spelled out: texts, bounds, steps and repetition |
| PathOrder.PathsInOrder | backend/src/attack_paths/path_finder.py:36-58 | of two paths to one target the one that takes the earlier successor where they part comes first |
| PathFinder.AllPathsSortedByTarget | backend/src/attack_paths/path_finder.py:36-58 | the paths are ordered by their target, in string order |
| PathFinder.AllPathsGroupedByTarget | backend/src/attack_paths/path_finder.py:36-58 | between two paths to one target stand only paths to that target |
| PathFinder.CappedReport | backend/src/attack_paths/path_finder.py:46-58 | for any cap the report holds attack paths only, each once and at most the cap, all of them when they fit, and a larger cap only appends |
| PathFinder.CapHidesLastTargets | backend/src/attack_paths/path_finder.py:36-58 | a path hidden by the cap goes to a target no earlier in string order than any reported one |
| PathFinder.CutoffRemovesLongPaths | backend/src/attack_paths/path_finder.py:36-44 | for every graph, cyclic ones included, a smaller cutoff gives the list of a larger one with exactly the longer paths removed, order kept |
| PathFinder.CutoffDropsNothingExactly | backend/src/attack_paths/path_finder.py:36-44 | a cutoff gives the same list as every larger one if and only if no simple path from internet to a target has more edges |
| PathFinder.DefaultCutoffExactly | backend/src/attack_paths/path_finder.py:6-44 | the default cutoff gives the same list as every larger one if and only if no simple path from internet to a target has seven nodes or more |
| PathFinder.CutoffIrrelevant | backend/src/attack_paths/path_finder.py:6-44 | when some rank falls along every edge, any two cutoffs from the rank of internet upwards give the same list in the same order |
| Layering.LayersFall | backend/src/attack_paths/edges.py:37-156 | under typed ids every edge leads to a strictly lower layer |
| Layering.WalksAreShort | backend/src/attack_paths/edges.py:37-156 | under typed ids every walk from internet has at most four edges and repeats no node |
| Layering.DefaultCutoffDropsNothing | backend/src/attack_paths/path_finder.py:6-14 | under typed ids the default cutoff gives the same list as any cutoff of at least 4 |
| Layering.AttackPathsAreWalks | backend/src/attack_paths/path_finder.py:26-58 | under typed ids the reported paths are all walks from internet to a target, with no bound and no simplicity condition |
| Layering.PathShape | backend/src/attack_paths/edges.py:8-12 | under typed ids a path is internet, instance, role, or continues through a policy to a bucket, joined by the matching relationships |
| PathKinds.PathsAreChains | backend/src/attack_paths/path_finder.py:26-94 | under typed ids a path is reported if and only if it is EXPOSES, ASSUMES to a role that no edge leaves, or EXPOSES, ASSUMES, HAS_PERMISSION, ACCESSES to a listed bucket |
| Layering.UntypedNamesOutgrowTheCutoff | backend/src/attack_paths/path_finder.py:6-14 | concrete roles attached to one another have a six-edge path that cutoff 6 reports and the default hides |
| Justification.OpenGroupRuleFires | backend/src/attack_paths/edges.py:175-185 | for any JSON ingress value CIS-AWS-002 fires on the resource exactly when it is a security group the graph treats as public |
| Justification.ExposureIsFlagged | backend/src/attack_paths/edges.py:129-156 | internet reaches a node exactly when a group flagged by CIS-AWS-002 is attached to an instance of that id |
| Justification.PathsAreJustified | backend/src/attack_paths/path_finder.py:26-58 | each reported path has a CIS-AWS-002 finding, among those evaluate reports for the same resources, on a group attached to its second node |
| LiveScans.StoredPathsAreJustified | backend/src/attack_paths/routes.py:79-142 | each path of the deduplicated resources has a stored High CIS-AWS-002 finding on an open group attached to its second node, once the scan's findings are stored |
| LiveScans.LiveScanJustifiesItsPaths | backend/src/routes.py:190-237 | after a successful live scan in any run each path in the owner's attack-path reply over the same resources has such a finding among those stored for the scan |
| LiveScans.LiveScanShowsWhatWasCollected | backend/src/attack_paths/routes.py:67-142 | after a successful live scan in any run the owner's reply shows the distinct collected resources, the links between them and the first 100 of all their attack paths |
| AttackRoute.DeduplicateResources | backend/src/attack_paths/routes.py:145-177 | the loop computes the stable deduplication by id and kind after dropping empty ids |
| AttackRoute.DistinctProperties | backend/src/attack_paths/routes.py:145-177 | results have ids, no (id, kind) occurs twice, nothing is invented and no (id, kind) with an id is lost |
| RouteMeaning.DistinctKeepsFirst | backend/src/attack_paths/routes.py:145-177 | of each non-empty id and kind exactly the first listing is kept, in listing order |
| AttackRoute.FindingIndexMeaning | backend/src/attack_paths/routes.py:50-53 | the finding indexed for a resource is the last one listed for it |
| AttackRoute.PathSeverity | backend/src/attack_paths/routes.py:180-215 | the loop and max compute the specified severity |
| AttackRoute.HighestOnPath | backend/src/attack_paths/routes.py:180-215 | the severity bounds every indexed finding on the path and one of them attains it, or it is Low when there is none |
| AttackRoute.GetAttackPaths | backend/src/attack_paths/routes.py:28-142 | the handler's loops compose to the specified response for static and live scans and failed collections |
| RouteMeaning.LiveScanShows | backend/src/attack_paths/routes.py:67-142 | the k-th path is numbered k and rated by the highest last finding on its nodes or Low; nodes, links and the first 100 paths are those of the distinct resources, none after a failed collection |
| RouteMeaning.StaticScanShows | backend/src/attack_paths/routes.py:73-142 | a static scan shows the resources its findings mention, each once with its last finding, and no link or path |
| AttackRoute.NodesShowLastFindings | backend/src/attack_paths/routes.py:91-108 | each node is one distinct resource and shows exactly the last finding listed for its id, or none |
| AttackRoute.StaticScansHaveNoPaths | backend/src/attack_paths/routes.py:67-77 | a static scan yields no link and no path whatever its findings |
| AttackRoute.DistinctKeepsTypedIds | backend/src/attack_paths/routes.py:79-85 | deduplication before building the graph keeps ids typed |
| AttackRoute.PathsRunThroughListedNodes | backend/src/attack_paths/routes.py:91-142 | every node of a reported path after internet is among the listed nodes |
| AttackRoute.PathsFollowLinks | backend/src/attack_paths/routes.py:110-142 | every step of a reported path is one of the returned links |
| DepthLimit.ValidateDepthIsHeight | backend/src/parser.py:130-139 | a call at a depth accepts exactly the values whose height fits under the limit |
| DepthLimit.DocumentAccepted | backend/src/parser.py:75-77 | a document is accepted exactly when its nesting height is at most 20 |
| DepthLimit.AcceptedDocumentsAreShallow | backend/src/parser.py:130-139 | on an accepted document every path of 20 or more segments finds None |
| DepthLimit.RejectedDocumentMayBeDeeper | backend/src/parser.py:130-139 | for any segments some document one level higher has a value there, so the bound is sharp |
| RuleEngine.GetValue | backend/src/rule_engine.py:120-138 | the loop with early returns is the recursive lookup over the split path |
| RuleEngine.SplitJoin | backend/src/rule_engine.py:124 | splitting at dots loses nothing and leaves no dot in a part |
| RuleEngine.PyIntReadsDecimal | backend/src/rule_engine.py:130-132 | a written index reads back as itself, with a minus as its negation |
| RuleEngine.ListSegments | backend/src/rule_engine.py:129-134 | a segment indexes a list from the front, with a minus from the back, and finds nothing beyond either end |
| PathText.PyIntExactly | backend/src/rule_engine.py:129-134 | a text indexes a list exactly when it is blanks, an optional sign, digits with single underscores, blanks |
| PathText.SegmentFinds | backend/src/rule_engine.py:124-136 | a segment finds a key of a dict or an element of a list counted from either end, and nothing else |
| RuleEngine.ValueAtComposes | backend/src/rule_engine.py:120-138 | looking up p.q is looking up q in what p finds, for all values and paths |
| RuleEngine.LookupBeyondHeight | backend/src/rule_engine.py:120-138 | a path with at least as many segments as the document is high finds None |
| RuleEngine.NumericOperators | backend/src/rule_engine.py:157-167 | gte is closed upwards, lte downwards, one of them holds of any number and both only at the bound |
| RuleEngine.NothingFoundMatchesNothing | backend/src/rule_engine.py:144-169 | a lookup that found nothing matches exactly the conditions that ask for null |
| RuleMeaning.MatchIsSatisfies | backend/src/rule_engine.py:142-169 | the first operator present decides, on every value: equality, contains and regex on values other than None, closed numeric bounds |
| Json.PyEqualString | backend/src/rule_engine.py:144-145 | equals with a string literal matches that string only |
| Json.PyEqualTrue | backend/src/rule_engine.py:144-145 | equals with true matches true and the number 1 only |
| RuleMeaning.PyEqualIsSameValue | backend/src/rule_engine.py:144-145 | equality compares numbers and booleans by value and containers element by element, at every depth |
| RuleEngine.Evaluate | backend/src/rule_engine.py:79-116 | the nested loops with continue compute the findings of the normalized resources |
| RuleMeaning.NormalizeLists | backend/src/rule_engine.py:60-75 | the evaluated resources are a list itself, the list under resources, a single dict, or none |
| RuleMeaning.EvaluationExactly | backend/src/rule_engine.py:79-116 | over the resources a document lists, the findings report exactly the violating pairs, in reading order, with the resource's id or Unknown and the rule's texts |
| RuleEngine.FindingsAreOrderedComprehension | backend/src/rule_engine.py:89-116 | findings correspond one for one to the (resource, rule) positions that fire, all of them, in strictly increasing reading order |
| RuleEngine.FindingsMember | backend/src/rule_engine.py:89-116 | a finding is reported exactly when some rule fires on some listed resource and reports it |
| RuleEngine.FindingsConcat | backend/src/rule_engine.py:89-116 | evaluating a concatenation is concatenating the evaluations |
| RuleEngine.RulesConcat | backend/src/rule_engine.py:95-114 | for one resource the findings of concatenated rule lists are concatenated |
| Scorer.ScoreFindings | backend/src/ml/scorer.py:47-64 | one score per finding, in order |
| Scorer.ScoresAreScored | backend/src/ml/scorer.py:26-64 | each score is 90, 70, 45, 20 or 30 by severity text moved by the digest byte modulo 17 less 8, and an anomaly from 85 on |
| Records.SeverityTexts | backend/src/models.py:52-59 | exactly four texts are severities, each its own |
| Scorer.ScoreWithinBand | backend/src/ml/scorer.py:35-57 | for every digest byte the clamp changes nothing and the score is within 8 of its base |
| Scorer.Bands | backend/src/ml/scorer.py:26-57 | the numeric band of each severity, with both ends attained |
| Scorer.BandsAreDisjoint | backend/src/ml/scorer.py:26-57 | among known severities the higher one always scores strictly higher |
| Scorer.SortingByRiskSortsBySeverity | backend/src/ml/scorer.py:26-64 | any arrangement in descending risk is in descending severity |
| Scorer.AnomalyIsCritical | backend/src/ml/scorer.py:32-62 | a finding is an anomaly exactly when it is Critical with jitter at least -5 |
| Compliance.FindingIdsByRule | backend/src/compliance/engine.py:80-103 | the grouped map holds each mapped rule with findings and exactly its own ids in order |
| Compliance.ControlRows | backend/src/compliance/engine.py:106-155 | the rows come sorted by rule, one entry per non-empty control id |
| Compliance.FrameworkSummary | backend/src/compliance/engine.py:158-192 | the loop with its seen set counts each key once |
| Compliance.BuildCompliance | backend/src/compliance/engine.py:195-237 | grouping, rows and summary compose to the specified report |
| Compliance.ReportCounts | backend/src/compliance/engine.py:158-192 | with unique rules total is the number of rows with a control id, failed those whose rule has a finding, and passed plus failed is total |
| ReportMeaning.SummaryInNumbers | backend/src/compliance/engine.py:158-192 | for CIS and NIST each: total is how many rows have such an id, failed how many of them have a finding, passed the rest |
| Compliance.TotalIsDistinctExactly | backend/src/compliance/engine.py:158-192 | total is at least the number of distinct control ids of the framework, and equal to it if and only if no two rows share one |
| Compliance.WildcardRulesCountTwice | backend/alembic/versions/b2c3d4e5f6a7_seed_compliance_map.py:39-64 | any map with the seeded rows of CIS-AWS-003 and CIS-AWS-005 reports more controls in each framework than it names |
| Compliance.ReportSpeaksForTheMap | backend/src/compliance/engine.py:120-155 | every control carries the id, rule, title and remediation of a map row, FAIL exactly when a finding has that rule, and just those finding ids; every row with a control id has such a control |
| ReportMeaning.ReportInOrder | backend/src/compliance/engine.py:120-155 | controls come by rule in string order, CIS before NIST |
| Compliance.NoControlIsSkipped | backend/src/compliance/engine.py:171-183 | with unique rules no two controls share a key, so the duplicate check never fires |
| Compliance.MoreFindingsFailMore | backend/src/compliance/engine.py:106-192 | adding findings never lowers the failed count of either framework |
| Compliance.OrderOfFindingsIrrelevant | backend/src/compliance/engine.py:80-192 | permuting the findings changes no status, title, count or summary, and only permutes id lists |
| Compliance.FindingsConserved | backend/src/compliance/engine.py:80-155 | the ids listed over a framework are as many as the findings whose rule has a control there, and each control lists exactly its rule's ids in order |
| Ordering.SortByProperties | backend/src/compliance/engine.py:120-123 | sorting orders by key and neither loses nor adds an element |
| Ordering.SortByIsStable | backend/src/compliance/engine.py:120-123 | elements with equal keys keep their order |
| Ordering.StrLeExactly | backend/src/attack_paths/path_finder.py:36 | a prefix comes first, and otherwise the smaller code point at the first difference |
| Service.Api.RotateRefreshToken | backend/src/auth/jwt.py:257-300 | any accepted token is spent, also when no replacement follows; a replacement appears exactly for an accepted unused token with a UUID subject |
| Service.Api.RevokeRefreshToken | backend/src/auth/jwt.py:307-324 | spends an accepted refresh token and ignores any other |
| Service.Api.HandleSignup | backend/src/auth/routes.py:101-156 | the in-place handler is the Signup step, reply and whole state |
| Service.Api.HandleLogin | backend/src/auth/routes.py:165-202 | the in-place handler is the Login step |
| Service.Api.HandleRefresh | backend/src/auth/routes.py:209-248 | decoding, rotation and the new access token compose to the RefreshSession step |
| Service.Api.HandleLogout | backend/src/auth/routes.py:255-269 | the in-place handler is the Logout step |
| Service.Api.UploadScan | backend/src/routes.py:102-181 | the in-place handler is the Upload step, every refusal included |
| Service.Api.ScanCloudAccount | backend/src/routes.py:190-237 | the in-place handler is the ScanCloud step |
| Service.Api.HandleRead | backend/src/routes.py:241-281 | list, detail, findings, compliance and attack paths are the Read step |
| Sessions.RefreshOutcome | backend/src/auth/routes.py:209-248 | in every reachable state a refresh succeeds exactly for an accepted unused token and then replaces it by a fresh pair of the same identity and session; a refusal changes nothing, so the burn without replacement never happens |
| Sessions.ReplacementLifetimes | backend/src/auth/jwt.py:102-178 | each replacement is accepted, as its own kind only, exactly from the refresh until its lifetime ends |
| Sessions.SpentTokensStaySpent | backend/src/auth/jwt.py:272-324 | in any run a token rotated or logged out earlier is refused and changes nothing later |
| Sessions.RotatesAtMostOnce | backend/src/auth/jwt.py:272-280 | in any run one refresh id is rotated successfully at most once |
| Sessions.OneLiveTokenPerSession | backend/src/auth/jwt.py:257-300 | in any run all tokens of a session, access and refresh, carry one stored user's identity and at most one of its refresh tokens is unused |
| Sessions.LiveTokensConserved | backend/src/auth/routes.py:101-269 | in any run the refresh ids issued and not used equal sessions opened minus logouts that presented an unused valid token |
| Sessions.StepConservesLive | backend/src/auth/routes.py:101-269 | one step adds one live token when it opens a session, removes one when it closes one, and otherwise keeps the number |
| Outcomes.LogoutOutcome | backend/src/auth/routes.py:255-269 | logout always answers the same, uses up at most the presented accepted token and changes nothing else |
| SessionEnd.LogoutEndsSessionExactly | backend/src/auth/routes.py:255-269 | in every reachable state any logout, with or without a cookie, leaves a session without a usable refresh token if and only if it had none before or the logout presented its unused one |
| SessionEnd.SessionsEndByLogoutOnly | backend/src/auth/routes.py:101-269 | in any run a session that existed before a request has no usable refresh token at the end if and only if it had none then or some later logout closed it |
| SessionEnd.RunKeepsDead | backend/src/auth/jwt.py:257-324 | a session without a usable refresh token never gets one again, in any run |
| SessionEnd.ClosedSessionsStayClosed | backend/src/auth/jwt.py:257-324 | after a logout that closes a session, every later refresh with any token of that session is refused, whatever happens in between |
| Scenarios.OlderTokenEndsNothing | backend/src/auth/jwt.py:307-324 | the run signup, refresh, logout with the rotated token: the logout is accepted and the session still refreshes |
| Scenarios.AccessOutlivesLogout | backend/src/auth/routes.py:255-269 | the run signup, logout: the session is closed and the access token is served exactly until it expires |
| AccessControl.AuthenticatedAsHolder | backend/src/auth/dependencies.py:40-93 | in any run a token is served if and only if this server signed it as an access token and it is within its lifetime, and then as the very user, email and role it was signed for |
| AccessControl.ServedForItsLifetime | backend/src/auth/dependencies.py:40-93 | a token that is served at one point of a run is served as the same user at every later point, within its lifetime |
| AccessControl.LoginOutcome | backend/src/auth/routes.py:165-202 | in any run a login succeeds exactly for a registered email with its password; the access token then serves that user, and the refresh token is accepted, exactly during their lifetimes |
| AccessControl.SignupOutcome | backend/src/auth/routes.py:101-156 | in any run a signup is refused exactly for a registered email and otherwise adds one user with a new id, ADMIN exactly when the configured email matches, and grants that user a session |
| AccessControl.OnlyAdminsChangeScans | backend/src/routes.py:95-192 | a step that changes scans or findings was an allowed cloud scan or an accepted upload of height at most 20 by an ADMIN |
| Outcomes.RefusedScans | backend/src/auth/rbac.py:13-38 | an upload or cloud scan of an unserved caller answers 401 and does nothing, of a VIEWER 403 with one audit row |
| Outcomes.UploadOutcome | backend/src/routes.py:102-181 | in any run an ADMIN's upload is a bad request exactly when not accepted, not parsed or higher than 20; otherwise the scan is stored with the violations of the listed resources, or with none if one cannot be stored |
| Outcomes.ScanCloudOutcome | backend/src/routes.py:190-237 | in any run an ADMIN's cloud scan is a bad gateway exactly when nothing was collected; otherwise a LIVE scan is stored likewise |
| Outcomes.AuditTrail | backend/src/auth/audit.py:12-27 | in any run each request adds to the audit trail exactly a signup, a refused role or a refused scan access, and nothing else |
| AccessControl.UploadThenRead | backend/src/routes.py:102-265 | what an ADMIN uploads is what the same ADMIN reads back: the scan with evaluate's findings in order and scored, as many as reported |
| AccessControl.UploadThenReport | backend/src/compliance/routes.py:38-64 | after an upload that succeeds in a run the compliance reply lists as many ids in a framework as evaluate's findings whose rule has a control there |
| Ownership.OnlyTheAdminOwnsScans | backend/src/auth/routes.py:118-130 | in any run each scan is owned by an ADMIN whose lower-cased email is the configured one, viewers own none, and without a configured email none exists |
| Ownership.RunKeepsOwnership | backend/src/routes.py:95-237 | over any run users, scans and findings keep unique ids, scans an ADMIN owner and findings a stored scan |
| Uploads.UploadConservesFindings | backend/src/routes.py:149-181 | an upload succeeds exactly when every finding is storable and then stores evaluate's findings one for one with their scores; otherwise the scan stays empty |
| Uploads.UploadLeavesOtherScans | backend/src/routes.py:149-181 | the findings of earlier scans are untouched |
| Scenarios.FailedUploadLeavesEmptyScan | backend/src/routes.py:149-181 | after signup an ADMIN's upload with any unstorable finding replies with an error and leaves one scan and no finding |
| Scenarios.UnmappedRuleLosesFindings | backend/src/routes.py:149-181 | a concrete configuration and document for which that happens |
| Reads.ReadsDependOnOwnData | backend/src/routes.py:78-92 | two states that agree on the caller's scans and their findings answer every read alike |
| Ownership.RunsAnswerAlike | backend/src/routes.py:241-281 | after any two runs that leave the caller the same own scans and findings every read is answered alike |
| Isolation.StepLeavesOthersAlone | backend/src/routes.py:102-237 | a request other than an admitted scan of a user leaves that user's scans and their findings alone |
| Isolation.RunLeavesOthersAlone | backend/src/routes.py:102-237 | over any run in which nothing scans for a user, that user's scans and findings stay as they were |
| Isolation.ReadsAreUndisturbed | backend/src/routes.py:241-281 | every read of a caller is answered as before any further requests by anyone, none of which scanned for the caller |
| Reads.ForeignLooksMissing | backend/src/routes.py:83-91 | a foreign scan and a missing one give the same 404 and the same audit row |
| Reads.ListAnswersOwnScans | backend/src/routes.py:241-250 | the list holds the caller's scans, all and only, each once, newest first |
| Reads.FindingsAnswer | backend/src/routes.py:274-281 | the findings of an own scan are exactly those stored for it |
| Reads.OwnScanAnswers | backend/src/routes.py:253-281 | each read of an own scan is answered from that scan and exactly its findings in stored order, and changes nothing |

## Left out

- FastAPI, SQLModel sessions, Alembic, cookies, CORS, CSRF tokens, rate limits, and file name and size checks: framework plumbing; upload checks appear as one boolean.
- Cryptography: signing, Argon2id, SHA-256 and secrets are arbitrary functions or unforgeable by assumption.
- Concurrent interleavings of handlers, process restarts and several workers: the used-token set lives in one process and the check and add are not locked.
- YAML and JSON text parsing, the parse timeout and alias detection: the model starts from a parsed value, or none.
- The cloud collector and the resource mappers: their output, or their failure, is an input.
- A resource without an id or with a null one: an instance like that in a public group would raise, or become a node called None; the mappers always emit one.
- Relation lists of other JSON types: the source would iterate characters or keys, or raise; the typed resource excludes them.
- A rule without severity or remediation: the source raises a KeyError on its first finding.
- The node label text and the rule titles loaded from YAML: presentation only; titles are an input map.
- Service.Api.HandleRead: scans with equal timestamps and the findings of a scan come in a fixed order, where the database may return any.
- AccessControl.UploadThenRead: "in order" holds for findings read back in insertion order; the query names no order.
- AttackRoute.FindingIndexMeaning: the "last finding" is the last in the order read, which the query leaves open.
- Service.Api.RotateRefreshToken: decodes against one clock reading per request, where the source reads the clock again.
- AttackRoute.HighestOnPath: speaks of the last finding per resource, because the index keeps only that one.
- The machine-learning training scripts, the frontend, mocks and deployment files.
