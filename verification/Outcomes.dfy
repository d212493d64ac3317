/** Every reply and every audit row, case by case: what the two scan operations and logout answer, and what is logged. */
module Outcomes {
  import opened Prelude
  import opened Json
  import opened Records
  import opened RuleEngine
  import opened RuleMeaning
  import opened Server
  import opened Uploads
  import opened Ownership
  import DepthLimit

  // ---- Refusals ----

  /** Nobody is served: 401, and nothing happens. A VIEWER is served: 403, and one audit row says so. */
  ghost predicate Refuses(s: State, caller: Option<User>, t: State, reply: Reply) {
    && (caller.None? ==> reply == Unauthorized && t == s)
    && (caller.Some? ==> reply == Forbidden && t == s.(audit := s.audit + [AuditEvent(caller.value.userId, "role_check_denied")]))
  }

  lemma RefusedScans(cfg: Config, s: State, cookie: Option<Token>, filename: string, accepted: bool, document: Option<Json>, now: int)
    requires CurrentUser(s, cookie, now).None? || CurrentUser(s, cookie, now).value.role == VIEWER
    ensures var (t, reply) := Upload(cfg, s, cookie, filename, accepted, document, now);
            Refuses(s, CurrentUser(s, cookie, now), t, reply)
    ensures var (t, reply) := ScanCloud(cfg, s, cookie, document, now);
            Refuses(s, CurrentUser(s, cookie, now), t, reply)
  {
  }

  // ---- What an ADMIN's scan does ----

  /** The scan was stored with the findings of all violations by the listed resources, or with none if one cannot be stored. */
  ghost predicate Scans(cfg: Config, s: State, t: State, reply: Reply, scan: Scan, resources: seq<Json>) {
    exists data, at ::
      && Comprehends(cfg.lib, cfg.rules, resources, data, at)
      && t.scans == s.scans + [scan]
      && (if forall d :: d in data ==> Storable(cfg, d) then
            reply == Uploaded(scan.scanId, |data|) && StoredAsAll(cfg, FindingsOf(t.findings, scan.scanId), data)
          else reply == ServerError && t.findings == s.findings)
  }

  lemma StoredScanScans(cfg: Config, s: State, user: User, filename: string, scanType: ScanType, parsed: Json, resources: seq<Json>, now: int)
    requires Lists(parsed, resources) && forall f :: f in s.findings ==> f.scanId < s.nextId
    ensures var (t, reply) := StoreScan(cfg, s, user, filename, scanType, parsed, now);
            Scans(cfg, s, t, reply, Scan(s.nextId, user.userId, filename, scanType, now), resources)
  {
    var data := Findings(cfg.lib, cfg.rules, Normalize(parsed));
    EvaluationExactly(cfg.lib, cfg.rules, parsed, resources);
    var at :| Comprehends(cfg.lib, cfg.rules, resources, data, at);
    UploadConservesFindings(cfg, s, Scan(s.nextId, user.userId, filename, scanType, now), data);
    AllStorable(cfg, data);
  }

  lemma AllStorable(cfg: Config, data: seq<FindingData>)
    ensures Unstorable(cfg, data, |data|) <==> !forall d :: d in data ==> Storable(cfg, d)
  {
  }

  /**
   * An ADMIN's upload is a bad request exactly when extension or size fail, parsing fails, or the document is
   * nested deeper than 20; then nothing is stored. Otherwise its resources are scanned, wherever the document
   * lists them.
   */
  lemma UploadOutcome(cfg: Config, rs: seq<Request>, cookie: Option<Token>, filename: string, accepted: bool, document: Option<Json>, resources: seq<Json>, now: int)
    requires Allowed(Run(cfg, rs), cookie, now)
    requires document.Some? ==> Lists(document.value, resources)
    ensures var s := Run(cfg, rs);
            var (t, reply) := Upload(cfg, s, cookie, filename, accepted, document, now);
            if accepted && document.Some? && Height(document.value) <= 20 then
              Scans(cfg, s, t, reply, Scan(s.nextId, CurrentUser(s, cookie, now).value.userId, filename, STATIC, now), resources)
            else reply == BadRequest && t == s
  {
    var s := Run(cfg, rs);
    RunKeepsOwnership(cfg, rs);
    if document.Some? {
      DepthLimit.DocumentAccepted(document.value);
      StoredScanScans(cfg, s, CurrentUser(s, cookie, now).value, filename, STATIC, document.value, resources, now);
    }
  }

  /** An ADMIN's cloud scan fails exactly when nothing was collected; otherwise what was collected is scanned. */
  lemma ScanCloudOutcome(cfg: Config, rs: seq<Request>, cookie: Option<Token>, collected: Option<Json>, resources: seq<Json>, now: int)
    requires Allowed(Run(cfg, rs), cookie, now)
    requires collected.Some? ==> Lists(collected.value, resources)
    ensures var s := Run(cfg, rs);
            var (t, reply) := ScanCloud(cfg, s, cookie, collected, now);
            if collected.Some? then
              Scans(cfg, s, t, reply, Scan(s.nextId, CurrentUser(s, cookie, now).value.userId, "Live Cloud Account", LIVE, now), resources)
            else reply == BadGateway && t == s
  {
    var s := Run(cfg, rs);
    RunKeepsOwnership(cfg, rs);
    if collected.Some? {
      StoredScanScans(cfg, s, CurrentUser(s, cookie, now).value, "Live Cloud Account", LIVE, collected.value, resources, now);
    }
  }

  // ---- Logout and the audit trail ----

  /** Logout always answers the same; it uses up at most the presented refresh token and touches nothing else. */
  lemma LogoutOutcome(s: State, cookie: Option<Token>, now: int)
    ensures var (t, reply) := Logout(s, cookie, now);
            && reply == LoggedOut && t == s.(used := t.used)
            && forall j :: j in t.used <==> j in s.used || (exists token :: cookie == Some(token) && token.jti == j && Accepts(s, token, Refresh, now))
  {
  }

  /** The scan is there and belongs to the user. */
  ghost predicate Owns(s: State, user: User, scanId: nat) {
    exists x :: x in s.scans && x.scanId == scanId && x.userId == user.userId
  }

  /** What a request adds to the audit trail. */
  ghost function Logged(s: State, r: Request): seq<AuditEvent> {
    match r.op
    case DoSignup(email, _) =>
      if exists u :: u in s.users && u.email == email then [] else [AuditEvent(s.nextId, "signup_success")]
    case DoUpload(access, _, _, _) => ScanLogged(CurrentUser(s, access, r.now))
    case DoScanCloud(access, _) => ScanLogged(CurrentUser(s, access, r.now))
    case DoRead(access, query) =>
      (match CurrentUser(s, access, r.now)
       case None => []
       case Some(user) => if query.ListScans? || Owns(s, user, query.id) then [] else [AuditEvent(user.userId, "scan_access_denied")])
    case _ => []
  }

  ghost function ScanLogged(caller: Option<User>): seq<AuditEvent> {
    if caller.Some? && caller.value.role == VIEWER then [AuditEvent(caller.value.userId, "role_check_denied")] else []
  }

  lemma OwnedIsLoaded(s: State, user: User, scanId: nat)
    requires ScansOk(s)
    ensures LoadOwnedScan(s, user, scanId).Some? <==> Owns(s, user, scanId)
  {
  }

  lemma StoreScanLogsNothing(cfg: Config, s: State, user: User, filename: string, scanType: ScanType, parsed: Json, now: int)
    ensures StoreScan(cfg, s, user, filename, scanType, parsed, now).0.audit == s.audit
  {
  }

  lemma UploadLogs(cfg: Config, s: State, cookie: Option<Token>, filename: string, accepted: bool, document: Option<Json>, now: int)
    ensures Upload(cfg, s, cookie, filename, accepted, document, now).0.audit == s.audit + ScanLogged(CurrentUser(s, cookie, now))
  {
    if Allowed(s, cookie, now) && document.Some? {
      StoreScanLogsNothing(cfg, s, CurrentUser(s, cookie, now).value, filename, STATIC, document.value, now);
    }
  }

  lemma ScanCloudLogs(cfg: Config, s: State, cookie: Option<Token>, collected: Option<Json>, now: int)
    ensures ScanCloud(cfg, s, cookie, collected, now).0.audit == s.audit + ScanLogged(CurrentUser(s, cookie, now))
  {
    if Allowed(s, cookie, now) && collected.Some? {
      StoreScanLogsNothing(cfg, s, CurrentUser(s, cookie, now).value, "Live Cloud Account", LIVE, collected.value, now);
    }
  }

  lemma ReadLogs(cfg: Config, s: State, r: Request)
    requires ScansOk(s) && r.op.DoRead?
    ensures Step(cfg, s, r).0.audit == s.audit + Logged(s, r)
  {
    var caller := CurrentUser(s, r.op.access, r.now);
    if caller.Some? && !r.op.query.ListScans? {
      OwnedIsLoaded(s, caller.value, r.op.query.id);
    }
  }

  lemma AccountLogs(cfg: Config, s: State, r: Request)
    requires r.op.DoSignup? || r.op.DoLogin? || r.op.DoRefresh? || r.op.DoLogout?
    ensures Step(cfg, s, r).0.audit == s.audit + Logged(s, r)
  {
  }

  /** In every reachable state, the audit trail grows by exactly that, and nothing is ever removed from it. */
  lemma AuditTrail(cfg: Config, rs: seq<Request>, r: Request)
    ensures Step(cfg, Run(cfg, rs), r).0.audit == Run(cfg, rs).audit + Logged(Run(cfg, rs), r)
  {
    var s := Run(cfg, rs);
    RunKeepsOwnership(cfg, rs);
    match r.op
    case DoRead(_, _) => ReadLogs(cfg, s, r);
    case DoUpload(access, filename, accepted, document) => UploadLogs(cfg, s, access, filename, accepted, document, r.now);
    case DoScanCloud(access, collected) => ScanCloudLogs(cfg, s, access, collected, r.now);
    case _ => AccountLogs(cfg, s, r);
  }
}
