/** Who gets in, who may change scans, and what comes back after an upload. */
module AccessControl {
  import opened Prelude
  import opened Json
  import opened Records
  import opened RuleEngine
  import opened Compliance
  import opened Server
  import opened Sessions
  import opened Uploads
  import opened Ownership
  import DepthLimit

  lemma UserIsItsId(cfg: Config, s: State, u: User, v: User)
    requires UsersOk(cfg, s) && u in s.users && v in s.users && u.userId == v.userId
    ensures u == v
  {
  }

  lemma UserIsItsEmail(cfg: Config, s: State, u: User, v: User)
    requires UsersOk(cfg, s) && u in s.users && v in s.users && u.email == v.email
    ensures u == v
  {
  }

  /** This server signed the token. */
  ghost predicate Signed(s: State, token: Token) {
    token.jti in s.issued && s.issued[token.jti].token == token
  }

  /**
   * In every reachable state a request is served exactly when it brings an access token this server signed,
   * within its lifetime; and it is served as the very user the token was signed for, with the role and
   * email the token carries.
   */
  lemma AuthenticatedAsHolder(cfg: Config, rs: seq<Request>, s: State, token: Token, now: int)
    requires s == Run(cfg, rs)
    ensures CurrentUser(s, Some(token), now).Some? <==>
            Signed(s, token) && token.kind == Access && token.issuedAt <= now < token.expiresAt
    ensures CurrentUser(s, Some(token), now).Some? ==>
            var u := CurrentUser(s, Some(token), now).value;
            u in s.users && Matches(u, token) && (u.role == ADMIN <==> IsAdminEmail(cfg, u.email))
  {
    RunKeepsSessions(cfg, rs);
    RunKeepsOwnership(cfg, rs);
    if Signed(s, token) {
      var v :| v in s.users && Matches(v, token);
      var found := UserById(s.users, v.userId);
      if found.Some? {
        UserIsItsId(cfg, s, found.value, v);
      }
    }
  }

  /** Once served, a token is served as the same user after any further requests, as long as it is within its lifetime. */
  lemma ServedForItsLifetime(cfg: Config, rs: seq<Request>, k: nat, token: Token, now: int)
    requires k <= |rs| && CurrentUser(Run(cfg, rs[..k]), Some(token), now).Some?
    ensures CurrentUser(Run(cfg, rs), Some(token), now) == CurrentUser(Run(cfg, rs[..k]), Some(token), now)
  {
    var s, t := Run(cfg, rs[..k]), Run(cfg, rs);
    RunExtends(cfg, rs, k);
    AuthenticatedAsHolder(cfg, rs[..k], s, token, now);
    AuthenticatedAsHolder(cfg, rs, t, token, now);
    RunKeepsOwnership(cfg, rs);
    UserIsItsId(cfg, t, CurrentUser(s, Some(token), now).value, CurrentUser(t, Some(token), now).value);
  }

  /** A granted session serves its user exactly while the access token lives, and can be refreshed while the other does. */
  ghost predicate Grants(cfg: Config, t: State, reply: Reply, user: User, now: int) {
    && reply.SessionGranted?
    && (forall n :: CurrentUser(t, Some(reply.access), n) == if now <= n < now + cfg.accessLifetime then Some(user) else None)
    && (forall n :: Accepts(t, reply.refresh, Refresh, n) <==> now <= n < now + cfg.refreshLifetime)
    && reply.refresh.jti !in t.used
  }

  lemma OpenSessionGrants(cfg: Config, s: State, user: User, now: int)
    requires UsersOk(cfg, s) && SessionInv(s) && user in s.users
    ensures Grants(cfg, OpenSession(cfg, s, user, now).0, OpenSession(cfg, s, user, now).1, user, now)
  {
  }

  /** A login succeeds exactly for a registered email with its password, and then speaks for that user. */
  lemma LoginOutcome(cfg: Config, rs: seq<Request>, s: State, email: string, password: string, now: int)
    requires s == Run(cfg, rs)
    ensures var (t, reply) := Login(cfg, s, email, password, now);
            if exists u :: u in s.users && u.email == email && cfg.verify(password, u.passwordHash) then
              exists u :: u in s.users && u.email == email && Grants(cfg, t, reply, u, now)
            else reply == Unauthorized && t == s
  {
    RunKeepsOwnership(cfg, rs);
    RunKeepsSessions(cfg, rs);
    match UserByEmail(s.users, email)
    case None =>
    case Some(user) =>
      forall u | u in s.users && u.email == email
        ensures u == user
      {
        UserIsItsEmail(cfg, s, u, user);
      }
      OpenSessionGrants(cfg, s, user, now);
  }

  /** `t` has one user more than `s`, with a new id and the role its email calls for; the others stay as they were. */
  ghost predicate Registers(cfg: Config, s: State, t: State, user: User) {
    && t.users == s.users + [user]
    && (forall u :: u in s.users ==> u.userId != user.userId && u.email != user.email)
    && (user.role == ADMIN <==> IsAdminEmail(cfg, user.email))
  }

  lemma NewUserIsGranted(cfg: Config, s: State, email: string, passwordHash: string, now: int)
    requires OwnershipInv(cfg, s) && SessionInv(s) && UserByEmail(s.users, email).None?
    ensures var user := User(s.nextId, email, passwordHash, if IsAdminEmail(cfg, email) then ADMIN else VIEWER);
            var (t, reply) := Signup(cfg, s, email, passwordHash, now);
            Registers(cfg, s, t, user) && Grants(cfg, t, reply, user, now)
  {
    var user := User(s.nextId, email, passwordHash, if IsAdminEmail(cfg, email) then ADMIN else VIEWER);
    var stored := Log(s.(users := s.users + [user], nextId := s.nextId + 1), user.userId, "signup_success");
    NewUserKeepsOwnership(cfg, s, user);
    QuietStepKeeps(s, stored);
    assert UsersOk(cfg, stored);
    OpenSessionGrants(cfg, stored, user, now);
    assert Signup(cfg, s, email, passwordHash, now) == OpenSession(cfg, stored, user, now);
  }

  /** A signup is refused exactly for a registered email; otherwise it adds one user and grants that user a session. */
  lemma SignupOutcome(cfg: Config, rs: seq<Request>, s: State, email: string, passwordHash: string, now: int)
    requires s == Run(cfg, rs)
    ensures var (t, reply) := Signup(cfg, s, email, passwordHash, now);
            if exists u :: u in s.users && u.email == email then reply == Conflict && t == s
            else exists user: User :: user.email == email && user.passwordHash == passwordHash &&
                   Registers(cfg, s, t, user) && Grants(cfg, t, reply, user, now)
  {
    RunKeepsOwnership(cfg, rs);
    RunKeepsSessions(cfg, rs);
    if UserByEmail(s.users, email).None? {
      NewUserIsGranted(cfg, s, email, passwordHash, now);
    }
  }

  /** Stored scans change only through an ADMIN, and an uploaded document is nested at most 20 deep. */
  lemma OnlyAdminsChangeScans(cfg: Config, s: State, r: Request)
    requires Step(cfg, s, r).0.scans != s.scans || Step(cfg, s, r).0.findings != s.findings
    ensures match r.op
            case DoUpload(access, _, accepted, document) =>
              Allowed(s, access, r.now) && accepted && document.Some? && Height(document.value) <= 20
            case DoScanCloud(access, collected) => Allowed(s, access, r.now) && collected.Some?
            case _ => false
  {
    match r.op
    case DoUpload(access, filename, accepted, document) =>
      if document.Some? {
        DepthLimit.DocumentAccepted(document.value);
      }
    case DoScanCloud(access, collected) =>
    case DoSignup(_, _) =>
    case _ => OtherStepsKeepRows(cfg, s, r);
  }

  lemma {:induction false} AppendedScanIsFound(scans: seq<Scan>, scan: Scan)
    requires forall x :: x in scans ==> x.scanId != scan.scanId
    ensures ScanById(scans + [scan], scan.scanId) == Some(scan)
  {
  }

  lemma NewScanIsLoaded(cfg: Config, s: State, scan: Scan, data: seq<FindingData>, cookie: Option<Token>, now: int)
    requires scan.scanId == s.nextId
    requires forall x :: x in s.scans ==> x.scanId < s.nextId
    requires forall f :: f in s.findings ==> f.scanId < s.nextId
    requires CurrentUser(s, cookie, now).Some? && CurrentUser(s, cookie, now).value.userId == scan.userId
    ensures var t := StoreFindings(cfg, WithScan(s, scan), scan.scanId, data).0;
            && CurrentUser(t, cookie, now) == CurrentUser(s, cookie, now)
            && LoadOwnedScan(t, CurrentUser(s, cookie, now).value, scan.scanId) == Some(scan)
  {
    UploadConservesFindings(cfg, s, scan, data);
    StoreFindingsKeepsAccounts(cfg, WithScan(s, scan), scan.scanId, data);
    AppendedScanIsFound(s.scans, scan);
  }

  /** Every request about the new scan is answered from its own row and findings. */
  lemma NewScanAnswers(cfg: Config, s: State, scan: Scan, data: seq<FindingData>, cookie: Option<Token>, query: Query, now: int)
    requires scan.scanId == s.nextId
    requires forall x :: x in s.scans ==> x.scanId < s.nextId
    requires forall f :: f in s.findings ==> f.scanId < s.nextId
    requires CurrentUser(s, cookie, now).Some? && CurrentUser(s, cookie, now).value.userId == scan.userId
    requires !query.ListScans? && query.id == scan.scanId
    ensures var t := StoreFindings(cfg, WithScan(s, scan), scan.scanId, data).0;
            Read(cfg, t, cookie, query, now).1 == Answer(cfg, t, query, scan)
  {
    NewScanIsLoaded(cfg, s, scan, data, cookie, now);
  }

  lemma StoredScanIsReadable(cfg: Config, s: State, scan: Scan, data: seq<FindingData>, cookie: Option<Token>, now: int)
    requires scan.scanId == s.nextId
    requires forall x :: x in s.scans ==> x.scanId < s.nextId
    requires forall f :: f in s.findings ==> f.scanId < s.nextId
    requires CurrentUser(s, cookie, now).Some? && CurrentUser(s, cookie, now).value.userId == scan.userId
    ensures var (t, reply) := StoreFindings(cfg, WithScan(s, scan), scan.scanId, data);
            var answer := Read(cfg, t, cookie, GetScan(scan.scanId), now).1;
            && answer.ScanDetail? && answer.scan == scan
            && (if reply.Uploaded? then reply.findingsCount == |data| && StoredAsAll(cfg, answer.findings, data)
                else answer.findings == [])
  {
    var t := StoreFindings(cfg, WithScan(s, scan), scan.scanId, data).0;
    UploadConservesFindings(cfg, s, scan, data);
    NewScanAnswers(cfg, s, scan, data, cookie, GetScan(scan.scanId), now);
  }

  /**
   * What an ADMIN uploads is what the same ADMIN reads back: the scan with one finding per finding of
   * `evaluate`, in order and scored, as many as the upload reported; or none, when the upload failed while
   * storing them.
   */
  lemma UploadThenRead(cfg: Config, rs: seq<Request>, s: State, cookie: Option<Token>, filename: string, document: Json, now: int)
    requires s == Run(cfg, rs) && Allowed(s, cookie, now) && DepthLimit.ValidateDepth(document, 1)
    ensures var (t, reply) := Upload(cfg, s, cookie, filename, true, Some(document), now);
            var answer := Read(cfg, t, cookie, GetScan(s.nextId), now).1;
            var data := Findings(cfg.lib, cfg.rules, Normalize(document));
            && answer.ScanDetail?
            && answer.scan == Scan(s.nextId, CurrentUser(s, cookie, now).value.userId, filename, STATIC, now)
            && (reply.Uploaded? ==> reply == Uploaded(s.nextId, |data|) && StoredAsAll(cfg, answer.findings, data))
            && (!reply.Uploaded? ==> reply == ServerError && answer.findings == [])
  {
    RunKeepsOwnership(cfg, rs);
    var user := CurrentUser(s, cookie, now).value;
    var data := Findings(cfg.lib, cfg.rules, Normalize(document));
    var scan := Scan(s.nextId, user.userId, filename, STATIC, now);
    StoredScanIsReadable(cfg, s, scan, data, cookie, now);
    UploadConservesFindings(cfg, s, scan, data);
  }

  /** Logout refuses the presented refresh token from then on and has no effect on whom an access token serves. */
  lemma LogoutEndsRefreshOnly(cfg: Config, s: State, token: Token, now: int, later: int, access: Option<Token>)
    requires Accepts(s, token, Refresh, now)
    ensures var t := Logout(s, Some(token), now).0;
            && RefreshSession(cfg, t, Some(token), later) == (t, Unauthorized)
            && CurrentUser(t, access, later) == CurrentUser(s, access, later)
  {
  }

  // ---- From an upload to its report ----

  lemma StoredScanIsReported(cfg: Config, s: State, scan: Scan, data: seq<FindingData>, cookie: Option<Token>, framework: Framework, now: int)
    requires scan.scanId == s.nextId && UniqueRules(cfg.rows)
    requires forall x :: x in s.scans ==> x.scanId < s.nextId
    requires forall f :: f in s.findings ==> f.scanId < s.nextId
    requires CurrentUser(s, cookie, now).Some? && CurrentUser(s, cookie, now).value.userId == scan.userId
    requires StoreFindings(cfg, WithScan(s, scan), scan.scanId, data).1.Uploaded?
    ensures var t := StoreFindings(cfg, WithScan(s, scan), scan.scanId, data).0;
            var answer := Read(cfg, t, cookie, GetCompliance(scan.scanId), now).1;
            answer.ComplianceReport? && ListedIds(answer.report.controls, framework) == CountData(cfg.rows, framework, data)
  {
    var t := StoreFindings(cfg, WithScan(s, scan), scan.scanId, data).0;
    ScanToReport(cfg, s, scan, data, framework);
    UploadConservesFindings(cfg, s, scan, data);
    NewScanAnswers(cfg, s, scan, data, cookie, GetCompliance(scan.scanId), now);
  }

  /**
   * After a successful upload in any run, the compliance request of the uploader lists as many ids in a
   * framework as `evaluate` produced findings whose rule has a control there.
   */
  lemma UploadThenReport(cfg: Config, rs: seq<Request>, s: State, cookie: Option<Token>, filename: string, document: Json, framework: Framework, now: int)
    requires s == Run(cfg, rs) && Allowed(s, cookie, now) && DepthLimit.ValidateDepth(document, 1)
    requires UniqueRules(cfg.rows)
    requires Upload(cfg, s, cookie, filename, true, Some(document), now).1.Uploaded?
    ensures var t := Upload(cfg, s, cookie, filename, true, Some(document), now).0;
            var answer := Read(cfg, t, cookie, GetCompliance(s.nextId), now).1;
            answer.ComplianceReport? &&
            ListedIds(answer.report.controls, framework) ==
              CountData(cfg.rows, framework, Findings(cfg.lib, cfg.rules, Normalize(document)))
  {
    RunKeepsOwnership(cfg, rs);
    var user := CurrentUser(s, cookie, now).value;
    StoredScanIsReported(cfg, s, Scan(s.nextId, user.userId, filename, STATIC, now),
                         Findings(cfg.lib, cfg.rules, Normalize(document)), cookie, framework, now);
  }
}
