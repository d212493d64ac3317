/**
 * The API as a state machine: users, scans, findings, signed tokens and the used refresh-token ids.
 * Each handler is one atomic step. `uuid4` returns ids never used before, taken from a counter; a JWT
 * verifies exactly when the server signed it.
 */
module Server {
  import opened Prelude
  import opened Json
  import opened Records
  import opened RuleEngine
  import opened Scorer
  import opened Compliance
  import DepthLimit
  import AttackRoute
  import Resources

  // ---- Configuration ----

  datatype Config = Config(
    adminEmail: string,                   // lower-cased and stripped
    accessLifetime: int,
    refreshLifetime: int,
    lower: string -> string,              // str.lower
    verify: (string, string) -> bool,     // Argon2id verification of a password against a hash
    lib: Library,
    rules: seq<Rule>,
    digest: Digest,
    rows: seq<ComplianceRow>,
    titles: map<string, string>,
    asColumn: Json -> Option<string>)     // the text a value becomes in a string column, None if refused

  // ---- Tokens ----

  /** The `sub` claim: the text of a UUID, or text that `UUID(...)` refuses. */
  datatype Subject = Canonical(userId: nat) | Malformed(text: string)

  datatype TokenKind = Access | Refresh

  datatype Token = Token(
    subject: Subject, email: string, role: Role, kind: TokenKind, issuedAt: int, expiresAt: int, jti: nat)

  /** A signed token, and the session (named by its first refresh id) that led to it. */
  datatype Issue = Issue(token: Token, session: nat)

  datatype AuditEvent = AuditEvent(userId: nat, action: string)

  datatype State = State(
    users: seq<User>,
    scans: seq<Scan>,
    findings: seq<Finding>,
    used: set<nat>,
    issued: map<nat, Issue>,
    audit: seq<AuditEvent>,
    nextId: nat)

  const INITIAL := State([], [], [], {}, map[], [], 0)

  datatype Reply =
    | SessionGranted(userId: nat, access: Token, refresh: Token)
    | Refreshed(newAccess: Token, newRefresh: Token)
    | LoggedOut
    | Uploaded(scanId: nat, findingsCount: nat)
    | ScanList(scans: seq<Scan>)
    | ScanDetail(scan: Scan, findings: seq<Finding>)
    | FindingList(list: seq<Finding>)
    | ComplianceReport(report: Report)
    | AttackPaths(response: AttackRoute.Response)
    | BadRequest
    | Unauthorized
    | Forbidden
    | NotFound
    | Conflict
    | ServerError
    | BadGateway

  /** `decode_token`: signed by this server, of the expected type, not from the future and not expired. */
  predicate Accepts(s: State, token: Token, kind: TokenKind, now: int) {
    && token.jti in s.issued && s.issued[token.jti].token == token
    && token.issuedAt <= now < token.expiresAt
    && token.kind == kind
  }

  function NewToken(subject: Subject, email: string, role: Role, kind: TokenKind, now: int, lifetime: int, jti: nat): Token {
    Token(subject, email, role, kind, now, now + lifetime, jti)
  }

  /** Record two freshly signed tokens. */
  function SignPair(s: State, first: Issue, second: Issue): State {
    s.(issued := s.issued[s.nextId := first][s.nextId + 1 := second], nextId := s.nextId + 2)
  }

  function Log(s: State, userId: nat, action: string): State {
    s.(audit := s.audit + [AuditEvent(userId, action)])
  }

  // ---- Lookups ----

  function UserByEmail(users: seq<User>, email: string): (r: Option<User>)
    ensures r.Some? ==> r.value in users && r.value.email == email
    ensures r.None? ==> forall u :: u in users ==> u.email != email
  {
    if users == [] then None
    else if users[0].email == email then Some(users[0])
    else UserByEmail(users[1..], email)
  }

  function UserById(users: seq<User>, id: nat): (r: Option<User>)
    ensures r.Some? ==> r.value in users && r.value.userId == id
    ensures r.None? ==> forall u :: u in users ==> u.userId != id
  {
    if users == [] then None
    else if users[0].userId == id then Some(users[0])
    else UserById(users[1..], id)
  }

  function ScanById(scans: seq<Scan>, id: nat): (r: Option<Scan>)
    ensures r.Some? ==> r.value in scans && r.value.scanId == id
    ensures r.None? ==> forall x :: x in scans ==> x.scanId != id
  {
    if scans == [] then None
    else if scans[0].scanId == id then Some(scans[0])
    else ScanById(scans[1..], id)
  }

  // ---- Authentication steps ----

  function OpenSession(cfg: Config, s: State, user: User, now: int): (State, Reply) {
    var subject := Canonical(user.userId);
    var access := NewToken(subject, user.email, user.role, Access, now, cfg.accessLifetime, s.nextId);
    var refresh := NewToken(subject, user.email, user.role, Refresh, now, cfg.refreshLifetime, s.nextId + 1);
    (SignPair(s, Issue(access, refresh.jti), Issue(refresh, refresh.jti)),
     SessionGranted(user.userId, access, refresh))
  }

  function Signup(cfg: Config, s: State, email: string, passwordHash: string, now: int): (State, Reply) {
    if UserByEmail(s.users, email).Some? then (s, Conflict)
    else
      var role := if cfg.adminEmail != "" && cfg.lower(email) == cfg.adminEmail then ADMIN else VIEWER;
      var user := User(s.nextId, email, passwordHash, role);
      var stored := s.(users := s.users + [user], nextId := s.nextId + 1);
      OpenSession(cfg, Log(stored, user.userId, "signup_success"), user, now)
  }

  function Login(cfg: Config, s: State, email: string, password: string, now: int): (State, Reply) {
    match UserByEmail(s.users, email)
    case None => (s, Unauthorized)
    case Some(user) =>
      if cfg.verify(password, user.passwordHash) then OpenSession(cfg, s, user, now) else (s, Unauthorized)
  }

  /** The refresh and access token that continue the session of `token`, with the claims it carries. */
  function Replacements(cfg: Config, s: State, token: Token, now: int): (Issue, Issue)
    requires token.jti in s.issued
  {
    var session := s.issued[token.jti].session;
    (Issue(NewToken(token.subject, token.email, token.role, Refresh, now, cfg.refreshLifetime, s.nextId), session),
     Issue(NewToken(token.subject, token.email, token.role, Access, now, cfg.accessLifetime, s.nextId + 1), session))
  }

  /** A refresh id becomes used before the replacement is issued, also when no replacement follows. */
  function RefreshSession(cfg: Config, s: State, cookie: Option<Token>, now: int): (State, Reply) {
    match cookie
    case None => (s, Unauthorized)
    case Some(token) =>
      if !Accepts(s, token, Refresh, now) then (s, Unauthorized)
      else if token.jti in s.used then (s, Unauthorized)
      else
        var burned := s.(used := s.used + {token.jti});
        if token.subject.Malformed? then (burned, Unauthorized)
        else
          var (refresh, access) := Replacements(cfg, s, token, now);
          (SignPair(burned, refresh, access), Refreshed(access.token, refresh.token))
  }

  function Logout(s: State, cookie: Option<Token>, now: int): (State, Reply) {
    match cookie
    case Some(token) =>
      if Accepts(s, token, Refresh, now) then (s.(used := s.used + {token.jti}), LoggedOut) else (s, LoggedOut)
    case None => (s, LoggedOut)
  }

  /** `get_current_user` */
  function CurrentUser(s: State, cookie: Option<Token>, now: int): Option<User> {
    match cookie
    case None => None
    case Some(token) =>
      if Accepts(s, token, Access, now) && token.subject.Canonical? then UserById(s.users, token.subject.userId) else None
  }

  // ---- Scans ----

  /** The row for one finding; None where building or inserting it raises. */
  function FindingRow(cfg: Config, data: FindingData, score: Score, scanId: nat, findingId: nat): Option<Finding> {
    match (ParseSeverity(data.severity), cfg.asColumn(data.resourceId), cfg.asColumn(data.resourceType))
    case (Some(severity), Some(resourceId), Some(resourceType)) =>
      if Mapped(cfg.rows, data.ruleId) then
        Some(Finding(findingId, scanId, resourceId, resourceType, severity, data.ruleId, data.message,
                     score.riskScore, score.isAnomaly))
      else None
    case _ => None
  }

  /** Python's `zip` stops at the shorter list. */
  function ZipLength(data: seq<FindingData>, scores: seq<Score>): nat {
    if |data| < |scores| then |data| else |scores|
  }

  /** The rows for the first `n` pairs of `zip(findings_data, scores)`; one failure discards all of them. */
  function FindingRows(cfg: Config, data: seq<FindingData>, scores: seq<Score>, n: nat, scanId: nat, firstId: nat): Option<seq<Finding>>
    requires n <= ZipLength(data, scores)
  {
    if n == 0 then Some([])
    else
      match (FindingRows(cfg, data, scores, n - 1, scanId, firstId),
             FindingRow(cfg, data[n - 1], scores[n - 1], scanId, firstId + n - 1))
      case (Some(rows), Some(row)) => Some(rows + [row])
      case _ => None
  }

  /** The findings of a committed scan are committed together, or not at all. */
  function StoreFindings(cfg: Config, committed: State, scanId: nat, data: seq<FindingData>): (State, Reply) {
    var scores := Scores(cfg.digest, data);
    match FindingRows(cfg, data, scores, ZipLength(data, scores), scanId, committed.nextId)
    case None => (committed, ServerError)
    case Some(rows) =>
      (committed.(findings := committed.findings + rows, nextId := committed.nextId + |rows|), Uploaded(scanId, |data|))
  }

  function WithScan(s: State, scan: Scan): State {
    s.(scans := s.scans + [scan], nextId := s.nextId + 1)
  }

  /** The scan is committed first, its findings afterwards. */
  function StoreScan(cfg: Config, s: State, user: User, filename: string, scanType: ScanType, parsed: Json, now: int): (State, Reply) {
    StoreFindings(cfg, WithScan(s, Scan(s.nextId, user.userId, filename, scanType, now)), s.nextId,
                  Findings(cfg.lib, cfg.rules, Normalize(parsed)))
  }

  /** `require_role(ADMIN)` in front of a handler: 401, or 403 with an audit row. */
  predicate Allowed(s: State, cookie: Option<Token>, now: int) {
    CurrentUser(s, cookie, now).Some? && CurrentUser(s, cookie, now).value.role == ADMIN
  }

  function Refused(s: State, cookie: Option<Token>, now: int): (State, Reply) {
    match CurrentUser(s, cookie, now)
    case None => (s, Unauthorized)
    case Some(user) => (Log(s, user.userId, "role_check_denied"), Forbidden)
  }

  /** `accepted` tells whether extension and size pass; the document is None where parsing raises. */
  function Upload(cfg: Config, s: State, cookie: Option<Token>, filename: string, accepted: bool, document: Option<Json>, now: int): (State, Reply) {
    if !Allowed(s, cookie, now) then Refused(s, cookie, now)
    else if !accepted || document.None? || !DepthLimit.ValidateDepth(document.value, 1) then (s, BadRequest)
    else StoreScan(cfg, s, CurrentUser(s, cookie, now).value, filename, STATIC, document.value, now)
  }

  function ScanCloud(cfg: Config, s: State, cookie: Option<Token>, collected: Option<Json>, now: int): (State, Reply) {
    if !Allowed(s, cookie, now) then Refused(s, cookie, now)
    else if collected.None? then (s, BadGateway)
    else StoreScan(cfg, s, CurrentUser(s, cookie, now).value, "Live Cloud Account", LIVE, collected.value, now)
  }

  // ---- Reads ----

  function OwnScans(scans: seq<Scan>, userId: nat): seq<Scan> {
    if scans == [] then []
    else
      var before, scan := OwnScans(scans[..|scans| - 1], userId), scans[|scans| - 1];
      if scan.userId == userId then before + [scan] else before
  }

  function InsertNewest(scan: Scan, sorted: seq<Scan>): seq<Scan> {
    if sorted == [] then [scan]
    else if sorted[|sorted| - 1].timestamp >= scan.timestamp then sorted + [scan]
    else InsertNewest(scan, sorted[..|sorted| - 1]) + [sorted[|sorted| - 1]]
  }

  /** Newest first. */
  function NewestFirst(scans: seq<Scan>): seq<Scan> {
    if scans == [] then [] else InsertNewest(scans[|scans| - 1], NewestFirst(scans[..|scans| - 1]))
  }

  function FindingsOf(findings: seq<Finding>, scanId: nat): seq<Finding> {
    if findings == [] then []
    else
      var before, f := FindingsOf(findings[..|findings| - 1], scanId), findings[|findings| - 1];
      if f.scanId == scanId then before + [f] else before
  }

  /** `_load_owned_scan`: None is the 404. */
  function LoadOwnedScan(s: State, user: User, scanId: nat): Option<Scan> {
    match ScanById(s.scans, scanId)
    case Some(scan) => if scan.userId == user.userId then Some(scan) else None
    case None => None
  }

  datatype Query = ListScans | GetScan(id: nat) | GetFindings(id: nat) | GetCompliance(id: nat)
    | GetAttackPaths(id: nat, collected: Option<seq<Resources.Resource>>)

  function Answer(cfg: Config, s: State, query: Query, scan: Scan): Reply
    requires !query.ListScans?
  {
    var findings := FindingsOf(s.findings, scan.scanId);
    match query
    case GetScan(_) => ScanDetail(scan, findings)
    case GetFindings(_) => FindingList(findings)
    case GetCompliance(_) => ComplianceReport(ReportFor(cfg.rows, findings, cfg.titles))
    case GetAttackPaths(_, collected) => AttackPaths(AttackRoute.ResponseFor(scan.scanType, findings, collected))
  }

  function Read(cfg: Config, s: State, cookie: Option<Token>, query: Query, now: int): (State, Reply) {
    match CurrentUser(s, cookie, now)
    case None => (s, Unauthorized)
    case Some(user) =>
      if query.ListScans? then (s, ScanList(NewestFirst(OwnScans(s.scans, user.userId))))
      else
        match LoadOwnedScan(s, user, query.id)
        case None => (Log(s, user.userId, "scan_access_denied"), NotFound)
        case Some(scan) => (s, Answer(cfg, s, query, scan))
  }

  // ---- Runs ----

  datatype Op =
    | DoSignup(email: string, passwordHash: string)
    | DoLogin(email: string, password: string)
    | DoRefresh(cookie: Option<Token>)
    | DoLogout(cookie: Option<Token>)
    | DoUpload(access: Option<Token>, filename: string, accepted: bool, document: Option<Json>)
    | DoScanCloud(access: Option<Token>, collected: Option<Json>)
    | DoRead(access: Option<Token>, query: Query)

  /** A request and the time at which it is handled. */
  datatype Request = Request(op: Op, now: int)

  function Step(cfg: Config, s: State, r: Request): (State, Reply) {
    match r.op
    case DoSignup(email, passwordHash) => Signup(cfg, s, email, passwordHash, r.now)
    case DoLogin(email, password) => Login(cfg, s, email, password, r.now)
    case DoRefresh(cookie) => RefreshSession(cfg, s, cookie, r.now)
    case DoLogout(cookie) => Logout(s, cookie, r.now)
    case DoUpload(access, filename, accepted, document) => Upload(cfg, s, access, filename, accepted, document, r.now)
    case DoScanCloud(access, collected) => ScanCloud(cfg, s, access, collected, r.now)
    case DoRead(access, query) => Read(cfg, s, access, query, r.now)
  }

  /** The state after a run of requests, from the empty server. */
  function Run(cfg: Config, rs: seq<Request>): State {
    if rs == [] then INITIAL else Step(cfg, Run(cfg, rs[..|rs| - 1]), rs[|rs| - 1]).0
  }

  /** The reply to the k-th request of a run. */
  function ReplyAt(cfg: Config, rs: seq<Request>, k: nat): Reply
    requires k < |rs|
  {
    Step(cfg, Run(cfg, rs[..k]), rs[k]).1
  }

  // ---- Scans and reads leave accounts and tokens alone ----

  /** Nothing about users and tokens changed. */
  ghost predicate SameAccounts(s: State, t: State) {
    t.users == s.users && t.issued == s.issued && t.used == s.used && t.nextId >= s.nextId
  }

  lemma StoreScanKeepsAccounts(cfg: Config, s: State, user: User, filename: string, scanType: ScanType, parsed: Json, now: int)
    ensures SameAccounts(s, StoreScan(cfg, s, user, filename, scanType, parsed, now).0)
  {
  }

  lemma StoreFindingsKeepsAccounts(cfg: Config, s: State, scanId: nat, data: seq<FindingData>)
    ensures SameAccounts(s, StoreFindings(cfg, s, scanId, data).0)
  {
  }

  lemma UploadKeepsAccounts(cfg: Config, s: State, cookie: Option<Token>, filename: string, accepted: bool, document: Option<Json>, now: int)
    ensures SameAccounts(s, Upload(cfg, s, cookie, filename, accepted, document, now).0)
  {
    if Allowed(s, cookie, now) && accepted && document.Some? {
      StoreScanKeepsAccounts(cfg, s, CurrentUser(s, cookie, now).value, filename, STATIC, document.value, now);
    }
  }

  lemma ScanCloudKeepsAccounts(cfg: Config, s: State, cookie: Option<Token>, collected: Option<Json>, now: int)
    ensures SameAccounts(s, ScanCloud(cfg, s, cookie, collected, now).0)
  {
    if Allowed(s, cookie, now) && collected.Some? {
      StoreScanKeepsAccounts(cfg, s, CurrentUser(s, cookie, now).value, "Live Cloud Account", LIVE, collected.value, now);
    }
  }

  lemma ScanStepKeepsAccounts(cfg: Config, s: State, r: Request)
    requires r.op.DoUpload? || r.op.DoScanCloud? || r.op.DoRead?
    ensures SameAccounts(s, Step(cfg, s, r).0)
  {
    match r.op
    case DoUpload(access, filename, accepted, document) => UploadKeepsAccounts(cfg, s, access, filename, accepted, document, r.now);
    case DoScanCloud(access, collected) => ScanCloudKeepsAccounts(cfg, s, access, collected, r.now);
    case DoRead(access, query) =>
  }
}
