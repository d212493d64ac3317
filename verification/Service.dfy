/** The handlers themselves, updating the stored rows and the token registry in place. */
module Service {
  import opened Prelude
  import opened Json
  import opened Records
  import opened RuleEngine
  import opened Scorer
  import opened Compliance
  import opened Server
  import DepthLimit
  import AttackRoute

  class Api {
    const cfg: Config
    var users: seq<User>
    var scans: seq<Scan>
    var findings: seq<Finding>
    var used: set<nat>            // the module-level set of used refresh ids
    var issued: map<nat, Issue>   // what the signing secret vouches for
    var audit: seq<AuditEvent>
    var nextId: nat

    function Value(): State
      reads this
    {
      State(users, scans, findings, used, issued, audit, nextId)
    }

    constructor (cfg: Config)
      ensures this.cfg == cfg && Value() == INITIAL
    {
      this.cfg := cfg;
      users, scans, findings, used, issued, audit, nextId := [], [], [], {}, map[], [], 0;
    }

    method LogEvent(userId: nat, action: string)
      modifies this`audit
      ensures Value() == Log(old(Value()), userId, action)
    {
      audit := audit + [AuditEvent(userId, action)];
    }

    // ---- Tokens ----

    method CreateToken(subject: Subject, email: string, role: Role, kind: TokenKind, now: int, lifetime: int, session: nat)
      returns (token: Token)
      modifies this`issued, this`nextId
      ensures token == NewToken(subject, email, role, kind, now, lifetime, old(nextId))
      ensures issued == old(issued)[old(nextId) := Issue(token, session)] && nextId == old(nextId) + 1
    {
      token := Token(subject, email, role, kind, now, now + lifetime, nextId);
      issued := issued[nextId := Issue(token, session)];
      nextId := nextId + 1;
    }

    method DecodeToken(token: Token, kind: TokenKind, now: int) returns (accepted: bool)
      ensures accepted == Accepts(Value(), token, kind, now)
    {
      if token.jti !in issued || issued[token.jti].token != token {
        return false;
      }
      if !(token.issuedAt <= now < token.expiresAt) {
        return false;
      }
      return token.kind == kind;
    }

    /** The old id is burned before anything else can fail; None is the error raised. */
    method RotateRefreshToken(token: Token, now: int) returns (replacement: Option<Token>)
      modifies this`used, this`issued, this`nextId
      ensures replacement.Some? <==>
        Accepts(old(Value()), token, Refresh, now) && token.jti !in old(used) && token.subject.Canonical?
      ensures used == if Accepts(old(Value()), token, Refresh, now) then old(used) + {token.jti} else old(used)
      ensures replacement.None? ==> issued == old(issued) && nextId == old(nextId)
      ensures replacement.Some? ==>
        && nextId == old(nextId) + 1
        && Issue(replacement.value, old(issued)[token.jti].session) == Replacements(cfg, old(Value()), token, now).0
        && issued == old(issued)[old(nextId) := Replacements(cfg, old(Value()), token, now).0]
    {
      var accepted := DecodeToken(token, Refresh, now);
      if !accepted || token.jti in used {
        return None;
      }
      used := used + {token.jti};
      if token.subject.Malformed? {
        return None;
      }
      var session := issued[token.jti].session;
      var refresh := CreateToken(token.subject, token.email, token.role, Refresh, now, cfg.refreshLifetime, session);
      return Some(refresh);
    }

    method RevokeRefreshToken(token: Token, now: int)
      modifies this`used
      ensures used == if Accepts(old(Value()), token, Refresh, now) then old(used) + {token.jti} else old(used)
    {
      var accepted := DecodeToken(token, Refresh, now);
      if accepted {
        used := used + {token.jti};
      }
    }

    // ---- auth/routes.py ----

    method GrantSession(user: User, now: int) returns (reply: Reply)
      modifies this`issued, this`nextId
      ensures (Value(), reply) == OpenSession(cfg, old(Value()), user, now)
    {
      var session := nextId + 1;
      var access := CreateToken(Canonical(user.userId), user.email, user.role, Access, now, cfg.accessLifetime, session);
      var refresh := CreateToken(Canonical(user.userId), user.email, user.role, Refresh, now, cfg.refreshLifetime, session);
      reply := SessionGranted(user.userId, access, refresh);
    }

    method HandleSignup(email: string, passwordHash: string, now: int) returns (reply: Reply)
      modifies this
      ensures (Value(), reply) == Signup(cfg, old(Value()), email, passwordHash, now)
    {
      if UserByEmail(users, email).Some? {
        return Conflict;
      }
      var isAdmin := cfg.adminEmail != "" && cfg.lower(email) == cfg.adminEmail;
      var user := User(nextId, email, passwordHash, if isAdmin then ADMIN else VIEWER);
      users := users + [user];
      nextId := nextId + 1;
      LogEvent(user.userId, "signup_success");
      reply := GrantSession(user, now);
    }

    method HandleLogin(email: string, password: string, now: int) returns (reply: Reply)
      modifies this
      ensures (Value(), reply) == Login(cfg, old(Value()), email, password, now)
    {
      var user := UserByEmail(users, email);
      if user.None? || !cfg.verify(password, user.value.passwordHash) {
        return Unauthorized;
      }
      reply := GrantSession(user.value, now);
    }

    method HandleRefresh(cookie: Option<Token>, now: int) returns (reply: Reply)
      modifies this
      ensures (Value(), reply) == RefreshSession(cfg, old(Value()), cookie, now)
    {
      if cookie.None? {
        return Unauthorized;
      }
      var token := cookie.value;
      var accepted := DecodeToken(token, Refresh, now);
      if !accepted {
        return Unauthorized;
      }
      var session := issued[token.jti].session;
      var replacement := RotateRefreshToken(token, now);
      assert token.jti in old(used) ==> used == old(used);
      if replacement.None? {
        return Unauthorized;
      }
      var access := CreateToken(token.subject, token.email, token.role, Access, now, cfg.accessLifetime, session);
      reply := Refreshed(access, replacement.value);
    }

    method HandleLogout(cookie: Option<Token>, now: int) returns (reply: Reply)
      modifies this
      ensures (Value(), reply) == Logout(old(Value()), cookie, now)
    {
      if cookie.Some? {
        RevokeRefreshToken(cookie.value, now);
      }
      reply := LoggedOut;
    }

    // ---- routes.py ----

    method GetCurrentUser(cookie: Option<Token>, now: int) returns (user: Option<User>)
      ensures user == CurrentUser(Value(), cookie, now)
    {
      if cookie.None? {
        return None;
      }
      var accepted := DecodeToken(cookie.value, Access, now);
      if !accepted || cookie.value.subject.Malformed? {
        return None;
      }
      user := UserById(users, cookie.value.subject.userId);
    }

    /** `require_role(ADMIN)`: the user, or the refusal already logged. */
    method RequireAdmin(cookie: Option<Token>, now: int) returns (user: Option<User>, refusal: Reply)
      modifies this`audit
      ensures user.Some? <==> Allowed(old(Value()), cookie, now)
      ensures user.Some? ==> user == CurrentUser(old(Value()), cookie, now) && Value() == old(Value())
      ensures user.None? ==> (Value(), refusal) == Refused(old(Value()), cookie, now)
    {
      user := GetCurrentUser(cookie, now);
      refusal := Unauthorized;
      if user.Some? && user.value.role != ADMIN {
        LogEvent(user.value.userId, "role_check_denied");
        return None, Forbidden;
      }
    }

    /** The rows to insert, built one by one; None where building or inserting one raises. */
    method BuildRows(data: seq<FindingData>, scores: seq<Score>, scanId: nat, firstId: nat) returns (rows: Option<seq<Finding>>)
      ensures rows == FindingRows(cfg, data, scores, ZipLength(data, scores), scanId, firstId)
    {
      var pending: seq<Finding> := [];
      for k := 0 to ZipLength(data, scores)
        invariant FindingRows(cfg, data, scores, k, scanId, firstId) == Some(pending)
      {
        var row := FindingRow(cfg, data[k], scores[k], scanId, firstId + k);
        if row.None? {
          FailedRowFailsAll(cfg, data, scores, k + 1, ZipLength(data, scores), scanId, firstId);
          return None;
        }
        pending := pending + [row.value];
      }
      rows := Some(pending);
    }

    /** The rows are committed together; an error part way leaves none of them. */
    method AddFindings(scanId: nat, data: seq<FindingData>) returns (reply: Reply)
      modifies this`findings, this`nextId
      ensures (Value(), reply) == StoreFindings(cfg, old(Value()), scanId, data)
    {
      var scores := ScoreFindings(cfg.digest, data);
      var rows := BuildRows(data, scores, scanId, nextId);
      if rows.None? {
        return ServerError;
      }
      findings := findings + rows.value;
      nextId := nextId + |rows.value|;
      reply := Uploaded(scanId, |data|);
    }

    method AddScan(user: User, filename: string, scanType: ScanType, parsed: Json, now: int) returns (reply: Reply)
      modifies this
      ensures (Value(), reply) == StoreScan(cfg, old(Value()), user, filename, scanType, parsed, now)
    {
      var data := Evaluate(cfg.lib, cfg.rules, parsed);
      var scan := Scan(nextId, user.userId, filename, scanType, now);
      scans := scans + [scan];
      nextId := nextId + 1;
      assert Value() == WithScan(old(Value()), scan);
      reply := AddFindings(scan.scanId, data);
    }

    method UploadScan(cookie: Option<Token>, filename: string, accepted: bool, document: Option<Json>, now: int) returns (reply: Reply)
      modifies this
      ensures (Value(), reply) == Upload(cfg, old(Value()), cookie, filename, accepted, document, now)
    {
      var user, refusal := RequireAdmin(cookie, now);
      if user.None? {
        return refusal;
      }
      if !accepted {
        return BadRequest;
      }
      if document.None? || !DepthLimit.ValidateDepth(document.value, 1) {
        return BadRequest;
      }
      reply := AddScan(user.value, filename, STATIC, document.value, now);
    }

    method ScanCloudAccount(cookie: Option<Token>, collected: Option<Json>, now: int) returns (reply: Reply)
      modifies this
      ensures (Value(), reply) == ScanCloud(cfg, old(Value()), cookie, collected, now)
    {
      var user, refusal := RequireAdmin(cookie, now);
      if user.None? {
        return refusal;
      }
      if collected.None? {
        return BadGateway;
      }
      reply := AddScan(user.value, "Live Cloud Account", LIVE, collected.value, now);
    }

    /** The reads, each scoped to the caller. */
    method HandleRead(cookie: Option<Token>, query: Query, now: int) returns (reply: Reply)
      modifies this`audit
      ensures (Value(), reply) == Read(cfg, old(Value()), cookie, query, now)
    {
      var caller := GetCurrentUser(cookie, now);
      if caller.None? {
        return Unauthorized;
      }
      var user := caller.value;
      if query.ListScans? {
        return ScanList(NewestFirst(OwnScans(scans, user.userId)));
      }
      var found := ScanById(scans, query.id);
      if found.None? || found.value.userId != user.userId {
        LogEvent(user.userId, "scan_access_denied");
        return NotFound;
      }
      var scan := found.value;
      var own := FindingsOf(findings, scan.scanId);
      match query
      case GetScan(_) => reply := ScanDetail(scan, own);
      case GetFindings(_) => reply := FindingList(own);
      case GetCompliance(_) =>
        var report := BuildCompliance(cfg.rows, own, cfg.titles);
        reply := ComplianceReport(report);
      case GetAttackPaths(_, collected) =>
        var response := AttackRoute.GetAttackPaths(scan.scanType, own, collected);
        reply := AttackPaths(response);
    }
  }

  /** Once a prefix of the rows fails, so does the whole list. */
  lemma {:induction false} FailedRowFailsAll(cfg: Config, data: seq<FindingData>, scores: seq<Score>, k: nat, n: nat, scanId: nat, firstId: nat)
    requires k <= n <= ZipLength(data, scores)
    requires FindingRows(cfg, data, scores, k, scanId, firstId).None?
    ensures FindingRows(cfg, data, scores, n, scanId, firstId).None?
  {
    if k < n {
      FailedRowFailsAll(cfg, data, scores, k, n - 1, scanId, firstId);
    }
  }
}
