/** Who owns scans, over whole runs. */
module Ownership {
  import opened Prelude
  import opened Json
  import opened Records
  import opened Server
  import opened Uploads
  import opened Reads
  import opened RuleEngine

  // ---- The invariant ----

  ghost predicate IsAdminEmail(cfg: Config, email: string) {
    cfg.adminEmail != "" && cfg.lower(email) == cfg.adminEmail
  }

  ghost predicate UsersOk(cfg: Config, s: State) {
    && (forall u :: u in s.users ==> u.userId < s.nextId && (u.role == ADMIN <==> IsAdminEmail(cfg, u.email)))
    && (forall i, j :: 0 <= i < j < |s.users| ==>
          s.users[i].userId != s.users[j].userId && s.users[i].email != s.users[j].email)
  }

  ghost predicate OwnedByAdmin(s: State, scan: Scan) {
    exists u :: u in s.users && u.userId == scan.userId && u.role == ADMIN
  }

  ghost predicate ScansOk(s: State) {
    && UniqueScans(s)
    && (forall x :: x in s.scans ==> x.scanId < s.nextId && OwnedByAdmin(s, x))
    && (forall f :: f in s.findings ==> f.findingId < s.nextId && f.scanId < s.nextId && Stored(s, f.scanId))
    && (forall i, j :: 0 <= i < j < |s.findings| ==> s.findings[i].findingId != s.findings[j].findingId)
  }

  ghost predicate Stored(s: State, scanId: nat) {
    exists x :: x in s.scans && x.scanId == scanId
  }

  ghost predicate OwnershipInv(cfg: Config, s: State) {
    UsersOk(cfg, s) && ScansOk(s)
  }

  // ---- Each step keeps it ----

  lemma QuietStepKeepsOwnership(cfg: Config, s: State, t: State)
    requires OwnershipInv(cfg, s)
    requires t.users == s.users && t.scans == s.scans && t.findings == s.findings && t.nextId >= s.nextId
    ensures OwnershipInv(cfg, t)
  {
  }

  lemma NewUserKeepsOwnership(cfg: Config, s: State, user: User)
    requires OwnershipInv(cfg, s)
    requires user.userId == s.nextId && (user.role == ADMIN <==> IsAdminEmail(cfg, user.email))
    requires forall u :: u in s.users ==> u.email != user.email
    ensures OwnershipInv(cfg, s.(users := s.users + [user], nextId := s.nextId + 1))
  {
  }

  lemma NewScanKeepsOwnership(cfg: Config, s: State, scan: Scan)
    requires OwnershipInv(cfg, s)
    requires scan.scanId == s.nextId && OwnedByAdmin(s, scan)
    ensures OwnershipInv(cfg, WithScan(s, scan))
  {
    var t := WithScan(s, scan);
    forall x | x in t.scans
      ensures OwnedByAdmin(t, x)
    {
      assert OwnedByAdmin(s, x);
    }
    forall f | f in t.findings
      ensures Stored(t, f.scanId)
    {
      var x :| x in s.scans && x.scanId == f.scanId;
      assert x in t.scans;
    }
  }

  lemma NewFindingsKeepOwnership(cfg: Config, s: State, rows: seq<Finding>, scanId: nat)
    requires OwnershipInv(cfg, s) && Stored(s, scanId) && scanId < s.nextId
    requires forall k :: 0 <= k < |rows| ==> rows[k].scanId == scanId && rows[k].findingId == s.nextId + k
    ensures OwnershipInv(cfg, s.(findings := s.findings + rows, nextId := s.nextId + |rows|))
  {
  }

  lemma StoreFindingsKeepsOwnership(cfg: Config, s: State, scanId: nat, data: seq<FindingData>)
    requires OwnershipInv(cfg, s) && Stored(s, scanId) && scanId < s.nextId
    ensures OwnershipInv(cfg, StoreFindings(cfg, s, scanId, data).0)
  {
    var rows := StoredRows(cfg, s, scanId, data);
    if StoreFindings(cfg, s, scanId, data).1.Uploaded? {
      NewFindingsKeepOwnership(cfg, s, rows, scanId);
    }
  }

  lemma StoreScanKeepsOwnership(cfg: Config, s: State, user: User, filename: string, scanType: ScanType, parsed: Json, now: int)
    requires OwnershipInv(cfg, s) && user in s.users && user.role == ADMIN
    ensures OwnershipInv(cfg, StoreScan(cfg, s, user, filename, scanType, parsed, now).0)
  {
    var scan := Scan(s.nextId, user.userId, filename, scanType, now);
    NewScanKeepsOwnership(cfg, s, scan);
    assert scan in WithScan(s, scan).scans;
    StoreFindingsKeepsOwnership(cfg, WithScan(s, scan), s.nextId, Findings(cfg.lib, cfg.rules, Normalize(parsed)));
  }

  // ---- Runs ----

  lemma SignupKeepsOwnership(cfg: Config, s: State, email: string, passwordHash: string, now: int)
    requires OwnershipInv(cfg, s)
    ensures OwnershipInv(cfg, Signup(cfg, s, email, passwordHash, now).0)
  {
    if UserByEmail(s.users, email).None? {
      var role := if cfg.adminEmail != "" && cfg.lower(email) == cfg.adminEmail then ADMIN else VIEWER;
      var user := User(s.nextId, email, passwordHash, role);
      NewUserKeepsOwnership(cfg, s, user);
      QuietStepKeepsOwnership(cfg, s.(users := s.users + [user], nextId := s.nextId + 1), Signup(cfg, s, email, passwordHash, now).0);
    }
  }

  lemma UploadKeepsOwnership(cfg: Config, s: State, cookie: Option<Token>, filename: string, accepted: bool, document: Option<Json>, now: int)
    requires OwnershipInv(cfg, s)
    ensures OwnershipInv(cfg, Upload(cfg, s, cookie, filename, accepted, document, now).0)
  {
    if !Allowed(s, cookie, now) {
      QuietStepKeepsOwnership(cfg, s, Refused(s, cookie, now).0);
    } else if accepted && document.Some? {
      StoreScanKeepsOwnership(cfg, s, CurrentUser(s, cookie, now).value, filename, STATIC, document.value, now);
    }
  }

  lemma ScanCloudKeepsOwnership(cfg: Config, s: State, cookie: Option<Token>, collected: Option<Json>, now: int)
    requires OwnershipInv(cfg, s)
    ensures OwnershipInv(cfg, ScanCloud(cfg, s, cookie, collected, now).0)
  {
    if !Allowed(s, cookie, now) {
      QuietStepKeepsOwnership(cfg, s, Refused(s, cookie, now).0);
    } else if collected.Some? {
      StoreScanKeepsOwnership(cfg, s, CurrentUser(s, cookie, now).value, "Live Cloud Account", LIVE, collected.value, now);
    }
  }

  lemma OtherStepsKeepRows(cfg: Config, s: State, r: Request)
    requires r.op.DoLogin? || r.op.DoRefresh? || r.op.DoLogout? || r.op.DoRead?
    ensures var t := Step(cfg, s, r).0;
            t.users == s.users && t.scans == s.scans && t.findings == s.findings && t.nextId >= s.nextId
  {
  }

  lemma StepKeepsOwnership(cfg: Config, s: State, r: Request)
    requires OwnershipInv(cfg, s)
    ensures OwnershipInv(cfg, Step(cfg, s, r).0)
  {
    match r.op
    case DoSignup(email, passwordHash) => SignupKeepsOwnership(cfg, s, email, passwordHash, r.now);
    case DoUpload(access, filename, accepted, document) => UploadKeepsOwnership(cfg, s, access, filename, accepted, document, r.now);
    case DoScanCloud(access, collected) => ScanCloudKeepsOwnership(cfg, s, access, collected, r.now);
    case _ =>
      OtherStepsKeepRows(cfg, s, r);
      QuietStepKeepsOwnership(cfg, s, Step(cfg, s, r).0);
  }

  lemma {:induction false} RunKeepsOwnership(cfg: Config, rs: seq<Request>)
    ensures OwnershipInv(cfg, Run(cfg, rs))
  {
    if rs != [] {
      RunKeepsOwnership(cfg, rs[..|rs| - 1]);
      StepKeepsOwnership(cfg, Run(cfg, rs[..|rs| - 1]), rs[|rs| - 1]);
    }
  }

  /**
   * In every reachable state each scan is owned by an ADMIN whose lower-cased email is the configured one,
   * a VIEWER owns no scan, and without a configured email there is no scan at all.
   */
  lemma OnlyTheAdminOwnsScans(cfg: Config, rs: seq<Request>, s: State)
    requires s == Run(cfg, rs)
    ensures forall x :: x in s.scans ==>
              exists u :: u in s.users && u.userId == x.userId && u.role == ADMIN && cfg.lower(u.email) == cfg.adminEmail
    ensures forall u :: u in s.users && u.role == VIEWER ==> OwnScans(s.scans, u.userId) == []
    ensures cfg.adminEmail == "" ==> s.scans == [] && s.findings == []
  {
    RunKeepsOwnership(cfg, rs);
    forall x | x in s.scans
      ensures exists u :: u in s.users && u.userId == x.userId && u.role == ADMIN && cfg.lower(u.email) == cfg.adminEmail
    {
      assert OwnedByAdmin(s, x);
    }
    forall u | u in s.users && u.role == VIEWER
      ensures OwnScans(s.scans, u.userId) == []
    {
      ViewerOwnsNothing(cfg, s, u);
    }
    if cfg.adminEmail == "" {
      NothingWithoutAdmin(cfg, s);
    }
  }

  lemma ViewerOwnsNothing(cfg: Config, s: State, v: User)
    requires OwnershipInv(cfg, s) && v in s.users && v.role == VIEWER
    ensures OwnScans(s.scans, v.userId) == []
  {
    var own := OwnScans(s.scans, v.userId);
    forall x
      ensures x !in own
    {
      OwnScansMember(s.scans, v.userId, x);
      assert x in s.scans ==> OwnedByAdmin(s, x);
    }
    NoMemberMeansEmpty(own);
  }

  lemma NothingWithoutAdmin(cfg: Config, s: State)
    requires OwnershipInv(cfg, s) && cfg.adminEmail == ""
    ensures s.scans == [] && s.findings == []
  {
    forall x
      ensures x !in s.scans
    {
      assert x in s.scans ==> OwnedByAdmin(s, x);
    }
    NoMemberMeansEmpty(s.scans);
    forall f
      ensures f !in s.findings
    {
      assert f in s.findings ==> Stored(s, f.scanId);
    }
    NoMemberMeansEmpty(s.findings);
  }

  /** Any two runs that leave a caller the same own scans and findings answer each of the caller's reads alike. */
  lemma RunsAnswerAlike(cfg: Config, rs: seq<Request>, qs: seq<Request>, s: State, t: State, cookie: Option<Token>, query: Query, now: int)
    requires s == Run(cfg, rs) && t == Run(cfg, qs)
    requires CurrentUser(s, cookie, now) == CurrentUser(t, cookie, now)
    requires CurrentUser(s, cookie, now).Some? ==> AgreeOn(s, t, CurrentUser(s, cookie, now).value.userId)
    ensures Read(cfg, s, cookie, query, now).1 == Read(cfg, t, cookie, query, now).1
  {
    RunKeepsOwnership(cfg, rs);
    RunKeepsOwnership(cfg, qs);
    ReadsDependOnOwnData(cfg, s, t, cookie, query, now);
  }
}
