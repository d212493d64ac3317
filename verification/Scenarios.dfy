/** Runs that show where the code falls short of what is said of it. */
module Scenarios {
  import opened Prelude
  import opened Json
  import opened Records
  import opened Resources
  import opened RuleEngine
  import opened Edges
  import opened Server
  import opened Sessions
  import opened SessionEnd
  import opened Ownership
  import opened Uploads
  import opened AccessControl
  import opened Justification
  import DepthLimit

  // ---- Logout ----

  /** The first request of a run: somebody signs up. */
  ghost function Joined(cfg: Config, email: string, passwordHash: string, now: int): (State, Reply) {
    Signup(cfg, INITIAL, email, passwordHash, now)
  }

  lemma RunOf(cfg: Config, rs: seq<Request>, r: Request)
    ensures Run(cfg, rs + [r]) == Step(cfg, Run(cfg, rs), r).0
  {
    assert (rs + [r])[..|rs|] == rs;
  }

  lemma JoinedGrants(cfg: Config, email: string, passwordHash: string, now: int)
    ensures var (s, reply) := Joined(cfg, email, passwordHash, now);
            var user := User(0, email, passwordHash, if IsAdminEmail(cfg, email) then ADMIN else VIEWER);
            && s == Run(cfg, [Request(DoSignup(email, passwordHash), now)])
            && Registers(cfg, INITIAL, s, user) && Grants(cfg, s, reply, user, now)
  {
    var signup := Request(DoSignup(email, passwordHash), now);
    RunKeepsOwnership(cfg, []);
    RunKeepsSessions(cfg, []);
    NewUserIsGranted(cfg, INITIAL, email, passwordHash, now);
    RunOf(cfg, [], signup);
    assert [] + [signup] == [signup];
  }

  /**
   * Signup and logout: the session is closed and its refresh token refused for good, yet the access token is
   * served until it expires.
   */
  lemma AccessOutlivesLogout(cfg: Config, email: string, passwordHash: string, now: int, out: int, later: int)
    requires now <= out < now + cfg.refreshLifetime
    ensures var reply := Joined(cfg, email, passwordHash, now).1;
            && reply.SessionGranted?
            && var t := Run(cfg, [Request(DoSignup(email, passwordHash), now), Request(DoLogout(Some(reply.refresh)), out)]);
            && Dead(t, reply.refresh.jti)
            && RefreshSession(cfg, t, Some(reply.refresh), later) == (t, Unauthorized)
            && (CurrentUser(t, Some(reply.access), later).Some? <==> now <= later < now + cfg.accessLifetime)
  {
    JoinedGrants(cfg, email, passwordHash, now);
    var (s, reply) := Joined(cfg, email, passwordHash, now);
    var signup, logout := Request(DoSignup(email, passwordHash), now), Request(DoLogout(Some(reply.refresh)), out);
    RunOf(cfg, [signup], logout);
    assert [signup] + [logout] == [signup, logout];
    LogoutEndsSessionExactly(cfg, [signup], logout, reply.refresh.jti);
    LogoutEndsRefreshOnly(cfg, s, reply.refresh, out, later, Some(reply.access));
  }

  /**
   * Signup, refresh, then a logout that presents the token already rotated: it is accepted, and the session
   * still refreshes with the newer token.
   */
  lemma OlderTokenEndsNothing(cfg: Config, email: string, passwordHash: string, now: int)
    requires cfg.refreshLifetime > 0
    ensures var (s, reply) := Joined(cfg, email, passwordHash, now);
            && reply.SessionGranted?
            && var (t, renewed) := RefreshSession(cfg, s, Some(reply.refresh), now);
            && renewed.Refreshed?
            && var rs := [Request(DoSignup(email, passwordHash), now), Request(DoRefresh(Some(reply.refresh)), now),
                          Request(DoLogout(Some(reply.refresh)), now)];
            && Run(cfg, rs[..2]) == t && Accepts(t, reply.refresh, Refresh, now)
            && RefreshSession(cfg, Run(cfg, rs), Some(renewed.newRefresh), now).1.Refreshed?
            && t.issued[renewed.newRefresh.jti].session == t.issued[reply.refresh.jti].session
  {
    JoinedGrants(cfg, email, passwordHash, now);
    var (s, reply) := Joined(cfg, email, passwordHash, now);
    var signup := Request(DoSignup(email, passwordHash), now);
    var refresh, logout := Request(DoRefresh(Some(reply.refresh)), now), Request(DoLogout(Some(reply.refresh)), now);
    RunKeepsSessions(cfg, [signup]);
    var (t, renewed) := RefreshSession(cfg, s, Some(reply.refresh), now);
    RotationReplaces(cfg, s, reply.refresh, now);
    ReplacementLifetimes(cfg, s, reply.refresh, now, now);
    RunOf(cfg, [signup], refresh);
    assert [signup] + [refresh] == [signup, refresh];
    RunOf(cfg, [signup, refresh], logout);
    assert [signup, refresh] + [logout] == [signup, refresh, logout];
    assert [signup, refresh, logout][..2] == [signup, refresh];
    assert Logout(t, Some(reply.refresh), now).0 == t;
  }

  // ---- Uploads ----

  /** Some finding of the document cannot be stored. */
  ghost predicate HasUnstorable(cfg: Config, document: Json) {
    exists d :: d in Findings(cfg.lib, cfg.rules, Normalize(document)) && !Storable(cfg, d)
  }

  lemma UnstorableUploadFails(cfg: Config, s: State, cookie: Option<Token>, filename: string, document: Json, now: int)
    requires Allowed(s, cookie, now) && DepthLimit.ValidateDepth(document, 1) && HasUnstorable(cfg, document)
    requires forall f :: f in s.findings ==> f.scanId < s.nextId
    ensures var (t, reply) := Upload(cfg, s, cookie, filename, true, Some(document), now);
            reply == ServerError && |t.scans| == |s.scans| + 1 && t.findings == s.findings
  {
    var data := Findings(cfg.lib, cfg.rules, Normalize(document));
    UploadConservesFindings(cfg, s, Scan(s.nextId, CurrentUser(s, cookie, now).value.userId, filename, STATIC, now), data);
    var k :| 0 <= k < |data| && !Storable(cfg, data[k]);
    assert Unstorable(cfg, data, |data|);
  }

  /**
   * An ADMIN uploads an accepted document with a finding that cannot be stored: the request fails, and the
   * scan is there without findings.
   */
  lemma FailedUploadLeavesEmptyScan(cfg: Config, email: string, passwordHash: string, filename: string, document: Json, now: int)
    requires IsAdminEmail(cfg, email) && cfg.accessLifetime > 0 && DepthLimit.ValidateDepth(document, 1)
    requires HasUnstorable(cfg, document)
    ensures var reply := Joined(cfg, email, passwordHash, now).1;
            && reply.SessionGranted?
            && var signup := Request(DoSignup(email, passwordHash), now);
            && var upload := Request(DoUpload(Some(reply.access), filename, true, Some(document)), now);
            && ReplyAt(cfg, [signup, upload], 1) == ServerError
            && |Run(cfg, [signup, upload]).scans| == 1 && Run(cfg, [signup, upload]).findings == []
  {
    JoinedGrants(cfg, email, passwordHash, now);
    var (s, reply) := Joined(cfg, email, passwordHash, now);
    var user := User(0, email, passwordHash, ADMIN);
    var signup := Request(DoSignup(email, passwordHash), now);
    var upload := Request(DoUpload(Some(reply.access), filename, true, Some(document)), now);
    RunOf(cfg, [signup], upload);
    assert [signup] + [upload] == [signup, upload] && [signup, upload][..1] == [signup];
    assert CurrentUser(s, Some(reply.access), now) == Some(user);
    UnstorableUploadFails(cfg, s, Some(reply.access), filename, document, now);
  }

  /** One security group open to the world. */
  const OPEN_GROUP_FIELDS := map[
    "resource_id" := Str("sg-1"), "resource_type" := Str(GROUP), "ingress" := Obj(map["cidr" := Str(ANYWHERE)])]

  /** The open-group rule, and no compliance row for it. */
  const UNMAPPED := Config(
    "admin@example.com", 900, 604800, text => text, (password, passwordHash) => password == passwordHash,
    Library((part, value) => false, (pattern, value) => false, value => None),
    [OPEN_GROUP_RULE], data => 0, [], map[], (value: Json) => if value.Str? then Some(value.text) else None)

  lemma OpenGroupFires()
    ensures Fires(UNMAPPED.lib, Obj(OPEN_GROUP_FIELDS), OPEN_GROUP_RULE)
  {
    var group := Resource("sg-1", GROUP, [], None, [], [], [], Some(Obj(map["cidr" := Str(ANYWHERE)])));
    assert Describes(OPEN_GROUP_FIELDS, group);
    OpenGroupRuleFires(UNMAPPED.lib, OPEN_GROUP_FIELDS, group);
  }

  lemma OpenGroupIsFound()
    ensures HasUnstorable(UNMAPPED, Obj(OPEN_GROUP_FIELDS))
  {
    var document := Obj(OPEN_GROUP_FIELDS);
    var data := FindingFor(document, OPEN_GROUP_RULE);
    OpenGroupFires();
    FindingsMember(UNMAPPED.lib, UNMAPPED.rules, Normalize(document), data);
    assert !Storable(UNMAPPED, data);
  }

  /** Such an upload exists. */
  lemma UnmappedRuleLosesFindings(passwordHash: string, filename: string, now: int)
    ensures var reply := Joined(UNMAPPED, UNMAPPED.adminEmail, passwordHash, now).1;
            && reply.SessionGranted?
            && var signup := Request(DoSignup(UNMAPPED.adminEmail, passwordHash), now);
            && var upload := Request(DoUpload(Some(reply.access), filename, true, Some(Obj(OPEN_GROUP_FIELDS))), now);
            && ReplyAt(UNMAPPED, [signup, upload], 1) == ServerError
            && |Run(UNMAPPED, [signup, upload]).scans| == 1 && Run(UNMAPPED, [signup, upload]).findings == []
  {
    OpenGroupIsFound();
    FailedUploadLeavesEmptyScan(UNMAPPED, UNMAPPED.adminEmail, passwordHash, filename, Obj(OPEN_GROUP_FIELDS), now);
  }
}
