/** Properties of refresh tokens over whole runs: single use, conservation, and one identity per session. */
module Sessions {
  import opened Prelude
  import opened Records
  import opened Server

  // ---- The invariant ----

  ghost predicate Matches(u: User, t: Token) {
    t.subject == Canonical(u.userId) && t.email == u.email && t.role == u.role
  }

  /** The token speaks for a stored user, with that user's email and role. */
  ghost predicate Holder(users: seq<User>, t: Token) {
    exists u :: u in users && Matches(u, t)
  }

  ghost predicate TokensOk(s: State) {
    forall j :: j in s.issued ==>
      j < s.nextId && s.issued[j].session < s.nextId && s.issued[j].token.jti == j && Holder(s.users, s.issued[j].token)
  }

  ghost predicate IsRefresh(s: State, j: nat) {
    j in s.issued && s.issued[j].token.kind == Refresh
  }

  ghost predicate UsedOk(s: State) {
    forall j :: j in s.used ==> IsRefresh(s, j)
  }

  ghost predicate SameIdentity(a: Token, b: Token) {
    a.subject == b.subject && a.email == b.email && a.role == b.role
  }

  /** Within a session one identity, and at most one refresh token that is not used. */
  ghost predicate LineageOk(s: State) {
    forall i, j :: Kin(s, i, j)
  }

  ghost predicate Kin(s: State, i: nat, j: nat) {
    i in s.issued && j in s.issued && s.issued[i].session == s.issued[j].session ==>
      && SameIdentity(s.issued[i].token, s.issued[j].token)
      && (i != j && IsRefresh(s, i) && IsRefresh(s, j) ==> i in s.used || j in s.used)
  }

  ghost predicate SessionInv(s: State) {
    TokensOk(s) && UsedOk(s) && LineageOk(s)
  }

  // ---- Each step keeps it ----

  /** Steps that sign nothing and only add users or ids. */
  lemma QuietStepKeeps(s: State, t: State)
    requires SessionInv(s)
    requires t.issued == s.issued && t.used == s.used && t.nextId >= s.nextId
    requires forall u :: u in s.users ==> u in t.users
    ensures SessionInv(t)
  {
    forall j | j in t.issued
      ensures Holder(t.users, t.issued[j].token)
    {
      assert Holder(s.users, s.issued[j].token);
    }
    assert forall j :: IsRefresh(s, j) <==> IsRefresh(t, j);
    forall i, j
      ensures Kin(t, i, j)
    {
      assert Kin(s, i, j);
    }
  }

  lemma BurnKeeps(s: State, jti: nat)
    requires SessionInv(s) && IsRefresh(s, jti)
    ensures SessionInv(s.(used := s.used + {jti}))
  {
    var t := s.(used := s.used + {jti});
    assert forall j :: IsRefresh(s, j) <==> IsRefresh(t, j);
    forall i, j
      ensures Kin(t, i, j)
    {
      assert Kin(s, i, j);
    }
  }

  /** Two tokens of one identity, a refresh and an access token, for a session without a live refresh token. */
  ghost predicate FitToSign(s: State, first: Issue, second: Issue) {
    && first.token.jti == s.nextId && second.token.jti == s.nextId + 1
    && first.session == second.session && first.session < s.nextId + 2
    && SameIdentity(first.token, second.token) && first.token.kind != second.token.kind
    && Holder(s.users, first.token) && Holder(s.users, second.token)
    && forall j :: j in s.issued && s.issued[j].session == first.session ==>
         SameIdentity(s.issued[j].token, first.token) && (IsRefresh(s, j) ==> j in s.used)
  }

  lemma SignPairTokens(s: State, first: Issue, second: Issue)
    requires SessionInv(s) && FitToSign(s, first, second)
    ensures TokensOk(SignPair(s, first, second)) && UsedOk(SignPair(s, first, second))
  {
  }

  lemma SignPairLineage(s: State, first: Issue, second: Issue, i: nat, j: nat)
    requires SessionInv(s) && FitToSign(s, first, second)
    ensures Kin(SignPair(s, first, second), i, j)
  {
    var t := SignPair(s, first, second);
    assert Kin(s, i, j);
    assert i < s.nextId ==> (i in t.issued <==> i in s.issued) && (IsRefresh(t, i) <==> IsRefresh(s, i));
    assert j < s.nextId ==> (j in t.issued <==> j in s.issued) && (IsRefresh(t, j) <==> IsRefresh(s, j));
  }

  lemma SignPairKeeps(s: State, first: Issue, second: Issue)
    requires SessionInv(s) && FitToSign(s, first, second)
    ensures SessionInv(SignPair(s, first, second))
  {
    SignPairTokens(s, first, second);
    forall i, j
      ensures Kin(SignPair(s, first, second), i, j)
    {
      SignPairLineage(s, first, second, i, j);
    }
  }

  lemma OpenSessionKeeps(cfg: Config, s: State, user: User, now: int)
    requires SessionInv(s) && user in s.users
    ensures SessionInv(OpenSession(cfg, s, user, now).0)
  {
    var subject := Canonical(user.userId);
    var access := NewToken(subject, user.email, user.role, Access, now, cfg.accessLifetime, s.nextId);
    var refresh := NewToken(subject, user.email, user.role, Refresh, now, cfg.refreshLifetime, s.nextId + 1);
    assert Holder(s.users, access) && Holder(s.users, refresh) by {
      assert Matches(user, access) && Matches(user, refresh);
    }
    assert FitToSign(s, Issue(access, refresh.jti), Issue(refresh, refresh.jti));
    SignPairKeeps(s, Issue(access, refresh.jti), Issue(refresh, refresh.jti));
  }

  /** In the session of an unused refresh token all other refresh tokens are used. */
  lemma SessionOtherwiseSpent(s: State, token: Token, j: nat)
    requires SessionInv(s) && token.jti in s.issued && s.issued[token.jti].token == token
    requires token.kind == Refresh && token.jti !in s.used
    requires j in s.issued && s.issued[j].session == s.issued[token.jti].session
    ensures SameIdentity(s.issued[j].token, token)
    ensures IsRefresh(s, j) ==> j == token.jti || j in s.used
  {
    assert IsRefresh(s, token.jti) && Kin(s, j, token.jti);
  }

  lemma ReplacementsFit(cfg: Config, s: State, token: Token, now: int)
    requires SessionInv(s) && Accepts(s, token, Refresh, now)
    ensures var (refresh, access) := Replacements(cfg, s, token, now);
            && Holder(s.users, refresh.token) && Holder(s.users, access.token)
            && SameIdentity(refresh.token, token) && SameIdentity(access.token, token)
            && token.subject.Canonical?
  {
  }

  lemma RotateKeeps(cfg: Config, s: State, token: Token, now: int)
    requires SessionInv(s) && Accepts(s, token, Refresh, now) && token.jti !in s.used
    ensures SessionInv(RefreshSession(cfg, s, Some(token), now).0)
  {
    var burned := s.(used := s.used + {token.jti});
    BurnKeeps(s, token.jti);
    var (refresh, access) := Replacements(cfg, s, token, now);
    ReplacementsFit(cfg, s, token, now);
    forall j | j in burned.issued && burned.issued[j].session == refresh.session
      ensures SameIdentity(burned.issued[j].token, refresh.token)
      ensures IsRefresh(burned, j) ==> j in burned.used
    {
      SessionOtherwiseSpent(s, token, j);
    }
    SignPairKeeps(burned, refresh, access);
  }

  lemma RefreshKeeps(cfg: Config, s: State, cookie: Option<Token>, now: int)
    requires SessionInv(s)
    ensures SessionInv(RefreshSession(cfg, s, cookie, now).0)
  {
    if cookie.Some? && Accepts(s, cookie.value, Refresh, now) && cookie.value.jti !in s.used {
      RotateKeeps(cfg, s, cookie.value, now);
    }
  }

  lemma SignupKeeps(cfg: Config, s: State, email: string, passwordHash: string, now: int)
    requires SessionInv(s)
    ensures SessionInv(Signup(cfg, s, email, passwordHash, now).0)
  {
    if UserByEmail(s.users, email).None? {
      var role := if cfg.adminEmail != "" && cfg.lower(email) == cfg.adminEmail then ADMIN else VIEWER;
      var user := User(s.nextId, email, passwordHash, role);
      var stored := Log(s.(users := s.users + [user], nextId := s.nextId + 1), user.userId, "signup_success");
      QuietStepKeeps(s, stored);
      OpenSessionKeeps(cfg, stored, user, now);
    }
  }

  lemma StepKeepsSessions(cfg: Config, s: State, r: Request)
    requires SessionInv(s)
    ensures SessionInv(Step(cfg, s, r).0)
  {
    match r.op
    case DoSignup(email, passwordHash) => SignupKeeps(cfg, s, email, passwordHash, r.now);
    case DoLogin(email, password) =>
      match UserByEmail(s.users, email) {
        case None =>
        case Some(user) => OpenSessionKeeps(cfg, s, user, r.now);
      }
    case DoRefresh(cookie) => RefreshKeeps(cfg, s, cookie, r.now);
    case DoLogout(cookie) =>
      if cookie.Some? && Accepts(s, cookie.value, Refresh, r.now) {
        BurnKeeps(s, cookie.value.jti);
      }
    case _ =>
      ScanStepKeepsAccounts(cfg, s, r);
      QuietStepKeeps(s, Step(cfg, s, r).0);
  }

  lemma {:induction false} RunKeepsSessions(cfg: Config, rs: seq<Request>)
    ensures SessionInv(Run(cfg, rs))
  {
    if rs != [] {
      RunKeepsSessions(cfg, rs[..|rs| - 1]);
      StepKeepsSessions(cfg, Run(cfg, rs[..|rs| - 1]), rs[|rs| - 1]);
    }
  }

  /** What the invariant says of two tokens of one session. */
  lemma TokensOfSession(s: State, i: nat, j: nat)
    requires SessionInv(s) && i in s.issued && j in s.issued && s.issued[i].session == s.issued[j].session
    ensures SameIdentity(s.issued[i].token, s.issued[j].token)
    ensures Holder(s.users, s.issued[i].token)
    ensures IsRefresh(s, i) && IsRefresh(s, j) && i !in s.used && j !in s.used ==> i == j
  {
    assert Kin(s, i, j);
  }

  /**
   * Over every run, all tokens of a session, access and refresh, speak for one stored user, and at most one
   * of its refresh tokens is unused.
   */
  lemma OneLiveTokenPerSession(cfg: Config, rs: seq<Request>, s: State, i: nat, j: nat)
    requires s == Run(cfg, rs)
    requires i in s.issued && j in s.issued && s.issued[i].session == s.issued[j].session
    ensures SameIdentity(s.issued[i].token, s.issued[j].token)
    ensures Holder(s.users, s.issued[i].token)
    ensures IsRefresh(s, i) && IsRefresh(s, j) && i !in s.used && j !in s.used ==> i == j
  {
    RunKeepsSessions(cfg, rs);
    TokensOfSession(s, i, j);
  }

  // ---- Nothing signed or registered is taken back ----

  /** Signed tokens, users and used ids of `s` are all still there in `t`. */
  ghost predicate Extends(s: State, t: State) {
    && s.nextId <= t.nextId && s.used <= t.used
    && (forall u :: u in s.users ==> u in t.users)
    && (forall j :: j in s.issued ==> j in t.issued && t.issued[j] == s.issued[j])
  }

  lemma StepExtends(cfg: Config, s: State, r: Request)
    requires SessionInv(s)
    ensures Extends(s, Step(cfg, s, r).0)
  {
    if r.op.DoUpload? || r.op.DoScanCloud? || r.op.DoRead? {
      ScanStepKeepsAccounts(cfg, s, r);
    } else {
      AccountStepExtends(cfg, s, r);
    }
  }

  lemma OpenSessionExtends(cfg: Config, s: State, user: User, now: int)
    requires TokensOk(s)
    ensures Extends(s, OpenSession(cfg, s, user, now).0)
  {
  }

  lemma RefreshExtends(cfg: Config, s: State, cookie: Option<Token>, now: int)
    requires TokensOk(s)
    ensures Extends(s, RefreshSession(cfg, s, cookie, now).0)
  {
  }

  lemma AccountStepExtends(cfg: Config, s: State, r: Request)
    requires SessionInv(s) && (r.op.DoSignup? || r.op.DoLogin? || r.op.DoRefresh? || r.op.DoLogout?)
    ensures Extends(s, Step(cfg, s, r).0)
  {
    match r.op
    case DoSignup(email, passwordHash) =>
      if UserByEmail(s.users, email).None? {
        var role := if cfg.adminEmail != "" && cfg.lower(email) == cfg.adminEmail then ADMIN else VIEWER;
        var user := User(s.nextId, email, passwordHash, role);
        var stored := Log(s.(users := s.users + [user], nextId := s.nextId + 1), user.userId, "signup_success");
        QuietStepKeeps(s, stored);
        OpenSessionExtends(cfg, stored, user, r.now);
      }
    case DoLogin(email, password) =>
      match UserByEmail(s.users, email) {
        case None =>
        case Some(user) => OpenSessionExtends(cfg, s, user, r.now);
      }
    case DoRefresh(cookie) => RefreshExtends(cfg, s, cookie, r.now);
    case DoLogout(cookie) =>
  }

  lemma {:induction false} RunExtends(cfg: Config, rs: seq<Request>, k: nat)
    requires k <= |rs|
    ensures Extends(Run(cfg, rs[..k]), Run(cfg, rs))
  {
    if k == |rs| {
      assert rs[..k] == rs;
    } else {
      var init := rs[..|rs| - 1];
      RunExtends(cfg, init, k);
      assert init[..k] == rs[..k];
      RunKeepsSessions(cfg, init);
      StepExtends(cfg, Run(cfg, init), rs[|rs| - 1]);
    }
  }

  // ---- Single use ----

  /** Request `k` of the run rotates or logs out the refresh token `jti`. */
  ghost predicate Spends(cfg: Config, rs: seq<Request>, k: nat, jti: nat)
    requires k < |rs|
  {
    match rs[k].op
    case DoRefresh(Some(token)) => token.jti == jti && ReplyAt(cfg, rs, k).Refreshed?
    case DoLogout(Some(token)) => token.jti == jti && Accepts(Run(cfg, rs[..k]), token, Refresh, rs[k].now)
    case _ => false
  }

  /** A refresh token that was rotated or logged out never refreshes again, in any run. */
  lemma SpentTokensStaySpent(cfg: Config, rs: seq<Request>, i: nat, j: nat, token: Token)
    requires i < j < |rs| && Spends(cfg, rs, i, token.jti)
    requires rs[j].op == DoRefresh(Some(token))
    ensures ReplyAt(cfg, rs, j) == Unauthorized
    ensures !Spends(cfg, rs, j, token.jti)
    ensures Step(cfg, Run(cfg, rs[..j]), rs[j]).0 == Run(cfg, rs[..j])
  {
    var after := rs[..i + 1];
    assert after[..|after| - 1] == rs[..i] && after[i] == rs[i];
    SpendingUses(cfg, Run(cfg, rs[..i]), rs[i], token.jti);
    RunExtends(cfg, rs[..j], i + 1);
    assert rs[..j][..i + 1] == after;
    UsedIsRefused(cfg, Run(cfg, rs[..j]), token, rs[j].now);
  }

  lemma SpendingUses(cfg: Config, s: State, r: Request, jti: nat)
    requires match r.op
             case DoRefresh(Some(token)) => token.jti == jti && Step(cfg, s, r).1.Refreshed?
             case DoLogout(Some(token)) => token.jti == jti && Accepts(s, token, Refresh, r.now)
             case _ => false
    ensures jti in Step(cfg, s, r).0.used
  {
  }

  lemma UsedIsRefused(cfg: Config, s: State, token: Token, now: int)
    requires token.jti in s.used
    ensures RefreshSession(cfg, s, Some(token), now) == (s, Unauthorized)
  {
  }

  /** Each refresh id rotates successfully at most once in a run. */
  lemma RotatesAtMostOnce(cfg: Config, rs: seq<Request>, i: nat, j: nat, a: Token, b: Token)
    requires i < |rs| && j < |rs| && rs[i].op == DoRefresh(Some(a)) && rs[j].op == DoRefresh(Some(b))
    requires ReplyAt(cfg, rs, i).Refreshed? && ReplyAt(cfg, rs, j).Refreshed? && a.jti == b.jti
    ensures i == j
  {
    if i < j {
      SpentTokensStaySpent(cfg, rs, i, j, b);
    } else if j < i {
      SpentTokensStaySpent(cfg, rs, j, i, a);
    }
  }

  // ---- When refresh succeeds ----

  /** `reply` replaced `token` by a fresh pair of the same identity, the refresh half in the same session. */
  ghost predicate Replaced(s: State, t: State, token: Token, reply: Reply) {
    && reply.Refreshed?
    && token.jti in s.issued
    && t.used == s.used + {token.jti}
    && reply.newRefresh.jti !in s.issued && reply.newAccess.jti !in s.issued
    && reply.newRefresh.jti != reply.newAccess.jti
    && SameIdentity(reply.newRefresh, token) && SameIdentity(reply.newAccess, token)
    && t.issued == s.issued[reply.newRefresh.jti := Issue(reply.newRefresh, s.issued[token.jti].session)]
                           [reply.newAccess.jti := Issue(reply.newAccess, s.issued[token.jti].session)]
    && reply.newRefresh.kind == Refresh && reply.newAccess.kind == Access
    && reply.newRefresh.jti !in t.used
  }

  lemma RotationReplaces(cfg: Config, s: State, token: Token, now: int)
    requires SessionInv(s) && Accepts(s, token, Refresh, now) && token.jti !in s.used
    ensures Replaced(s, RefreshSession(cfg, s, Some(token), now).0, token, RefreshSession(cfg, s, Some(token), now).1)
  {
  }

  /**
   * In every reachable state a refresh succeeds exactly for an accepted, unused refresh token; it then
   * replaces that token by a fresh pair of the same identity and session. A refusal changes nothing: the
   * branch that burns a token without replacing it is never taken.
   */
  lemma RefreshOutcome(cfg: Config, rs: seq<Request>, s: State, token: Token, now: int)
    requires s == Run(cfg, rs)
    ensures var (t, reply) := RefreshSession(cfg, s, Some(token), now);
            if Accepts(s, token, Refresh, now) && token.jti !in s.used then Replaced(s, t, token, reply)
            else reply == Unauthorized && t == s
  {
    RunKeepsSessions(cfg, rs);
    if Accepts(s, token, Refresh, now) && token.jti !in s.used {
      RotationReplaces(cfg, s, token, now);
    }
  }

  /** Each replacement is accepted, as its own kind, exactly from now until its lifetime ends. */
  lemma ReplacementLifetimes(cfg: Config, s: State, token: Token, now: int, later: int)
    requires SessionInv(s) && Accepts(s, token, Refresh, now) && token.jti !in s.used
    ensures var (t, reply) := RefreshSession(cfg, s, Some(token), now);
            && reply.Refreshed?
            && (Accepts(t, reply.newRefresh, Refresh, later) <==> now <= later < now + cfg.refreshLifetime)
            && (CurrentUser(t, Some(reply.newAccess), later).Some? <==> now <= later < now + cfg.accessLifetime)
            && !Accepts(t, reply.newRefresh, Access, later) && !Accepts(t, reply.newAccess, Refresh, later)
  {
  }

  // ---- Conservation of live tokens ----

  /** Refresh ids issued and not used. */
  ghost function Live(s: State): set<nat> {
    set j | j in s.issued && s.issued[j].token.kind == Refresh && j !in s.used
  }

  /** A signup or login opened a session. */
  ghost predicate Opens(cfg: Config, s: State, r: Request) {
    Step(cfg, s, r).1.SessionGranted?
  }

  /** A logout presented a valid refresh token that was not used. */
  ghost predicate Closes(s: State, r: Request) {
    match r.op
    case DoLogout(Some(token)) => Accepts(s, token, Refresh, r.now) && token.jti !in s.used
    case _ => false
  }

  ghost function Opened(cfg: Config, rs: seq<Request>): nat {
    if rs == [] then 0
    else Opened(cfg, rs[..|rs| - 1]) + (if Opens(cfg, Run(cfg, rs[..|rs| - 1]), rs[|rs| - 1]) then 1 else 0)
  }

  ghost function Closed(cfg: Config, rs: seq<Request>): nat {
    if rs == [] then 0
    else Closed(cfg, rs[..|rs| - 1]) + (if Closes(Run(cfg, rs[..|rs| - 1]), rs[|rs| - 1]) then 1 else 0)
  }

  lemma OpenSessionAddsOne(cfg: Config, s: State, user: User, now: int)
    requires SessionInv(s)
    ensures Live(OpenSession(cfg, s, user, now).0) == Live(s) + {s.nextId + 1}
    ensures s.nextId + 1 !in Live(s)
  {
  }

  lemma RefreshSwapsOne(cfg: Config, s: State, token: Token, now: int)
    requires SessionInv(s) && Accepts(s, token, Refresh, now) && token.jti !in s.used
    ensures Live(RefreshSession(cfg, s, Some(token), now).0) == Live(s) - {token.jti} + {s.nextId}
    ensures token.jti in Live(s) && s.nextId !in Live(s)
  {
  }

  lemma SignupConserves(cfg: Config, s: State, email: string, passwordHash: string, now: int)
    requires SessionInv(s)
    ensures |Live(Signup(cfg, s, email, passwordHash, now).0)| ==
            |Live(s)| + (if Signup(cfg, s, email, passwordHash, now).1.SessionGranted? then 1 else 0)
  {
    if UserByEmail(s.users, email).None? {
      var role := if cfg.adminEmail != "" && cfg.lower(email) == cfg.adminEmail then ADMIN else VIEWER;
      var user := User(s.nextId, email, passwordHash, role);
      var stored := Log(s.(users := s.users + [user], nextId := s.nextId + 1), user.userId, "signup_success");
      QuietStepKeeps(s, stored);
      OpenSessionAddsOne(cfg, stored, user, now);
      assert Live(stored) == Live(s);
    }
  }

  lemma LoginConserves(cfg: Config, s: State, email: string, password: string, now: int)
    requires SessionInv(s)
    ensures |Live(Login(cfg, s, email, password, now).0)| ==
            |Live(s)| + (if Login(cfg, s, email, password, now).1.SessionGranted? then 1 else 0)
  {
    match UserByEmail(s.users, email) {
      case None =>
      case Some(user) => OpenSessionAddsOne(cfg, s, user, now);
    }
  }

  lemma RefreshConserves(cfg: Config, s: State, cookie: Option<Token>, now: int)
    requires SessionInv(s)
    ensures |Live(RefreshSession(cfg, s, cookie, now).0)| == |Live(s)|
  {
    if cookie.Some? && Accepts(s, cookie.value, Refresh, now) && cookie.value.jti !in s.used {
      var l := Live(s);
      RefreshSwapsOne(cfg, s, cookie.value, now);
      assert |l - {cookie.value.jti}| == |l| - 1;
    }
  }

  lemma LogoutConserves(s: State, r: Request)
    requires r.op.DoLogout?
    ensures |Live(Logout(s, r.op.cookie, r.now).0)| + (if Closes(s, r) then 1 else 0) == |Live(s)|
  {
    var cookie, t := r.op.cookie, Logout(s, r.op.cookie, r.now).0;
    if cookie.Some? && Accepts(s, cookie.value, Refresh, r.now) {
      assert Live(t) == Live(s) - {cookie.value.jti};
      assert Closes(s, r) <==> cookie.value.jti in Live(s);
    }
  }

  /** One step: a session opened adds one live token, a closing logout removes one, everything else keeps the number. */
  lemma StepConservesLive(cfg: Config, s: State, r: Request)
    requires SessionInv(s)
    ensures |Live(Step(cfg, s, r).0)| + (if Closes(s, r) then 1 else 0) == |Live(s)| + (if Opens(cfg, s, r) then 1 else 0)
  {
    match r.op
    case DoSignup(email, passwordHash) => SignupConserves(cfg, s, email, passwordHash, r.now);
    case DoLogin(email, password) => LoginConserves(cfg, s, email, password, r.now);
    case DoRefresh(cookie) => RefreshConserves(cfg, s, cookie, r.now);
    case DoLogout(cookie) => LogoutConserves(s, r);
    case _ =>
      ScanStepKeepsAccounts(cfg, s, r);
      assert Live(Step(cfg, s, r).0) == Live(s);
  }

  /** Live refresh tokens are the sessions opened minus the sessions closed, in every run. */
  lemma {:induction false} LiveTokensConserved(cfg: Config, rs: seq<Request>)
    ensures |Live(Run(cfg, rs))| == Opened(cfg, rs) - Closed(cfg, rs)
  {
    if rs == [] {
      assert Live(INITIAL) == {};
    } else {
      var init := rs[..|rs| - 1];
      LiveTokensConserved(cfg, init);
      RunKeepsSessions(cfg, init);
      StepConservesLive(cfg, Run(cfg, init), rs[|rs| - 1]);
    }
  }
}
