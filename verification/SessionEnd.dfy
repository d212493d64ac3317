/** What ends a session: the exact effect of logout on refresh tokens, over whole runs. */
module SessionEnd {
  import opened Prelude
  import opened Server
  import opened Sessions

  /** No refresh token of the session can be used any more. */
  ghost predicate Dead(s: State, session: nat) {
    forall j :: IsRefresh(s, j) && s.issued[j].session == session ==> j in s.used
  }

  /** The request is a logout with an accepted, unused refresh token of the session. */
  ghost predicate ClosesSession(s: State, r: Request, session: nat) {
    Closes(s, r) && s.issued[r.op.cookie.value.jti].session == session
  }

  /**
   * In every reachable state any logout, with or without a cookie, leaves a session dead exactly when it was
   * dead before or the logout presented its unused refresh token. An older, rotated token ends nothing.
   */
  lemma LogoutEndsSessionExactly(cfg: Config, rs: seq<Request>, r: Request, session: nat)
    requires r.op.DoLogout?
    ensures var s := Run(cfg, rs);
            Dead(Step(cfg, s, r).0, session) <==> Dead(s, session) || ClosesSession(s, r, session)
  {
    RunKeepsSessions(cfg, rs);
    LogoutEndsSession(cfg, Run(cfg, rs), r, session);
  }

  lemma LogoutEndsSession(cfg: Config, s: State, r: Request, session: nat)
    requires SessionInv(s) && r.op.DoLogout?
    ensures Dead(Step(cfg, s, r).0, session) <==> Dead(s, session) || ClosesSession(s, r, session)
  {
    var t := Step(cfg, s, r).0;
    assert forall j :: IsRefresh(t, j) <==> IsRefresh(s, j);
    if ClosesSession(s, r, session) {
      forall j | IsRefresh(t, j) && t.issued[j].session == session
        ensures j in t.used
      {
        SessionOtherwiseSpent(s, r.op.cookie.value, j);
      }
    }
  }

  // ---- A dead session stays dead ----

  lemma StepKeepsDead(cfg: Config, s: State, r: Request, session: nat)
    requires SessionInv(s) && session < s.nextId && Dead(s, session)
    ensures Dead(Step(cfg, s, r).0, session)
  {
    var t := Step(cfg, s, r).0;
    StepExtends(cfg, s, r);
    forall j | IsRefresh(t, j) && t.issued[j].session == session
      ensures j in t.used
    {
      NewTokensJoinLiveSessions(cfg, s, r, j);
      if j in s.issued {
        assert IsRefresh(s, j);
      }
    }
  }

  /** A token signed by a step belongs to a session that is new, or had an unused refresh token. */
  lemma NewTokensJoinLiveSessions(cfg: Config, s: State, r: Request, j: nat)
    requires SessionInv(s) && j in Step(cfg, s, r).0.issued
    ensures j !in s.issued ==>
              Step(cfg, s, r).0.issued[j].session >= s.nextId || !Dead(s, Step(cfg, s, r).0.issued[j].session)
  {
    if j !in s.issued {
      match r.op
      case DoSignup(email, passwordHash) =>
      case DoLogin(email, password) =>
      case DoRefresh(cookie) => assert IsRefresh(s, cookie.value.jti);
      case DoLogout(cookie) =>
      case _ => ScanStepKeepsAccounts(cfg, s, r);
    }
  }

  lemma {:induction false} RunKeepsDead(cfg: Config, rs: seq<Request>, k: nat, session: nat)
    requires k <= |rs| && session < Run(cfg, rs[..k]).nextId && Dead(Run(cfg, rs[..k]), session)
    ensures session < Run(cfg, rs).nextId && Dead(Run(cfg, rs), session)
  {
    if k == |rs| {
      assert rs[..k] == rs;
    } else {
      var init := rs[..|rs| - 1];
      assert init[..k] == rs[..k];
      RunKeepsDead(cfg, init, k, session);
      RunKeepsSessions(cfg, init);
      StepExtends(cfg, Run(cfg, init), rs[|rs| - 1]);
      StepKeepsDead(cfg, Run(cfg, init), rs[|rs| - 1], session);
    }
  }

  // ---- Nothing but a logout ends a session ----

  /** A step that is no closing logout of it leaves a live session with an unused refresh token, perhaps a new one. */
  lemma LiveSessionSurvives(cfg: Config, s: State, r: Request, session: nat)
    requires SessionInv(s) && !Dead(s, session) && !ClosesSession(s, r, session)
    ensures !Dead(Step(cfg, s, r).0, session)
  {
    var t := Step(cfg, s, r).0;
    var j :| IsRefresh(s, j) && s.issued[j].session == session && j !in s.used;
    StepExtends(cfg, s, r);
    assert IsRefresh(t, j);
    match r.op
    case DoRefresh(cookie) =>
      if j in t.used {
        RotationReplaces(cfg, s, cookie.value, r.now);
        assert IsRefresh(t, Step(cfg, s, r).1.newRefresh.jti);
      }
    case DoLogout(_) => LogoutEndsSession(cfg, s, r, session);
    case DoSignup(_, _) => assert t.used == s.used;
    case DoLogin(_, _) => assert t.used == s.used;
    case _ => ScanStepKeepsAccounts(cfg, s, r);
  }

  /** One of the requests from the k-th on closes the session. */
  ghost predicate ClosedFrom(cfg: Config, rs: seq<Request>, k: nat, session: nat) {
    exists i :: k <= i < |rs| && ClosesSession(Run(cfg, rs[..i]), rs[i], session)
  }

  lemma ClosedFromAppend(cfg: Config, rs: seq<Request>, r: Request, k: nat, session: nat)
    requires k <= |rs|
    ensures ClosedFrom(cfg, rs + [r], k, session) <==> ClosedFrom(cfg, rs, k, session) || ClosesSession(Run(cfg, rs), r, session)
  {
    assert forall i :: 0 <= i <= |rs| ==> (rs + [r])[..i] == rs[..i];
    assert rs[..|rs|] == rs && (rs + [r])[|rs|] == r;
  }

  /**
   * In any run, a session that existed before the k-th request has no usable refresh token left at the end
   * exactly when it had none before that request, or a later one was a logout that closed it.
   */
  lemma {:induction false} SessionsEndByLogoutOnly(cfg: Config, rs: seq<Request>, k: nat, session: nat)
    requires k <= |rs| && session < Run(cfg, rs[..k]).nextId
    ensures Dead(Run(cfg, rs), session) <==> Dead(Run(cfg, rs[..k]), session) || ClosedFrom(cfg, rs, k, session)
  {
    if k == |rs| {
      assert rs[..k] == rs;
    } else {
      var init, last := rs[..|rs| - 1], rs[|rs| - 1];
      assert rs == init + [last] && init[..k] == rs[..k];
      SessionsEndByLogoutOnly(cfg, init, k, session);
      ClosedFromAppend(cfg, init, last, k, session);
      RunKeepsSessions(cfg, init);
      RunExtends(cfg, init, k);
      StepEndsSessionExactly(cfg, Run(cfg, init), last, session);
    }
  }

  lemma StepEndsSessionExactly(cfg: Config, s: State, r: Request, session: nat)
    requires SessionInv(s) && session < s.nextId
    ensures Dead(Step(cfg, s, r).0, session) <==> Dead(s, session) || ClosesSession(s, r, session)
  {
    if Dead(s, session) {
      StepKeepsDead(cfg, s, r, session);
    } else if ClosesSession(s, r, session) {
      LogoutEndsSession(cfg, s, r, session);
    } else {
      LiveSessionSurvives(cfg, s, r, session);
    }
  }

  lemma DeadSessionsDoNotRefresh(cfg: Config, s: State, token: Token, now: int)
    requires token.jti in s.issued && Dead(s, s.issued[token.jti].session)
    ensures RefreshSession(cfg, s, Some(token), now) == (s, Unauthorized)
  {
  }

  /**
   * A session closed by a logout stays closed: whatever is requested in between, no token of that session,
   * the presented one or any other, is ever refreshed again.
   */
  lemma ClosedSessionsStayClosed(cfg: Config, rs: seq<Request>, i: nat, j: nat, closing: Token, token: Token)
    requires i < j < |rs| && rs[i].op == DoLogout(Some(closing)) && Closes(Run(cfg, rs[..i]), rs[i])
    requires rs[j].op == DoRefresh(Some(token)) && token.jti in Run(cfg, rs[..j]).issued
    requires Run(cfg, rs[..j]).issued[token.jti].session == Run(cfg, rs[..i]).issued[closing.jti].session
    ensures ReplyAt(cfg, rs, j) == Unauthorized
  {
    var before, after := Run(cfg, rs[..i]), rs[..i + 1];
    var session := before.issued[closing.jti].session;
    assert after[..|after| - 1] == rs[..i] && after[i] == rs[i];
    LogoutEndsSessionExactly(cfg, rs[..i], rs[i], session);
    assert Dead(Run(cfg, after), session);
    RunKeepsSessions(cfg, rs[..i]);
    assert rs[..j][..i + 1] == after;
    RunKeepsDead(cfg, rs[..j], i + 1, session);
    DeadSessionsDoNotRefresh(cfg, Run(cfg, rs[..j]), token, rs[j].now);
  }
}
