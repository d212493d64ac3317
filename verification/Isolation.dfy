/** What other users do cannot be seen: a caller's scans, findings and reads change only through the caller. */
module Isolation {
  import opened Prelude
  import opened Records
  import opened RuleEngine
  import opened Server
  import opened Uploads
  import opened Ownership
  import opened Reads
  import opened AccessControl

  /** The request is an upload or a cloud scan, admitted as a request of this user. */
  ghost predicate ScansAs(s: State, r: Request, userId: nat) {
    match r.op
    case DoUpload(access, _, _, _) => Allowed(s, access, r.now) && CurrentUser(s, access, r.now).value.userId == userId
    case DoScanCloud(access, _) => Allowed(s, access, r.now) && CurrentUser(s, access, r.now).value.userId == userId
    case _ => false
  }

  lemma ForeignScanLeavesOwnData(cfg: Config, s: State, scan: Scan, data: seq<FindingData>, userId: nat)
    requires OwnershipInv(cfg, s) && scan.scanId == s.nextId && scan.userId != userId
    ensures AgreeOn(s, StoreFindings(cfg, WithScan(s, scan), scan.scanId, data).0, userId)
  {
    UploadConservesFindings(cfg, s, scan, data);
    assert (s.scans + [scan])[..|s.scans|] == s.scans;
    forall x | x in OwnScans(s.scans, userId)
      ensures FindingsOf(s.findings, x.scanId) ==
              FindingsOf(StoreFindings(cfg, WithScan(s, scan), scan.scanId, data).0.findings, x.scanId)
    {
      OwnScansMember(s.scans, userId, x);
      UploadLeavesOtherScans(cfg, s, scan, data, x.scanId);
    }
  }

  /** One request leaves the scans and findings of every user alone except those of the user it scans for. */
  lemma StepLeavesOthersAlone(cfg: Config, s: State, r: Request, userId: nat)
    requires OwnershipInv(cfg, s) && !ScansAs(s, r, userId)
    ensures AgreeOn(s, Step(cfg, s, r).0, userId)
  {
    match r.op
    case DoUpload(access, filename, accepted, document) =>
      if Step(cfg, s, r).0.scans != s.scans {
        var user := CurrentUser(s, access, r.now).value;
        ForeignScanLeavesOwnData(cfg, s, Scan(s.nextId, user.userId, filename, STATIC, r.now),
                                 Findings(cfg.lib, cfg.rules, Normalize(document.value)), userId);
      } else {
        OnlyNewScansBringFindings(cfg, s, r);
      }
    case DoScanCloud(access, collected) =>
      if Step(cfg, s, r).0.scans != s.scans {
        var user := CurrentUser(s, access, r.now).value;
        ForeignScanLeavesOwnData(cfg, s, Scan(s.nextId, user.userId, "Live Cloud Account", LIVE, r.now),
                                 Findings(cfg.lib, cfg.rules, Normalize(collected.value)), userId);
      } else {
        OnlyNewScansBringFindings(cfg, s, r);
      }
    case DoSignup(_, _) =>
    case _ => OtherStepsKeepRows(cfg, s, r);
  }

  lemma OnlyNewScansBringFindings(cfg: Config, s: State, r: Request)
    requires OwnershipInv(cfg, s) && Step(cfg, s, r).0.scans == s.scans
    ensures Step(cfg, s, r).0.findings == s.findings
  {
    match r.op
    case DoUpload(access, filename, accepted, document) =>
      if Allowed(s, access, r.now) && document.Some? {
        UploadConservesFindings(cfg, s, Scan(s.nextId, CurrentUser(s, access, r.now).value.userId, filename, STATIC, r.now),
                                Findings(cfg.lib, cfg.rules, Normalize(document.value)));
      }
    case DoScanCloud(access, collected) =>
      if Allowed(s, access, r.now) && collected.Some? {
        UploadConservesFindings(cfg, s, Scan(s.nextId, CurrentUser(s, access, r.now).value.userId, "Live Cloud Account", LIVE, r.now),
                                Findings(cfg.lib, cfg.rules, Normalize(collected.value)));
      }
    case _ =>
  }

  /** No request from the k-th on scans for the user. */
  ghost predicate NoScanFrom(cfg: Config, rs: seq<Request>, k: nat, userId: nat) {
    forall i :: k <= i < |rs| ==> !ScansAs(Run(cfg, rs[..i]), rs[i], userId)
  }

  /** Whatever others request, a user's scans and findings stay as they were. */
  lemma {:induction false} RunLeavesOthersAlone(cfg: Config, rs: seq<Request>, k: nat, userId: nat)
    requires k <= |rs| && NoScanFrom(cfg, rs, k, userId)
    ensures AgreeOn(Run(cfg, rs[..k]), Run(cfg, rs), userId)
  {
    if k == |rs| {
      assert rs[..k] == rs;
    } else {
      var init := rs[..|rs| - 1];
      assert init[..k] == rs[..k];
      assert forall i :: 0 <= i < |init| ==> init[..i] == rs[..i];
      RunLeavesOthersAlone(cfg, init, k, userId);
      RunKeepsOwnership(cfg, init);
      StepLeavesOthersAlone(cfg, Run(cfg, init), rs[|rs| - 1], userId);
    }
  }

  /**
   * A caller's read is answered as it was before any number of requests, of whatever kind and from whomever,
   * none of which scanned for the caller; at any time within the lifetime of the caller's token.
   */
  lemma ReadsAreUndisturbed(cfg: Config, rs: seq<Request>, k: nat, token: Token, query: Query, now: int)
    requires k <= |rs| && CurrentUser(Run(cfg, rs[..k]), Some(token), now).Some?
    requires NoScanFrom(cfg, rs, k, CurrentUser(Run(cfg, rs[..k]), Some(token), now).value.userId)
    ensures Read(cfg, Run(cfg, rs), Some(token), query, now).1 == Read(cfg, Run(cfg, rs[..k]), Some(token), query, now).1
  {
    var s, t := Run(cfg, rs[..k]), Run(cfg, rs);
    ServedForItsLifetime(cfg, rs, k, token, now);
    RunLeavesOthersAlone(cfg, rs, k, CurrentUser(s, Some(token), now).value.userId);
    RunsAnswerAlike(cfg, rs[..k], rs, s, t, Some(token), query, now);
  }
}
