/** The heuristic risk score of a finding, for any digest byte. */
module Scorer {
  import opened Records
  import opened RuleEngine

  datatype Score = Score(riskScore: int, isAnomaly: bool)

  /** The first byte of the SHA-256 digest of the finding's identity: any function to bytes. */
  type Digest = FindingData -> bv8

  const SPREAD := 8
  const ANOMALY_THRESHOLD := 85

  function BaseScore(severity: string): int {
    match ParseSeverity(severity)
    case Some(Critical) => 90
    case Some(High) => 70
    case Some(Medium) => 45
    case Some(Low) => 20
    case None => 30
  }

  function StableJitter(digest: Digest, f: FindingData): int {
    (digest(f) as int) % (2 * SPREAD + 1) - SPREAD
  }

  function RiskScore(digest: Digest, f: FindingData): int {
    var raw := BaseScore(f.severity) + StableJitter(digest, f);
    var capped := if raw < 100 then raw else 100;
    if capped > 0 then capped else 0
  }

  function ScoreOf(digest: Digest, f: FindingData): Score {
    Score(RiskScore(digest, f), RiskScore(digest, f) >= ANOMALY_THRESHOLD)
  }

  function Scores(digest: Digest, findings: seq<FindingData>): seq<Score> {
    seq(|findings|, i requires 0 <= i < |findings| => ScoreOf(digest, findings[i]))
  }

  method ScoreFindings(digest: Digest, findings: seq<FindingData>) returns (scored: seq<Score>)
    ensures scored == Scores(digest, findings)
  {
    scored := [];
    for i := 0 to |findings|
      invariant scored == Scores(digest, findings)[..i]
    {
      var base := BaseScore(findings[i].severity);
      var raw := base + StableJitter(digest, findings[i]);
      var capped := if raw < 100 then raw else 100;
      var risk := if capped > 0 then capped else 0;
      scored := scored + [Score(risk, risk >= ANOMALY_THRESHOLD)];
    }
  }

  /** The clamp to 0..100 never changes a score, and the score stays within 8 of the base of its severity. */
  lemma ScoreWithinBand(digest: Digest, f: FindingData)
    ensures RiskScore(digest, f) == BaseScore(f.severity) + StableJitter(digest, f)
    ensures BaseScore(f.severity) - SPREAD <= RiskScore(digest, f) <= BaseScore(f.severity) + SPREAD
    ensures 0 < RiskScore(digest, f) < 100
  {
  }

  /** The jitter is the digest byte counted from -8 in steps of one, and again from -8 after every 17 bytes. */
  ghost predicate JitterOf(digestByte: int, jitter: int) {
    -8 <= jitter <= 8 && exists turns: nat :: digestByte == 17 * turns + jitter + 8
  }

  /** 90, 70, 45 or 20 for the known texts and 30 for any other. */
  ghost predicate BaseOf(severity: string, base: int) {
    || (severity == "Critical" && base == 90)
    || (severity == "High" && base == 70)
    || (severity == "Medium" && base == 45)
    || (severity == "Low" && base == 20)
    || (severity != "Critical" && severity != "High" && severity != "Medium" && severity != "Low" && base == 30)
  }

  /** A score is the base of the severity text moved by the jitter, and an anomaly from 85 on. */
  ghost predicate Scored(digest: Digest, f: FindingData, score: Score) {
    Moved(f.severity, digest(f) as int, score.riskScore) && (score.isAnomaly <==> score.riskScore >= 85)
  }

  ghost predicate Moved(severity: string, digestByte: int, risk: int) {
    exists jitter :: JitterOf(digestByte, jitter) && BaseOf(severity, risk - jitter)
  }

  lemma ScoreIsScored(digest: Digest, f: FindingData)
    ensures Scored(digest, f, ScoreOf(digest, f))
  {
    var turns: nat := (digest(f) as int) / 17;
    assert digest(f) as int == 17 * turns + StableJitter(digest, f) + 8;
    SeverityTexts(f.severity, Low);
    assert JitterOf(digest(f) as int, StableJitter(digest, f)) && BaseOf(f.severity, BaseScore(f.severity));
  }

  /** Each finding has its own score, at its own place. */
  lemma ScoresAreScored(digest: Digest, findings: seq<FindingData>)
    ensures |Scores(digest, findings)| == |findings|
    ensures forall i :: 0 <= i < |findings| ==> Scored(digest, findings[i], Scores(digest, findings)[i])
  {
    forall i | 0 <= i < |findings|
      ensures Scored(digest, findings[i], Scores(digest, findings)[i])
    {
      ScoreIsScored(digest, findings[i]);
    }
  }

  /** The bands, each with both ends reached: digest byte 0 gives the lowest score and byte 16 the highest. */
  lemma Bands(digest: Digest, f: FindingData)
    ensures var risk := RiskScore(digest, f);
            if f.severity == "Critical" then 82 <= risk <= 98 && (digest(f) == 0 ==> risk == 82) && (digest(f) == 16 ==> risk == 98)
            else if f.severity == "High" then 62 <= risk <= 78 && (digest(f) == 0 ==> risk == 62) && (digest(f) == 16 ==> risk == 78)
            else if f.severity == "Medium" then 37 <= risk <= 53 && (digest(f) == 0 ==> risk == 37) && (digest(f) == 16 ==> risk == 53)
            else if f.severity == "Low" then 12 <= risk <= 28 && (digest(f) == 0 ==> risk == 12) && (digest(f) == 16 ==> risk == 28)
            else 22 <= risk <= 38 && (digest(f) == 0 ==> risk == 22) && (digest(f) == 16 ==> risk == 38)
  {
    SeverityTexts(f.severity, Low);
  }

  /** Among known severities the bands never overlap: a higher severity always scores strictly higher. */
  lemma BandsAreDisjoint(digest: Digest, f: FindingData, g: FindingData, s: Severity, t: Severity)
    requires f.severity == SeverityText(s) && g.severity == SeverityText(t)
    ensures s != t && NoWorse(s, t) ==> RiskScore(digest, f) < RiskScore(digest, g)
  {
    SeverityTexts(f.severity, s);
    SeverityTexts(g.severity, t);
  }

  /** However the findings are arranged, descending risk is descending severity. */
  lemma SortingByRiskSortsBySeverity(digest: Digest, findings: seq<FindingData>, i: nat, j: nat, s: Severity, t: Severity)
    requires forall i, j :: 0 <= i < j < |findings| ==> RiskScore(digest, findings[i]) >= RiskScore(digest, findings[j])
    requires i < j < |findings| && findings[i].severity == SeverityText(s) && findings[j].severity == SeverityText(t)
    ensures NoWorse(t, s)
  {
    BandsAreDisjoint(digest, findings[i], findings[j], s, t);
  }

  /** Anomalies are exactly the Critical findings whose jitter is at least -5; no other severity, known or not, gets there. */
  lemma AnomalyIsCritical(digest: Digest, f: FindingData, jitter: int)
    requires JitterOf(digest(f) as int, jitter)
    ensures ScoreOf(digest, f).isAnomaly <==> f.severity == "Critical" && jitter >= -5
  {
    SeverityTexts(f.severity, Critical);
    JitterIsUnique(digest(f) as int, jitter, StableJitter(digest, f));
  }

  lemma JitterIsUnique(digestByte: nat, j: int, k: int)
    requires JitterOf(digestByte, j) && k == digestByte % 17 - 8
    ensures j == k
  {
  }
}
