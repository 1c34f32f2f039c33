/**
 * The scan-results screen's scoring: a mock risk score derived from the
 * contract address, five security checks with fixed thresholds on it, a
 * risk level, and a summary chosen from the checks' outcome.
 */
module ScanResults {
  import opened Wrappers

  datatype CheckStatus = Pass | Fail | Warning

  datatype SecurityCheck = SecurityCheck(id: string, name: string, status: CheckStatus, description: string)

  /** The theme colours the level picks (their values live in the theme). */
  datatype ThemeColor = DangerColor | WarningColor | SuccessColor

  datatype RiskInfo = RiskInfo(level: string, color: ThemeColor, gradient: seq<string>)

  const UnknownAddress := "Unknown"
  const CriticalLevel := "CRITICAL RISK"
  const ModerateLevel := "MODERATE RISK"
  const LowLevel := "LOW RISK"

  const CriticalSummary := "\U{26A0}\U{FE0F} CRITICAL WARNING: This contract exhibits multiple red flags including honeypot behavior and unlocked liquidity. High probability of scam. Do not interact with this contract."
  const CautionSummary := "\U{26A0}\U{FE0F} CAUTION: This contract shows concerning patterns. Potential risks detected in liquidity management and ownership structure. Proceed with extreme caution or avoid entirely."
  const ModerateSummary := "\U{26A0}\U{FE0F} MODERATE RISK: Some minor concerns detected. While not immediately dangerous, exercise caution and only invest what you can afford to lose."
  const SafeSummary := "\U{2713} This contract appears relatively safe based on automated analysis. However, always do your own research before investing."

  // ---------------------------------------------------------------- the score

  /** `params.address || 'Unknown'`: a missing or empty parameter becomes "Unknown". */
  function ContractAddress(param: Option<string>): (a: string)
    ensures a != ""
    ensures param.Some? && param.value != "" ==> a == param.value
    ensures param.None? || param.value == "" ==> a == UnknownAddress
  {
    if param.Some? && param.value != "" then param.value else UnknownAddress
  }

  /**
   * The sum `charCodeAt` gives over one character's UTF-16 code units: the
   * character itself below U+10000, otherwise its two surrogates.
   */
  function CodeUnitSum(c: char): (n: nat)
    ensures c as int < 0x10000 ==> n == c as int
  {
    if c as int < 0x10000 then c as int
    else
      var v := c as int - 0x10000;
      (0xD800 + v / 0x400) + (0xDC00 + v % 0x400)
  }

  /** `address.split('').reduce((acc, char) => acc + char.charCodeAt(0), 0)`. */
  function Hash(address: string): nat
    decreases |address|
  {
    if |address| == 0 then 0 else CodeUnitSum(address[0]) + Hash(address[1..])
  }

  lemma {:induction false} HashConcat(a: string, b: string)
    ensures Hash(a + b) == Hash(a) + Hash(b)
    decreases |a|
  {
    if |a| == 0 {
      assert a + b == b;
    } else {
      assert (a + b)[1..] == a[1..] + b;
      HashConcat(a[1..], b);
    }
  }

  /** `calculateRiskScore`: 75 for no address, otherwise the hash modulo 100 raised to at least 5; never 100. */
  function RiskScore(address: string): (r: int)
    ensures 5 <= r <= 99
    ensures address == "" || address == UnknownAddress ==> r == 75
    ensures address != "" && address != UnknownAddress ==> r == if Hash(address) % 100 < 5 then 5 else Hash(address) % 100
  {
    if address == "" || address == UnknownAddress then 75
    else
      var hash := Hash(address);
      var m := if hash % 100 < 5 then 5 else hash % 100;
      if m < 100 then m else 100
  }

  /** The score only sums the characters, so swapping two halves of an address keeps it. */
  lemma SwappedHalvesSameScore(a: string, b: string)
    requires a + b != "" && a + b != UnknownAddress && b + a != UnknownAddress
    ensures RiskScore(a + b) == RiskScore(b + a)
  {
    HashConcat(a, b);
    HashConcat(b, a);
  }

  lemma MissingAddressScore()
    ensures RiskScore(ContractAddress(None)) == 75 && RiskScore(ContractAddress(Some(""))) == 75
  {
  }

  // ---------------------------------------------------------------- the checks

  /** `securityChecks`: five checks whose outcome is fixed by thresholds on the score. */
  function SecurityChecks(score: int): (r: seq<SecurityCheck>)
    ensures |r| == 5
  {
    [
      SecurityCheck("1", "Honeypot Test",
        if score > 70 then Fail else Pass,
        if score > 70 then "Cannot sell tokens" else "Tokens can be sold"),
      SecurityCheck("2", "Liquidity Lock",
        if score > 60 then Fail else if score > 40 then Warning else Pass,
        if score > 60 then "Liquidity unlocked" else if score > 40 then "Partial lock detected" else "Liquidity locked"),
      SecurityCheck("3", "Contract Audit",
        if score > 50 then Warning else Pass,
        if score > 50 then "No audit found" else "Contract verified"),
      SecurityCheck("4", "Ownership",
        if score > 80 then Fail else if score > 50 then Warning else Pass,
        if score > 80 then "Owner can mint" else if score > 50 then "Ownership not renounced" else "Ownership renounced"),
      SecurityCheck("5", "Top Holders",
        if score > 75 then Fail else Pass,
        if score > 75 then "High rugpull risk" else "Distributed holdings")
    ]
  }

  /** `checks.filter(c => c.status === status).length`. */
  function CountStatus(checks: seq<SecurityCheck>, status: CheckStatus): (n: nat)
    ensures n <= |checks|
  {
    if |checks| == 0 then 0
    else (if checks[0].status == status then 1 else 0) + CountStatus(checks[1..], status)
  }

  function B(b: bool): nat {
    if b then 1 else 0
  }

  lemma CountStatusOfFive(c0: SecurityCheck, c1: SecurityCheck, c2: SecurityCheck, c3: SecurityCheck, c4: SecurityCheck, st: CheckStatus)
    ensures CountStatus([c0, c1, c2, c3, c4], st)
            == B(c0.status == st) + B(c1.status == st) + B(c2.status == st) + B(c3.status == st) + B(c4.status == st)
  {
    assert [c0, c1, c2, c3, c4][1..] == [c1, c2, c3, c4];
    assert [c1, c2, c3, c4][1..] == [c2, c3, c4];
    assert [c2, c3, c4][1..] == [c3, c4];
    assert [c3, c4][1..] == [c4];
    assert CountStatus([c4], st) == B(c4.status == st);
    assert CountStatus([c3, c4], st) == B(c3.status == st) + B(c4.status == st);
    assert CountStatus([c2, c3, c4], st) == B(c2.status == st) + B(c3.status == st) + B(c4.status == st);
  }

  /**
   * The failures are the thresholds 60, 70, 75 and 80 the score exceeds; the
   * warnings are liquidity in (40, 60], the audit above 50 and ownership in (50, 80].
   */
  lemma CheckCounts(score: int)
    ensures CountStatus(SecurityChecks(score), Fail) == B(score > 60) + B(score > 70) + B(score > 75) + B(score > 80)
    ensures CountStatus(SecurityChecks(score), Warning) == B(40 < score <= 60) + B(score > 50) + B(50 < score <= 80)
  {
    var c := SecurityChecks(score);
    CountStatusOfFive(c[0], c[1], c[2], c[3], c[4], Fail);
    CountStatusOfFive(c[0], c[1], c[2], c[3], c[4], Warning);
    assert c == [c[0], c[1], c[2], c[3], c[4]];
  }

  /** `getRiskLevel`: CRITICAL from 70, MODERATE from 40, otherwise LOW. */
  function RiskLevel(score: int): (r: RiskInfo)
    ensures r.level == CriticalLevel <==> score >= 70
    ensures r.level == ModerateLevel <==> 40 <= score < 70
    ensures r.level == LowLevel <==> score < 40
    ensures r.level == CriticalLevel <==> r.color == DangerColor
  {
    if score >= 70 then RiskInfo(CriticalLevel, DangerColor, ["#ff3366", "#cc0033"])
    else if score >= 40 then RiskInfo(ModerateLevel, WarningColor, ["#ffaa00", "#ff8800"])
    else RiskInfo(LowLevel, SuccessColor, ["#00ff88", "#00dd66"])
  }

  /** `generateAISummary`: by failures first, then warnings. */
  function Summary(checks: seq<SecurityCheck>): string {
    var failedChecks := CountStatus(checks, Fail);
    var warningChecks := CountStatus(checks, Warning);
    if failedChecks >= 3 then CriticalSummary
    else if failedChecks >= 1 || warningChecks >= 2 then CautionSummary
    else if warningChecks >= 1 then ModerateSummary
    else SafeSummary
  }

  /** The "SCAM DETECTED" badge and the block button are both shown on this condition. */
  predicate ShowsScamWarning(score: int) {
    score >= 70
  }

  // ---------------------------------------------------------------- properties

  /** The summary as a step function of the score: safe to 40, moderate to 50, caution to 75, then critical. */
  lemma SummaryByScore(score: int)
    ensures Summary(SecurityChecks(score)) ==
      if score > 75 then CriticalSummary
      else if score > 50 then CautionSummary
      else if score > 40 then ModerateSummary
      else SafeSummary
  {
    CheckCounts(score);
  }

  /** Up to 40 every check passes and the summary is the safe one. */
  lemma LowScoreAllPass(score: int)
    requires score <= 40
    ensures forall i :: 0 <= i < 5 ==> SecurityChecks(score)[i].status == Pass
    ensures Summary(SecurityChecks(score)) == SafeSummary
  {
    SummaryByScore(score);
  }

  /** Above 75 at least three checks fail and the summary is the critical one. */
  lemma HighScoreCritical(score: int)
    requires score > 75
    ensures CountStatus(SecurityChecks(score), Fail) >= 3
    ensures Summary(SecurityChecks(score)) == CriticalSummary
  {
    SummaryByScore(score);
  }

  /** The scam badge appears exactly at the critical level. */
  lemma ScamWarningIffCritical(score: int)
    ensures ShowsScamWarning(score) <==> RiskLevel(score).level == CriticalLevel
  {
  }

  /** Between 70 and 75 the screen shows the scam badge over a summary that only urges caution. */
  lemma BadgeOverCautionSummary(score: int)
    requires 70 <= score <= 75
    ensures ShowsScamWarning(score) && Summary(SecurityChecks(score)) == CautionSummary
  {
    SummaryByScore(score);
  }

  /** A missing address is scored 75: critical level, badge shown, and still only the caution summary. */
  lemma MissingAddressOutcome()
    ensures var score := RiskScore(ContractAddress(None));
            RiskLevel(score).level == CriticalLevel && ShowsScamWarning(score)
            && Summary(SecurityChecks(score)) == CautionSummary
  {
    SummaryByScore(75);
  }
}
