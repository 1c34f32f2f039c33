/**
 * The promo-code ledger: a fixed catalog of nine codes, each granting bonus
 * scans, a Pro trial of some days or lifetime Pro, redeemable once per device.
 * Its state is five keys of the device's key-value store.
 */
module PromoCode {
  import opened Wrappers
  import opened Strings

  datatype PromoCodeType = BonusScans | ProTrial | LifetimePro

  /** `value` is a number of scans for BonusScans, of days for ProTrial, and 0 for LifetimePro. */
  datatype PromoCodeData = PromoCodeData(code: string, kind: PromoCodeType, value: int, description: string)

  const PromoCodes: seq<PromoCodeData> := [
    PromoCodeData("FREE_START", BonusScans, 10, "Grants 10 additional one-time scans"),
    PromoCodeData("COMMUNITY_PRO", ProTrial, 7, "Unlocks Pro features for 7 days"),
    PromoCodeData("LEGACY_USER", LifetimePro, 0, "Unlocks lifetime Pro status"),
    PromoCodeData("FASTSHOT2025", LifetimePro, 0, "Unlocks lifetime Pro status"),
    PromoCodeData("CRYPTO_PRO", LifetimePro, 0, "Unlocks lifetime Pro status"),
    PromoCodeData("FAMILY_FOREVER", LifetimePro, 0, "Unlocks lifetime Pro status"),
    PromoCodeData("FRIEND_VIP", ProTrial, 14, "Unlocks Pro features for 14 days"),
    PromoCodeData("BETA_TESTER", BonusScans, 20, "Grants 20 additional one-time scans"),
    PromoCodeData("EARLY_BIRD", LifetimePro, 0, "Unlocks lifetime Pro status")
  ]

  const PromoCodeKey := "@cryptoshield_promo_unlocked"
  const PromoCodeUsedKey := "@cryptoshield_promo_code"
  const PromoTrialExpiryKey := "@cryptoshield_promo_trial_expiry"
  const BonusScansKey := "@cryptoshield_bonus_scans"
  const UsedCodesKey := "@cryptoshield_used_codes"
  /** 24 * 60 * 60 * 1000 milliseconds. */
  const MsPerDay := 86_400_000

  const LedgerKeys: set<string> := {PromoCodeKey, PromoCodeUsedKey, PromoTrialExpiryKey, BonusScansKey, UsedCodesKey}

  const InvalidMessage := "Invalid promo code"
  const AlreadyUsedMessage := "This promo code has already been used"
  const ActivatedMessage := "Promo code activated successfully!"

  /** A stored value in its parsed form: a text, a number, or the JSON list of used codes. */
  datatype Value = Text(text: string) | Number(n: int) | Codes(list: seq<string>)

  type Store = map<string, Value>

  datatype ApplyPromoResult = ApplyPromoResult(success: bool, message: string, promoData: Option<PromoCodeData>)

  datatype PromoStatus = PromoStatus(
    hasLifetimePro: bool, hasActiveTrial: bool, trialExpiryDate: Option<int>, bonusScans: int, usedCodes: seq<string>)

  // ---------------------------------------------------------------- the catalog

  /** `code.trim().toUpperCase()`. */
  function Normalize(code: string): string {
    ToUpper(Trim(code))
  }

  /** `PROMO_CODES.find(p => p.code === code)`. */
  function FindPromo(codes: seq<PromoCodeData>, code: string): (r: Option<PromoCodeData>)
    ensures r.Some? ==> r.value.code == code
  {
    if |codes| == 0 then None
    else if codes[0].code == code then Some(codes[0])
    else FindPromo(codes[1..], code)
  }

  /** The search finds nothing exactly when no entry has the code, and otherwise the first entry that has it. */
  lemma {:induction false} FindPromoSpec(codes: seq<PromoCodeData>, code: string)
    ensures FindPromo(codes, code).None? <==> forall k :: 0 <= k < |codes| ==> codes[k].code != code
    ensures FindPromo(codes, code).Some? ==>
              exists k :: 0 <= k < |codes| && codes[k] == FindPromo(codes, code).value
                          && forall j :: 0 <= j < k ==> codes[j].code != code
  {
    if |codes| > 0 && codes[0].code != code {
      FindPromoSpec(codes[1..], code);
      assert forall k :: 1 <= k < |codes| ==> codes[k] == codes[1..][k - 1];
      if FindPromo(codes, code).Some? {
        var k :| 0 <= k < |codes[1..]| && codes[1..][k] == FindPromo(codes, code).value
                 && forall j :: 0 <= j < k ==> codes[1..][j].code != code;
        assert codes[k + 1] == FindPromo(codes, code).value;
      }
    }
  }

  predicate IsCatalogCode(code: string) {
    exists k :: 0 <= k < |PromoCodes| && PromoCodes[k].code == code
  }

  lemma UpperIdempotent(s: string)
    ensures ToUpper(ToUpper(s)) == ToUpper(s)
  {
    assert forall i :: 0 <= i < |s| ==> UpperChar(UpperChar(s[i])) == UpperChar(s[i]);
  }

  lemma UpperKeepsText(s: string)
    requires forall i :: 0 <= i < |s| ==> !('a' <= s[i] <= 'z')
    ensures ToUpper(s) == s
  {
  }

  /** Upper-casing neither creates nor removes whitespace, so a trimmed text stays trimmed. */
  lemma TrimOfUpper(t: string)
    requires t == [] || (!IsWhitespace(t[0]) && !IsWhitespace(t[|t| - 1]))
    ensures Trim(ToUpper(t)) == ToUpper(t)
  {
    var u := ToUpper(t);
    if |u| > 0 {
      assert u[0] == UpperChar(t[0]) && u[|u| - 1] == UpperChar(t[|t| - 1]);
      assert !IsWhitespace(u[0]) && !IsWhitespace(u[|u| - 1]);
      assert TrimStart(u) == u;
    }
  }

  /** Normalising twice is normalising once: the recorded form is a fixed point. */
  lemma NormalizeIdempotent(code: string)
    ensures Normalize(Normalize(code)) == Normalize(code)
  {
    TrimOfUpper(Trim(code));
    UpperIdempotent(Trim(code));
  }

  /** The characters a catalog code is written with. */
  predicate CodeChar(c: char) {
    ('A' <= c <= 'Z') || ('0' <= c <= '9') || c == '_'
  }

  /** A nonempty text of capitals, digits and underscores is its own normal form. */
  lemma CodeTextNormalized(c: string)
    requires |c| > 0 && forall i :: 0 <= i < |c| ==> CodeChar(c[i])
    ensures Normalize(c) == c
  {
    assert !IsWhitespace(c[0]) && !IsWhitespace(c[|c| - 1]);
    assert TrimStart(c) == c;
    assert TrimEnd(c) == c;
    UpperKeepsText(c);
  }

  /** A catalog code is its own normal form: nothing to trim, nothing in lower case. */
  lemma CatalogCodeNormalized(k: nat)
    requires k < |PromoCodes|
    ensures Normalize(PromoCodes[k].code) == PromoCodes[k].code
  {
    if k < 5 { CatalogCodeNormalizedLow(k); } else { CatalogCodeNormalizedHigh(k); }
  }

  /** Every character of the first five codes is a capital, a digit or an underscore. */
  lemma CatalogCodeNormalizedLow(k: nat)
    requires k < 5
    ensures Normalize(PromoCodes[k].code) == PromoCodes[k].code
  {
    var c := PromoCodes[k].code;
    if k == 0 { assert c == "FREE_START"; }
    else if k == 1 { assert c == "COMMUNITY_PRO"; }
    else if k == 2 { assert c == "LEGACY_USER"; }
    else if k == 3 { assert c == "FASTSHOT2025"; }
    else { assert c == "CRYPTO_PRO"; }
    assert forall i :: 0 <= i < |c| ==> CodeChar(c[i]);
    CodeTextNormalized(c);
  }

  /** Every character of the last four codes is a capital or an underscore. */
  lemma CatalogCodeNormalizedHigh(k: nat)
    requires 5 <= k < |PromoCodes|
    ensures Normalize(PromoCodes[k].code) == PromoCodes[k].code
  {
    var c := PromoCodes[k].code;
    if k == 5 { assert c == "FAMILY_FOREVER"; }
    else if k == 6 { assert c == "FRIEND_VIP"; }
    else if k == 7 { assert c == "BETA_TESTER"; }
    else { assert c == "EARLY_BIRD"; }
    assert forall i :: 0 <= i < |c| ==> CodeChar(c[i]);
    CodeTextNormalized(c);
  }

  /** Bonus and trial codes grant a positive amount; lifetime codes carry 0. */
  lemma CatalogValues(k: nat)
    requires k < |PromoCodes|
    ensures PromoCodes[k].kind == LifetimePro ==> PromoCodes[k].value == 0
    ensures PromoCodes[k].kind != LifetimePro ==> PromoCodes[k].value > 0
  {
  }

  /** The nine catalog codes are pairwise distinct, so each has exactly one entry. */
  lemma CatalogCodesDistinct()
    ensures forall i, j :: 0 <= i < j < |PromoCodes| ==> PromoCodes[i].code != PromoCodes[j].code
  {
  }

  // ---------------------------------------------------------------- reading the store

  /** `getBonusScans`: the stored number, 0 when missing. */
  function Bonus(store: Store): int {
    if BonusScansKey in store && store[BonusScansKey].Number? then store[BonusScansKey].n else 0
  }

  function TrialExpiry(store: Store): Option<int> {
    if PromoTrialExpiryKey in store && store[PromoTrialExpiryKey].Number? then Some(store[PromoTrialExpiryKey].n) else None
  }

  /** `hasActiveProTrial`: a stored expiry strictly after `now`. */
  function TrialActive(store: Store, now: int): (b: bool)
    ensures b <==> TrialExpiry(store).Some? && now < TrialExpiry(store).value
  {
    match TrialExpiry(store)
    case None => false
    case Some(expiry) => now < expiry
  }

  /** `getProTrialExpiry`: the expiry while the trial is active, otherwise nothing. */
  function ActiveTrialExpiry(store: Store, now: int): (r: Option<int>)
    ensures r.Some? <==> TrialActive(store, now)
    ensures r.Some? ==> r.value > now
  {
    if TrialActive(store, now) then TrialExpiry(store) else None
  }

  /** `hasLifetimePro`: the unlock key holds exactly the text "true". */
  function Lifetime(store: Store): bool {
    PromoCodeKey in store && store[PromoCodeKey] == Text("true")
  }

  /** `hasPromoUnlock`: lifetime Pro or an active trial. */
  function PromoUnlocked(store: Store, now: int): (b: bool)
    ensures b <==> Lifetime(store) || (TrialExpiry(store).Some? && now < TrialExpiry(store).value)
  {
    Lifetime(store) || TrialActive(store, now)
  }

  /** `getUsedCodes`: the stored list, empty when missing. */
  function UsedCodes(store: Store): seq<string> {
    if UsedCodesKey in store && store[UsedCodesKey].Codes? then store[UsedCodesKey].list else []
  }

  /** `getUsedPromoCode`: the marker written by a lifetime code. */
  function UsedPromoCode(store: Store): Option<string> {
    if PromoCodeUsedKey in store && store[PromoCodeUsedKey].Text? then Some(store[PromoCodeUsedKey].text) else None
  }

  /**
   * What the ledger's own writes maintain: a non-negative bonus balance and a
   * used-code list of distinct catalog codes.
   */
  predicate WellFormed(store: Store) {
    && Bonus(store) >= 0
    && (forall i, j :: 0 <= i < j < |UsedCodes(store)| ==> UsedCodes(store)[i] != UsedCodes(store)[j])
    && (forall i :: 0 <= i < |UsedCodes(store)| ==> IsCatalogCode(UsedCodes(store)[i]))
  }

  // ---------------------------------------------------------------- the operations on the store

  /** The five ledger keys are pairwise distinct: they part at the first character after the common prefix, or at the seventh. */
  lemma LedgerKeysDistinct()
    ensures PromoCodeKey != PromoCodeUsedKey && PromoCodeKey != PromoTrialExpiryKey && PromoCodeUsedKey != PromoTrialExpiryKey
    ensures BonusScansKey != PromoCodeKey && BonusScansKey != PromoCodeUsedKey && BonusScansKey != PromoTrialExpiryKey
    ensures UsedCodesKey != PromoCodeKey && UsedCodesKey != PromoCodeUsedKey && UsedCodesKey != PromoTrialExpiryKey
    ensures UsedCodesKey != BonusScansKey
  {
    assert PromoCodeKey[14] == 'p' && BonusScansKey[14] == 'b' && UsedCodesKey[14] == 'u';
    assert PromoCodeUsedKey[14] == 'p' && PromoTrialExpiryKey[14] == 'p';
    assert PromoCodeKey[20] == 'u' && PromoCodeUsedKey[20] == 'c' && PromoTrialExpiryKey[20] == 't';
  }

  function AddBonus(store: Store, count: int): (s: Store)
    ensures Bonus(s) == Bonus(store) + count
    ensures s.Keys == store.Keys + {BonusScansKey}
    ensures forall k :: k in store && k != BonusScansKey ==> s[k] == store[k]
    ensures TrialExpiry(s) == TrialExpiry(store) && Lifetime(s) == Lifetime(store)
    ensures UsedCodes(s) == UsedCodes(store) && UsedPromoCode(s) == UsedPromoCode(store)
  {
    LedgerKeysDistinct();
    store[BonusScansKey := Number(Bonus(store) + count)]
  }

  /** `useBonusScan`: one less when some are left, otherwise nothing changes. */
  function UseBonus(store: Store): (s: Store)
    ensures Bonus(store) > 0 ==> Bonus(s) == Bonus(store) - 1
    ensures Bonus(store) <= 0 ==> s == store
    ensures Bonus(store) >= 0 ==> Bonus(s) >= 0
    ensures forall k :: k in store && k != BonusScansKey ==> k in s && s[k] == store[k]
    ensures TrialExpiry(s) == TrialExpiry(store) && Lifetime(s) == Lifetime(store)
    ensures UsedCodes(s) == UsedCodes(store) && UsedPromoCode(s) == UsedPromoCode(store)
  {
    LedgerKeysDistinct();
    if Bonus(store) > 0 then store[BonusScansKey := Number(Bonus(store) - 1)] else store
  }

  function ActivateTrial(store: Store, days: int, now: int): (s: Store)
    ensures TrialExpiry(s) == Some(now + days * MsPerDay)
    ensures s.Keys == store.Keys + {PromoTrialExpiryKey}
    ensures forall k :: k in store && k != PromoTrialExpiryKey ==> s[k] == store[k]
    ensures Bonus(s) == Bonus(store) && Lifetime(s) == Lifetime(store)
    ensures UsedCodes(s) == UsedCodes(store) && UsedPromoCode(s) == UsedPromoCode(store)
  {
    LedgerKeysDistinct();
    store[PromoTrialExpiryKey := Number(now + days * MsPerDay)]
  }

  function ActivateLifetime(store: Store): (s: Store)
    ensures Lifetime(s) && UsedPromoCode(s) == Some("LIFETIME_PRO")
    ensures s.Keys == store.Keys + {PromoCodeKey, PromoCodeUsedKey}
    ensures forall k :: k in store && k != PromoCodeKey && k != PromoCodeUsedKey ==> s[k] == store[k]
    ensures Bonus(s) == Bonus(store) && TrialExpiry(s) == TrialExpiry(store) && UsedCodes(s) == UsedCodes(store)
  {
    LedgerKeysDistinct();
    store[PromoCodeKey := Text("true")][PromoCodeUsedKey := Text("LIFETIME_PRO")]
  }

  function MarkUsed(store: Store, code: string): (s: Store)
    ensures UsedCodes(s) == UsedCodes(store) + [code]
    ensures s.Keys == store.Keys + {UsedCodesKey}
    ensures forall k :: k in store && k != UsedCodesKey ==> s[k] == store[k]
    ensures Bonus(s) == Bonus(store) && TrialExpiry(s) == TrialExpiry(store)
    ensures Lifetime(s) == Lifetime(store) && UsedPromoCode(s) == UsedPromoCode(store)
  {
    LedgerKeysDistinct();
    store[UsedCodesKey := Codes(UsedCodes(store) + [code])]
  }

  function ApplyEffect(store: Store, promo: PromoCodeData, now: int): (s: Store)
    ensures UsedCodes(s) == UsedCodes(store)
    ensures Bonus(s) == Bonus(store) + (if promo.kind == BonusScans then promo.value else 0)
  {
    match promo.kind
    case BonusScans => AddBonus(store, promo.value)
    case ProTrial => ActivateTrial(store, promo.value, now)
    case LifetimePro => ActivateLifetime(store)
  }

  /**
   * `applyPromoCode` at time `now`: the result and the store afterwards. It
   * succeeds exactly when the normalised code is in the catalog and not yet in
   * the used list; a rejection changes nothing; a success records the
   * normalised code at the end of the used list.
   */
  function Apply(store: Store, code: string, now: int): (r: (ApplyPromoResult, Store))
    ensures r.0.success <==> FindPromo(PromoCodes, Normalize(code)).Some? && Normalize(code) !in UsedCodes(store)
    ensures FindPromo(PromoCodes, Normalize(code)).None? ==> r == (ApplyPromoResult(false, InvalidMessage, None), store)
    ensures FindPromo(PromoCodes, Normalize(code)).Some? && Normalize(code) in UsedCodes(store)
            ==> r == (ApplyPromoResult(false, AlreadyUsedMessage, None), store)
    ensures r.0.success ==> UsedCodes(r.1) == UsedCodes(store) + [Normalize(code)]
    ensures r.0.success ==> r.0.promoData == FindPromo(PromoCodes, Normalize(code)) && r.0.message == ActivatedMessage
  {
    var trimmedCode := Normalize(code);
    match FindPromo(PromoCodes, trimmedCode)
    case None => (ApplyPromoResult(false, InvalidMessage, None), store)
    case Some(promo) =>
      if trimmedCode in UsedCodes(store) then (ApplyPromoResult(false, AlreadyUsedMessage, None), store)
      else (ApplyPromoResult(true, ActivatedMessage, Some(promo)), MarkUsed(ApplyEffect(store, promo, now), trimmedCode))
  }

  /** `clearPromoUnlock`: all five ledger keys removed, nothing else touched. */
  function Clear(store: Store): (s: Store)
    ensures s.Keys == store.Keys - LedgerKeys
    ensures forall k :: k in s ==> s[k] == store[k]
  {
    store - LedgerKeys
  }

  // ---------------------------------------------------------------- properties

  /** In a list whose codes are pairwise distinct, searching for an entry's code finds that entry. */
  lemma {:induction false} FindDistinct(codes: seq<PromoCodeData>, k: nat)
    requires k < |codes|
    requires forall i, j :: 0 <= i < j < |codes| ==> codes[i].code != codes[j].code
    ensures FindPromo(codes, codes[k].code) == Some(codes[k])
  {
    if k > 0 {
      assert codes[0].code != codes[k].code;
      assert codes[1..][k - 1] == codes[k];
      FindDistinct(codes[1..], k - 1);
    }
  }

  /** A text whose normal form is a catalog code looks up that code's entry. */
  lemma CatalogEntryFound(k: nat, input: string)
    requires k < |PromoCodes| && Normalize(input) == PromoCodes[k].code
    ensures FindPromo(PromoCodes, Normalize(input)) == Some(PromoCodes[k])
  {
    CatalogCodesDistinct();
    FindDistinct(PromoCodes, k);
  }

  /** Every catalog code is redeemable by its own text, and by any spacing or letter case of it, until used. */
  lemma CatalogCodeRedeemable(store: Store, k: nat, input: string, now: int)
    requires k < |PromoCodes| && Normalize(input) == PromoCodes[k].code
    requires PromoCodes[k].code !in UsedCodes(store)
    ensures Apply(store, input, now).0 == ApplyPromoResult(true, ActivatedMessage, Some(PromoCodes[k]))
  {
    CatalogEntryFound(k, input);
  }

  lemma CatalogCodeRedeemableAsIs(store: Store, k: nat, now: int)
    requires k < |PromoCodes| && PromoCodes[k].code !in UsedCodes(store)
    ensures Apply(store, PromoCodes[k].code, now).0.success
  {
    CatalogCodeNormalized(k);
    CatalogCodeRedeemable(store, k, PromoCodes[k].code, now);
  }

  /**
   * Non-reuse: after a successful redemption, the same code (in any spelling
   * with the same normal form) is refused as already used, and the refusal
   * changes nothing.
   */
  lemma SecondApplyRefused(store: Store, code: string, again: string, now: int, later: int)
    requires Apply(store, code, now).0.success
    requires Normalize(again) == Normalize(code)
    ensures Apply(Apply(store, code, now).1, again, later)
            == (ApplyPromoResult(false, AlreadyUsedMessage, None), Apply(store, code, now).1)
  {
    var s1 := Apply(store, code, now).1;
    assert Normalize(code) == UsedCodes(s1)[|UsedCodes(s1)| - 1];
  }

  /** A bonus code adds exactly its value to the balance and touches only the balance and the used list. */
  lemma BonusCodeEffect(store: Store, code: string, now: int)
    requires Apply(store, code, now).0.success
    requires FindPromo(PromoCodes, Normalize(code)).value.kind == BonusScans
    ensures Bonus(Apply(store, code, now).1) == Bonus(store) + FindPromo(PromoCodes, Normalize(code)).value.value
    ensures Apply(store, code, now).1.Keys == store.Keys + {BonusScansKey, UsedCodesKey}
    ensures forall k :: k in store && k != BonusScansKey && k != UsedCodesKey ==> Apply(store, code, now).1[k] == store[k]
  {
    SuccessfulApply(store, code, now);
  }

  /** A successful redemption is the catalog entry's effect followed by the record of the normalised code. */
  lemma SuccessfulApply(store: Store, code: string, now: int)
    requires Apply(store, code, now).0.success
    ensures FindPromo(PromoCodes, Normalize(code)).Some?
    ensures Apply(store, code, now).1
            == MarkUsed(ApplyEffect(store, FindPromo(PromoCodes, Normalize(code)).value, now), Normalize(code))
  {
  }

  /** The promotion found for a code carries the catalog's amounts. */
  lemma FoundValues(c: string)
    requires FindPromo(PromoCodes, c).Some?
    ensures FindPromo(PromoCodes, c).value.kind == LifetimePro ==> FindPromo(PromoCodes, c).value.value == 0
    ensures FindPromo(PromoCodes, c).value.kind != LifetimePro ==> FindPromo(PromoCodes, c).value.value > 0
  {
    FindPromoSpec(PromoCodes, c);
    var k :| 0 <= k < |PromoCodes| && PromoCodes[k] == FindPromo(PromoCodes, c).value;
    CatalogValues(k);
  }

  /** A trial of `days > 0` days written at `now` and then the record of a code: active at once, over after the days. */
  lemma TrialThenRecord(store: Store, days: int, now: int, c: string)
    requires days > 0
    ensures TrialExpiry(MarkUsed(ActivateTrial(store, days, now), c)) == Some(now + days * MsPerDay)
    ensures TrialActive(MarkUsed(ActivateTrial(store, days, now), c), now)
    ensures !TrialActive(MarkUsed(ActivateTrial(store, days, now), c), now + days * MsPerDay)
    ensures forall k :: k in store && k != PromoTrialExpiryKey && k != UsedCodesKey ==> MarkUsed(ActivateTrial(store, days, now), c)[k] == store[k]
  {
    assert days * MsPerDay > 0;
  }

  /** A trial code writes a trial of its positive number of days and records the code. */
  lemma TrialCodeStore(store: Store, code: string, now: int)
    requires Apply(store, code, now).0.success
    requires FindPromo(PromoCodes, Normalize(code)).value.kind == ProTrial
    ensures FindPromo(PromoCodes, Normalize(code)).value.value > 0
    ensures Apply(store, code, now).1
            == MarkUsed(ActivateTrial(store, FindPromo(PromoCodes, Normalize(code)).value.value, now), Normalize(code))
  {
    SuccessfulApply(store, code, now);
    FoundValues(Normalize(code));
  }

  /**
   * A trial code sets the expiry to `now` plus its days, replacing any earlier
   * expiry rather than extending it: the trial is active at once and over when
   * that many days have passed.
   */
  lemma TrialCodeEffect(store: Store, code: string, now: int)
    requires Apply(store, code, now).0.success
    requires FindPromo(PromoCodes, Normalize(code)).value.kind == ProTrial
    ensures var days := FindPromo(PromoCodes, Normalize(code)).value.value;
            && TrialExpiry(Apply(store, code, now).1) == Some(now + days * MsPerDay)
            && TrialActive(Apply(store, code, now).1, now)
            && !TrialActive(Apply(store, code, now).1, now + days * MsPerDay)
    ensures forall k :: k in store && k != PromoTrialExpiryKey && k != UsedCodesKey ==> Apply(store, code, now).1[k] == store[k]
  {
    TrialCodeStore(store, code, now);
    TrialThenRecord(store, FindPromo(PromoCodes, Normalize(code)).value.value, now, Normalize(code));
  }

  /** A lifetime code sets the unlock flag to "true" and the marker to "LIFETIME_PRO". */
  lemma LifetimeCodeEffect(store: Store, code: string, now: int, t: int)
    requires Apply(store, code, now).0.success
    requires FindPromo(PromoCodes, Normalize(code)).value.kind == LifetimePro
    ensures Lifetime(Apply(store, code, now).1) && PromoUnlocked(Apply(store, code, now).1, t)
    ensures UsedPromoCode(Apply(store, code, now).1) == Some("LIFETIME_PRO")
    ensures forall k :: k in store && k !in {PromoCodeKey, PromoCodeUsedKey, UsedCodesKey} ==> Apply(store, code, now).1[k] == store[k]
  {
    SuccessfulApply(store, code, now);
  }

  /** Recording a catalog code not yet on the list keeps the list free of repeats and of unknown codes. */
  lemma RecordKeepsWellFormed(store: Store, c: string)
    requires WellFormed(store) && c !in UsedCodes(store) && IsCatalogCode(c)
    ensures WellFormed(MarkUsed(store, c))
  {
    var used := UsedCodes(store);
    var after := UsedCodes(MarkUsed(store, c));
    assert after == used + [c];
    forall i | 0 <= i < |after|
      ensures IsCatalogCode(after[i])
    {
      if i < |used| { assert after[i] == used[i]; }
    }
    forall i, j | 0 <= i < j < |after|
      ensures after[i] != after[j]
    {
      if j < |used| {
        assert after[i] == used[i] && after[j] == used[j];
      } else {
        assert after[i] == used[i] && after[j] == c;
      }
    }
  }

  /** A code the search finds is a catalog code. */
  lemma FoundIsCatalogCode(c: string)
    requires FindPromo(PromoCodes, c).Some?
    ensures IsCatalogCode(c)
  {
    FindPromoSpec(PromoCodes, c);
  }

  /** Every redemption keeps the ledger well formed: the balance never goes negative and no code is recorded twice. */
  lemma ApplyKeepsWellFormed(store: Store, code: string, now: int)
    requires WellFormed(store)
    ensures WellFormed(Apply(store, code, now).1)
  {
    if Apply(store, code, now).0.success {
      var c := Normalize(code);
      SuccessfulApply(store, code, now);
      var promo := FindPromo(PromoCodes, c).value;
      FoundValues(c);
      FoundIsCatalogCode(c);
      var effect := ApplyEffect(store, promo, now);
      assert Bonus(effect) >= 0 && UsedCodes(effect) == UsedCodes(store);
      RecordKeepsWellFormed(effect, c);
    }
  }

  lemma UseBonusKeepsWellFormed(store: Store)
    requires WellFormed(store)
    ensures WellFormed(UseBonus(store))
  {
    assert UsedCodes(UseBonus(store)) == UsedCodes(store);
  }

  /** A catalog entry's code, in any spelling with its normal form, applies that entry's effect and records the code. */
  lemma CatalogEntryApplied(store: Store, k: nat, input: string, now: int)
    requires k < |PromoCodes| && Normalize(input) == PromoCodes[k].code
    requires PromoCodes[k].code !in UsedCodes(store)
    ensures Apply(store, input, now).1 == MarkUsed(ApplyEffect(store, PromoCodes[k], now), PromoCodes[k].code)
  {
    CatalogEntryFound(k, input);
  }

  /**
   * Redeeming FREE_START (10 scans), in any spelling with that normal form, on
   * a ledger without bonus or used codes, and then using three scans, leaves 7.
   */
  lemma BonusScenario(store: Store, input: string, now: int)
    requires Normalize(input) == "FREE_START"
    requires Bonus(store) == 0 && UsedCodes(store) == []
    ensures Bonus(Apply(store, input, now).1) == 10
    ensures Bonus(UseBonus(UseBonus(UseBonus(Apply(store, input, now).1)))) == 7
  {
    CatalogEntryApplied(store, 0, input, now);
  }

  /**
   * COMMUNITY_PRO (a 7-day trial), in any spelling with that normal form,
   * unlocks Pro at once and no longer 8 days later, on a ledger without
   * lifetime Pro where the code is unused.
   */
  lemma TrialScenario(store: Store, input: string, now: int)
    requires Normalize(input) == "COMMUNITY_PRO"
    requires !Lifetime(store) && "COMMUNITY_PRO" !in UsedCodes(store)
    ensures PromoUnlocked(Apply(store, input, now).1, now)
    ensures !PromoUnlocked(Apply(store, input, now).1, now + 8 * MsPerDay)
  {
    CatalogEntryApplied(store, 1, input, now);
    TrialThenRecord(store, 7, now, "COMMUNITY_PRO");
  }

  /** After clearing, no unlock, no trial, no bonus and no used code remain, so every code is redeemable again. */
  lemma ClearForgetsEverything(store: Store, now: int, k: nat)
    requires k < |PromoCodes|
    ensures !Lifetime(Clear(store)) && !PromoUnlocked(Clear(store), now)
    ensures Bonus(Clear(store)) == 0 && UsedCodes(Clear(store)) == [] && UsedPromoCode(Clear(store)) == None
    ensures Apply(Clear(store), PromoCodes[k].code, now).0.success
  {
    CatalogCodeRedeemableAsIs(Clear(store), k, now);
  }

  /** The five separate `removeItem` calls of `clearPromoUnlock`, one after another, clear the ledger. */
  lemma RemovalsClear(store: Store)
    ensures store - {PromoCodeKey} - {PromoCodeUsedKey} - {PromoTrialExpiryKey} - {BonusScansKey} - {UsedCodesKey} == Clear(store)
  {
    var s := store - {PromoCodeKey} - {PromoCodeUsedKey} - {PromoTrialExpiryKey} - {BonusScansKey} - {UsedCodesKey};
    assert s.Keys == store.Keys - LedgerKeys;
  }

  // ---------------------------------------------------------------- the ledger object

  /** The ledger over the device store; every method takes the clock reading it needs. */
  class PromoLedger {
    var store: Store

    ghost predicate Valid()
      reads this
    {
      WellFormed(store)
    }

    constructor(persisted: Store)
      requires WellFormed(persisted)
      ensures Valid() && store == persisted
    {
      store := persisted;
    }

    /** `applyPromoCode`: normalise, look up, refuse reuse, apply the effect, record the code. */
    method ApplyPromoCode(code: string, now: int) returns (result: ApplyPromoResult)
      requires Valid()
      modifies this
      ensures Valid()
      ensures (result, store) == Apply(old(store), code, now)
    {
      ApplyKeepsWellFormed(store, code, now);
      var trimmedCode := Normalize(code);
      var promoData := FindPromo(PromoCodes, trimmedCode);
      if promoData.None? {
        return ApplyPromoResult(false, InvalidMessage, None);
      }
      var usedCodes := GetUsedCodes();
      if trimmedCode in usedCodes {
        return ApplyPromoResult(false, AlreadyUsedMessage, None);
      }
      var promo := promoData.value;
      match promo.kind {
        case BonusScans => AddBonusScans(promo.value);
        case ProTrial => ActivateProTrial(promo.value, now);
        case LifetimePro => ActivateLifetimePro();
      }
      MarkCodeAsUsed(trimmedCode);
      result := ApplyPromoResult(true, ActivatedMessage, promoData);
    }

    method AddBonusScans(count: int)
      modifies this
      ensures store == AddBonus(old(store), count)
    {
      var currentBonus := GetBonusScans();
      store := store[BonusScansKey := Number(currentBonus + count)];
    }

    method GetBonusScans() returns (n: int)
      ensures n == Bonus(store)
    {
      if BonusScansKey in store && store[BonusScansKey].Number? {
        n := store[BonusScansKey].n;
      } else {
        n := 0;
      }
    }

    method UseBonusScan()
      requires Valid()
      modifies this
      ensures Valid()
      ensures store == UseBonus(old(store))
    {
      UseBonusKeepsWellFormed(store);
      var current := GetBonusScans();
      if current > 0 {
        store := store[BonusScansKey := Number(current - 1)];
      }
    }

    method ActivateProTrial(days: int, now: int)
      modifies this
      ensures store == ActivateTrial(old(store), days, now)
    {
      var expiryDate := now + days * MsPerDay;
      store := store[PromoTrialExpiryKey := Number(expiryDate)];
    }

    method HasActiveProTrial(now: int) returns (active: bool)
      ensures active == TrialActive(store, now)
    {
      if PromoTrialExpiryKey !in store || !store[PromoTrialExpiryKey].Number? {
        return false;
      }
      var expiryDate := store[PromoTrialExpiryKey].n;
      active := now < expiryDate;
    }

    method GetProTrialExpiry(now: int) returns (expiry: Option<int>)
      ensures expiry == ActiveTrialExpiry(store, now)
    {
      if PromoTrialExpiryKey !in store || !store[PromoTrialExpiryKey].Number? {
        return None;
      }
      var expiryDate := store[PromoTrialExpiryKey].n;
      expiry := if now < expiryDate then Some(expiryDate) else None;
    }

    method ActivateLifetimePro()
      modifies this
      ensures store == ActivateLifetime(old(store))
    {
      store := store[PromoCodeKey := Text("true")];
      store := store[PromoCodeUsedKey := Text("LIFETIME_PRO")];
    }

    method HasLifetimePro() returns (unlocked: bool)
      ensures unlocked == Lifetime(store)
    {
      unlocked := PromoCodeKey in store && store[PromoCodeKey] == Text("true");
    }

    method HasPromoUnlock(now: int) returns (unlocked: bool)
      ensures unlocked == PromoUnlocked(store, now)
    {
      var hasLifetime := HasLifetimePro();
      var hasTrial := HasActiveProTrial(now);
      unlocked := hasLifetime || hasTrial;
    }

    method GetUsedCodes() returns (codes: seq<string>)
      ensures codes == UsedCodes(store)
    {
      if UsedCodesKey in store && store[UsedCodesKey].Codes? {
        codes := store[UsedCodesKey].list;
      } else {
        codes := [];
      }
    }

    /** `markCodeAsUsed`: push onto the loaded list and write it back. */
    method MarkCodeAsUsed(code: string)
      modifies this
      ensures store == MarkUsed(old(store), code)
    {
      var usedCodes := GetUsedCodes();
      usedCodes := usedCodes + [code];
      store := store[UsedCodesKey := Codes(usedCodes)];
    }

    method GetUsedPromoCode() returns (code: Option<string>)
      ensures code == UsedPromoCode(store)
    {
      if PromoCodeUsedKey in store && store[PromoCodeUsedKey].Text? {
        code := Some(store[PromoCodeUsedKey].text);
      } else {
        code := None;
      }
    }

    method ClearPromoUnlock()
      requires Valid()
      modifies this
      ensures Valid()
      ensures store == Clear(old(store))
    {
      store := store - {PromoCodeKey};
      store := store - {PromoCodeUsedKey};
      store := store - {PromoTrialExpiryKey};
      store := store - {BonusScansKey};
      store := store - {UsedCodesKey};
      RemovalsClear(old(store));
      assert UsedCodes(store) == [];
    }

    method GetPromoStatus(now: int) returns (status: PromoStatus)
      ensures status == PromoStatus(Lifetime(store), TrialActive(store, now), ActiveTrialExpiry(store, now),
                                    Bonus(store), UsedCodes(store))
    {
      var hasLifetimePro := HasLifetimePro();
      var hasActiveTrial := HasActiveProTrial(now);
      var trialExpiryDate := GetProTrialExpiry(now);
      var bonusScans := GetBonusScans();
      var usedCodes := GetUsedCodes();
      status := PromoStatus(hasLifetimePro, hasActiveTrial, trialExpiryDate, bonusScans, usedCodes);
    }
  }
}
