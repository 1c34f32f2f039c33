# CryptoShield core, modelled in Dafny

CryptoShield is a mobile app that scores crypto contracts and screenshots for
scam risk. Its free tier allows a limited number of scans, and promo codes or
a Pro subscription unlock more. This project models the parts of the app that
hold real logic and proves what they promise:

- **Scan quota** (`subscription.dfy`, module `Subscription`). The free tier
  allows three scans per 24-hour window. Two keys of the device store count
  the scans in the window. `canScan` combines that count with the billing
  provider's Pro answer. The class `ScanCounter` owns the store as a `map`
  field, and each clock reading is a parameter.
- **Promo-code ledger** (`promo_code.dfy`, module `PromoCode`). A catalog of
  nine codes grants bonus scans, a Pro trial of some days, or lifetime Pro.
  Each code is redeemable once per device. The class `PromoLedger` owns the
  store's five ledger keys.
- **Scan history** (`storage.dfy`, module `Storage`). The 50 most recent scans,
  newest first.
- **Translations** (`i18n.dfy`, module `I18n`). Dotted-key lookup in a
  per-locale translation tree, Russian plural forms chosen from a `count`
  parameter, and `{{name}}` placeholder substitution. The class
  `I18nService` keeps the current locale.
- **Screen helpers**:
  - `scan_results.dfy`: the address risk score, the five check thresholds, the
    risk level and the summary text.
  - `screenshot_analysis.dfy`: the keyword classifier for screenshot analyses.
  - `security_checklist.dfy`: the 15-item checklist, its progress, colour and
    label, the reset, and grouping by category. The class `ChecklistScreen`
    holds the checked set.
  - `premium.dfy`: package auto-selection, the package titles and the savings
    banner, the purchase guard, and the purchase wrapper of `services/subscription.ts`.
- **Post-build HTML step** (`post_build.dfy`, module `PostBuild`). This is the
  rewrite of the web build's `index.html` for hosting under `/cryptoshield/`.
  It inserts a base tag and prefixes absolute `src` and `href` paths.

`wrappers.dfy` (an `Option` type) and `strings.dfy` (the JavaScript string
operations the code uses) are shared helpers.

Every stateful service is a class. Its store is a `map` field, and its
methods carry `modifies` clauses and state the new store through a function of
the old store. Properties are proved about those functions.

Two facts about the code shape the model:

- `isPro` (services/subscription.ts:36-49) asks only the billing provider.
  Neither it nor `canScan` consults the promo ledger for a lifetime unlock or
  an active trial, so the model keeps the ledger out of the scan decision.
- `incrementScanCount` writes a reset time only when none is stored
  (services/subscription.ts:183-185). A stored reset time that has passed is
  therefore never replaced, and reading the usage and then incrementing keeps
  the stale time. The model shows the consequence; see Findings.

## Model

| member | source | states |
|---|---|---|
| Subscription.IsPro | services/subscription.ts:36-49 | Pro exactly when the provider answered and lists "pro" as active; a missing key or a failed call means not Pro |
| Subscription.Usage | services/subscription.ts:152-170 | the reported window always ends after `now`; a missing count reads 0 and a missing reset time `now + 24h`; a passed reset time gives count 0 and a fresh window; otherwise the stored count and time |
| Subscription.ScanCounter.GetScanUsage | services/subscription.ts:152-170 | returns the usage the store holds at `now` and writes nothing |
| Subscription.ScanCounter.constructor | services/subscription.ts:4-5 | the counter starts over a well-formed persisted store |
| Subscription.AfterIncrement | services/subscription.ts:175-189 | the stored count becomes the reported count plus one; an existing reset time, even a stale one, is kept; one is written only when none is stored; no other key changes; counts stay non-negative |
| Subscription.ScanCounter.IncrementScanCount | services/subscription.ts:175-189 | the new store is `AfterIncrement` of the old one at `now` and stays well formed |
| Subscription.AfterReset | services/subscription.ts:194-201 | count 0 and reset time `now + 24h`, no other key changes, and a read at `now` sees a fresh empty window |
| Subscription.ScanCounter.ResetScanCount | services/subscription.ts:194-201 | the new store is `AfterReset` of the old one |
| Subscription.Decide | services/subscription.ts:206-225 | a Pro answer gives `(true, -1, true)` and leaves the store alone; otherwise the remaining scans are non-negative, at most 3, and scanning is allowed exactly when some remain; the store is either unchanged or reset; DecideBranches gives each branch's value |
| Subscription.ScanCounter.CanScan | services/subscription.ts:206-225 | the decision and the new store are those of `Decide` |
| Subscription.TimeUntilReset | services/subscription.ts:230-233 | `max(0, resetTime - later)`, never negative, and positive with a single clock reading |
| Subscription.ScanCounter.GetTimeUntilReset | services/subscription.ts:230-233 | returns `TimeUntilReset` |
| Subscription.SingleClockNeverResets | services/subscription.ts:213-224 | with one clock reading the reset branch is dead: the store is untouched and the remaining scans are `max(0, 3 - count)` |
| Subscription.DecideBranches | services/subscription.ts:206-225 | for a free user at any second reading: after the window read at `now` has ended, `(true, 2)` and the store `AfterReset(store, later)`; before that, the store unchanged and `max(0, 3 - count)` remaining, allowed exactly when the count is below 3 |
| Subscription.Max | services/subscription.ts:221 | `Math.max`; used by Decide and TimeUntilReset, whose contracts state its value |
| Subscription.StoredCount | services/subscription.ts:157 | the stored count, 0 when missing; Usage states how it is read |
| Subscription.WellFormed | services/subscription.ts:183 | the stored count is non-negative; AfterIncrement and the ScanCounter constructor state it is kept |
| Subscription.IncrementAll | services/subscription.ts:175-189 | increments one after another; StaleWindowNeverRefreshed and FreshInstallQuota state its effect |
| Subscription.StaleWindowNeverRefreshed | services/subscription.ts:161-185 | once the stored reset time has passed, any number of increments keep that stale time, the stored count stays 1, and every later read reports count 0 |
| Subscription.StaleWindowAlwaysFullQuota | services/subscription.ts:161-224 | after that, `canScan` with one clock reading always reports the full quota of 3 |
| Subscription.IncrementsWithinWindow | services/subscription.ts:175-189 | inside one window each increment adds exactly one and the window is kept |
| Subscription.FreshInstallQuota | services/subscription.ts:152-224 | after `n` scans inside the first window, `canScan` reports `max(0, 3 - n)` remaining and allows a scan exactly when `n < 3` |
| Subscription.AfterIncrementCommitted | services/subscription.ts:175-189 | the corrected increment writes the window it read; it changes only the two quota keys |
| Subscription.StaleIncrementInvisible | services/subscription.ts:161-185 | as written, an increment on an expired window is invisible to a read at the same instant |
| Subscription.CommittedIncrementVisible | services/subscription.ts:175-189 | with the corrected increment, a read at the same instant sees the count grow by one in the same window |
| Subscription.CommittedQuotaEnforced | services/subscription.ts:175-189 | with the corrected increment, `n` scans at one instant add `n` to the count read then, from any state |
| Subscription.CommittedQuotaRefusesFourthScan | services/subscription.ts:175-225 | with the corrected increment, after three or more scans in one window (the first at any time, the others before the window it read ends) `canScan` refuses with 0 remaining at any readings before that end |
| Subscription.CommittedWithinWindow | services/subscription.ts:175-189 | inside a committed window ending at `R`, corrected increments at any times before `R` add one each and keep `R` |
| Subscription.IncrementAllCommitted | services/subscription.ts:175-189 | corrected increments one after another; CommittedQuotaEnforced and CommittedWithinWindow state that they add one each |
| PromoCode.FindPromo | services/promoCode.ts:96 | an entry found carries exactly the code looked up |
| PromoCode.FindPromoSpec | services/promoCode.ts:96 | nothing is found exactly when no entry has the code; otherwise the entry found is the first one with it |
| PromoCode.FindDistinct | services/promoCode.ts:96 | in a list of distinct codes, looking up an entry's code finds that entry |
| PromoCode.NormalizeIdempotent | services/promoCode.ts:93 | trimming and upper-casing twice gives the same as once |
| PromoCode.UpperIdempotent | services/promoCode.ts:93 | upper-casing is idempotent |
| PromoCode.UpperKeepsText | services/promoCode.ts:93 | a text without lower-case letters is unchanged by upper-casing |
| PromoCode.TrimOfUpper | services/promoCode.ts:93 | upper-casing a trimmed text leaves it trimmed |
| PromoCode.CodeTextNormalized | services/promoCode.ts:93 | a nonempty text of capitals, digits and underscores is its own normal form |
| PromoCode.CatalogCodeNormalized | services/promoCode.ts:18-74 | every catalog code is its own normal form |
| PromoCode.CatalogCodeNormalizedLow | services/promoCode.ts:18-48 | each of the first five catalog codes is its own normal form |
| PromoCode.CatalogCodeNormalizedHigh | services/promoCode.ts:49-74 | each of the last four catalog codes is its own normal form |
| PromoCode.CatalogValues | services/promoCode.ts:18-74 | each catalog entry: a lifetime code carries 0, a bonus or trial code a positive value |
| PromoCode.CatalogCodesDistinct | services/promoCode.ts:18-74 | the nine codes are pairwise distinct |
| PromoCode.LedgerKeysDistinct | services/promoCode.ts:76-80 | the five storage keys are pairwise distinct |
| PromoCode.TrialActive | services/promoCode.ts:188-199 | the trial is active exactly when a stored expiry lies strictly after `now` |
| PromoCode.PromoLedger.HasActiveProTrial | services/promoCode.ts:188-199 | returns `TrialActive` |
| PromoCode.ActiveTrialExpiry | services/promoCode.ts:204-215 | the expiry is returned exactly while the trial is active, and it then lies after `now` |
| PromoCode.PromoLedger.GetProTrialExpiry | services/promoCode.ts:204-215 | returns `ActiveTrialExpiry` |
| PromoCode.PromoUnlocked | services/promoCode.ts:241-245 | unlocked exactly when lifetime Pro is set or a stored expiry lies after `now` |
| PromoCode.PromoLedger.HasPromoUnlock | services/promoCode.ts:241-245 | returns `PromoUnlocked` |
| PromoCode.AddBonus | services/promoCode.ts:149-152 | the balance grows by exactly `count`; every other ledger reading and every other key is unchanged |
| PromoCode.PromoLedger.AddBonusScans | services/promoCode.ts:149-152 | the new store is `AddBonus` of the old |
| PromoCode.PromoLedger.GetBonusScans | services/promoCode.ts:157-165 | returns the stored balance, 0 when missing |
| PromoCode.UseBonus | services/promoCode.ts:170-175 | a positive balance drops by one; otherwise nothing changes; a non-negative balance stays non-negative; nothing else changes |
| PromoCode.PromoLedger.UseBonusScan | services/promoCode.ts:170-175 | the new store is `UseBonus` of the old and stays well formed |
| PromoCode.ActivateTrial | services/promoCode.ts:180-183 | the expiry becomes `now + days * 86400000`, replacing any earlier one; nothing else changes |
| PromoCode.PromoLedger.ActivateProTrial | services/promoCode.ts:180-183 | the new store is `ActivateTrial` of the old |
| PromoCode.ActivateLifetime | services/promoCode.ts:220-223 | the lifetime flag is set and the marker is "LIFETIME_PRO"; nothing else changes |
| PromoCode.PromoLedger.ActivateLifetimePro | services/promoCode.ts:220-223 | the new store is `ActivateLifetime` of the old |
| PromoCode.PromoLedger.HasLifetimePro | services/promoCode.ts:228-236 | true exactly when the flag holds the text "true" |
| PromoCode.MarkUsed | services/promoCode.ts:263-271 | the code is appended to the used list; nothing else changes |
| PromoCode.PromoLedger.MarkCodeAsUsed | services/promoCode.ts:263-271 | the new store is `MarkUsed` of the old |
| PromoCode.PromoLedger.GetUsedCodes | services/promoCode.ts:250-258 | returns the stored list, empty when missing |
| PromoCode.PromoLedger.GetUsedPromoCode | services/promoCode.ts:276-283 | returns the stored marker, if any |
| PromoCode.ApplyEffect | services/promoCode.ts:115-127 | the effect never touches the used list and changes the balance only for a bonus code, by its value |
| PromoCode.Apply | services/promoCode.ts:92-144 | success exactly when the normalised code is in the catalog and not yet used; an unknown code is "Invalid promo code" and a used one "already been used", both with no state change; a success appends the normalised code to the used list and reports the catalog entry |
| PromoCode.SuccessfulApply | services/promoCode.ts:105-130 | a successful redemption found its code, and its store is the effect followed by recording the code as used |
| PromoCode.FoundValues | services/promoCode.ts:96-126 | an entry found in the catalog has the value its kind promises |
| PromoCode.FoundIsCatalogCode | services/promoCode.ts:96-130 | a code found in the catalog is a catalog code |
| PromoCode.RecordKeepsWellFormed | services/promoCode.ts:263-271 | recording an unused catalog code keeps the ledger well formed |
| PromoCode.CatalogEntryFound | services/promoCode.ts:92-96 | any spelling whose normal form is a catalog code finds that entry |
| PromoCode.CatalogEntryApplied | services/promoCode.ts:92-130 | redeeming any spelling of an unused catalog code applies that entry's effect and records its code |
| PromoCode.TrialCodeStore | services/promoCode.ts:120-130 | a successful trial code has a positive number of days, and its store is the trial activation followed by recording |
| PromoCode.TrialThenRecord | services/promoCode.ts:180-199 | activating a trial of positive length and recording a code sets the expiry, which is active at once and over after that many days; other keys are kept |
| PromoCode.PromoLedger.ApplyPromoCode | services/promoCode.ts:92-144 | the result and the new store are those of `Apply`, and the ledger stays well formed |
| PromoCode.Clear | services/promoCode.ts:288-298 | exactly the five ledger keys are removed and the rest of the store is kept |
| PromoCode.RemovalsClear | services/promoCode.ts:288-298 | removing the five ledger keys one by one is `Clear` |
| PromoCode.PromoLedger.ClearPromoUnlock | services/promoCode.ts:288-298 | the new store is `Clear` of the old |
| PromoCode.PromoLedger.GetPromoStatus | services/promoCode.ts:303-317 | the status gathers the lifetime flag, trial state, active expiry, balance and used list |
| PromoCode.PromoLedger.constructor | services/promoCode.ts:76-80 | the ledger starts over a well-formed persisted store |
| PromoCode.CatalogCodeRedeemable | services/promoCode.ts:92-130 | any spacing or letter case of an unused catalog code redeems that catalog entry |
| PromoCode.CatalogCodeRedeemableAsIs | services/promoCode.ts:92-130 | every unused catalog code is redeemable by its own text |
| PromoCode.SecondApplyRefused | services/promoCode.ts:105-130 | after a success, the same code in any spelling is refused as already used, and the refusal changes nothing |
| PromoCode.BonusCodeEffect | services/promoCode.ts:116-118 | a bonus code adds exactly its value and touches only the balance and the used list |
| PromoCode.TrialCodeEffect | services/promoCode.ts:120-122 | a trial code sets the expiry to `now` plus its days, active at once and over after that many days; only the expiry and the used list change |
| PromoCode.LifetimeCodeEffect | services/promoCode.ts:124-126 | a lifetime code sets the flag and the marker and unlocks at every time; only those keys and the used list change |
| PromoCode.ApplyKeepsWellFormed | services/promoCode.ts:92-144 | every redemption keeps the balance non-negative and the used list free of repeats and of non-catalog codes |
| PromoCode.UseBonusKeepsWellFormed | services/promoCode.ts:170-175 | using a bonus scan keeps the ledger well formed |
| PromoCode.BonusScenario | services/promoCode.ts:92-175 | any spelling of "FREE_START" on a ledger with no balance and no used codes gives 10 bonus scans, and three uses leave 7 |
| PromoCode.TrialScenario | services/promoCode.ts:180-199 | any spelling of "COMMUNITY_PRO", unused and without lifetime Pro, unlocks at once and no longer 8 days later |
| PromoCode.ClearForgetsEverything | services/promoCode.ts:288-298 | after clearing there is no unlock, no trial, no balance and no used code, so every catalog code is redeemable again |
| PromoCode.Normalize | services/promoCode.ts:93 | trim then upper-case; NormalizeIdempotent, CodeTextNormalized and CatalogEntryFound state what it does |
| PromoCode.IsCatalogCode | services/promoCode.ts:96 | the code is one of the nine; FindPromoSpec and FoundIsCatalogCode state it |
| PromoCode.CodeChar | services/promoCode.ts:18-74 | the characters catalog codes are made of; CodeTextNormalized uses it |
| PromoCode.Bonus | services/promoCode.ts:157-165 | the stored balance, 0 when missing; AddBonus and UseBonus state how it changes |
| PromoCode.TrialExpiry | services/promoCode.ts:188-199 | the stored expiry, if any; TrialActive and ActivateTrial state it |
| PromoCode.Lifetime | services/promoCode.ts:228-236 | the lifetime flag holds "true"; ActivateLifetime and LifetimeCodeEffect state it |
| PromoCode.UsedCodes | services/promoCode.ts:250-258 | the stored used list, empty when missing; MarkUsed and SecondApplyRefused state it |
| PromoCode.UsedPromoCode | services/promoCode.ts:276-283 | the stored marker, if any; ActivateLifetime and ClearForgetsEverything state it |
| PromoCode.WellFormed | services/promoCode.ts:92-144 | a non-negative balance and a used list of distinct catalog codes; ApplyKeepsWellFormed and UseBonusKeepsWellFormed state it is kept |
| Storage.Take | services/storage.ts:30 | `slice(0, n)`: a prefix of length `min(n, length)` |
| Storage.Stamped | services/storage.ts:20-24 | the new item keeps the caller's fields and takes the id and timestamp from the clock readings |
| Storage.Saved | services/storage.ts:27-30 | the new item is first, the older entries follow in order, and the list is cut to 50 |
| Storage.ScanHistory.SaveScan | services/storage.ts:17-36 | the stored history becomes `Saved` of the old history with the stamped item, and holds at most 50 entries |
| Storage.ScanHistory.GetHistory | services/storage.ts:38-46 | returns the stored list, empty when nothing is stored |
| Storage.ScanHistory.ClearHistory | services/storage.ts:48-54 | the history key is removed, so the history reads empty |
| Storage.FindById | services/storage.ts:56-64 | the first entry with that id, or nothing exactly when no entry has it |
| Storage.ScanHistory.GetScanById | services/storage.ts:56-64 | a front-to-back search returning `FindById` of the history |
| Storage.ScanHistory.constructor | services/storage.ts:14 | the service starts over the persisted store |
| Storage.TakeOfTake | services/storage.ts:27-30 | cutting the tail first does not change what the final cut keeps |
| Storage.SaveAllKeepsNewest | services/storage.ts:17-36 | after any number of saves the history is the saved items newest first, then the earlier history, cut to 50 |
| Storage.SavedItemFound | services/storage.ts:56-64 | the item just saved is what a lookup of its id finds, whatever older entries share the id, since it comes first |
| Storage.Reversed | services/storage.ts:27 | the reversal of a list, element by element |
| Storage.History | services/storage.ts:38-46 | the stored list, empty when missing; GetHistory and ClearHistory state it |
| Storage.SaveAll | services/storage.ts:17-36 | saves one after another; SaveAllKeepsNewest states the result |
| I18n.JsRem | services/i18n.ts:90-91 | JavaScript's `%`: the ordinary remainder for non-negative numbers, a non-positive one otherwise |
| I18n.PluralForm | services/i18n.ts:88-99 | "one" exactly when `n % 10 == 1` and `n % 100 != 11`; "few" exactly when `n % 10` is 2 to 4 and `n % 100` is not 10 to 19; "many" otherwise |
| I18n.CldrManyCondition | services/i18n.ts:88-99 | in the Unicode CLDR Russian rule, "many" covers exactly what is neither "one" nor "few" |
| I18n.PluralFormIsCldr | services/i18n.ts:88-99 | the code's plural form agrees with the CLDR Russian cardinal rule on every non-negative count |
| I18n.NegativeCountIsMany | services/i18n.ts:88-99 | a negative count always selects "many" |
| I18n.PluralFormPeriodic | services/i18n.ts:88-99 | the form repeats every hundred |
| I18n.PluralFormExamples | services/i18n.ts:88-99 | 1, 21 and 101 are "one"; 2, 4 and 22 are "few"; 0, 5, 11, 12, 14, 111 and -1 are "many" |
| I18n.Walk | services/i18n.ts:36-46 | once a segment is missing, the walk yields nothing; WalkConcat states that it goes segment by segment |
| I18n.Placeholder | services/i18n.ts:80 | the `{{name}}` pattern |
| I18n.FindParam | services/i18n.ts:54 | nothing exactly when no parameter has that name; otherwise the value of the first parameter with that name |
| I18n.UnresolvedKeyReturned | services/i18n.ts:37-51 | a key with a missing segment, or one resolving to a non-string, comes back as the key |
| I18n.UnknownLocaleReturnsKey | services/i18n.ts:37-46 | a locale without a translation table answers every key with the key |
| I18n.NoParamsGivesValue | services/i18n.ts:76-84 | without parameters the resolved string is returned as it is |
| I18n.PluralPreferred | services/i18n.ts:54-75 | with a numeric `count`, the `key_<form>` string is used when it resolves, otherwise the base string, then substituted |
| I18n.NoCountUsesBase | services/i18n.ts:54-82 | without `count`, the base string is substituted |
| I18n.SubstituteFillsEveryPlaceholder | services/i18n.ts:78-82 | every `{{name}}` occurrence is replaced by the parameter's text, and the rest is kept |
| I18n.CountMessage | services/i18n.ts:78-82 | a single `{{count}}` between plain texts becomes the count's decimal text |
| I18n.AbsentPlaceholderUntouched | services/i18n.ts:78-82 | a text without the placeholder is unchanged by that parameter |
| I18n.I18nService.constructor | services/i18n.ts:8-9 | the service starts in "ru" with the Russian table |
| I18n.I18nService.Init | services/i18n.ts:11-20 | a saved nonempty locale becomes current; otherwise the locale stays |
| I18n.I18nService.SetLocale | services/i18n.ts:22-29 | the locale changes whether or not persisting succeeds; the store changes only on success |
| I18n.I18nService.GetCurrentLocale | services/i18n.ts:31-33 | returns the current locale |
| I18n.I18nService.T | services/i18n.ts:35-85 | the loops return `Translate` of the current tables and locale |
| I18n.WalkConcat | services/i18n.ts:36-46 | walking `a` then `b` is walking `a + b` |
| I18n.Step | services/i18n.ts:40-45 | one segment of the walk; UnresolvedKeyReturned states a missing one returns the key |
| I18n.Root | services/i18n.ts:37 | the current locale's table; UnknownLocaleReturnsKey states a missing one |
| I18n.Resolve | services/i18n.ts:36-51 | the string a key resolves to; UnresolvedKeyReturned and NoParamsGivesValue state it |
| I18n.ParamText | services/i18n.ts:80 | `String(value)`; CountMessage states it for a count |
| I18n.Substitute | services/i18n.ts:78-82 | the parameter replacements in order; SubstituteFillsEveryPlaceholder and AbsentPlaceholderUntouched state it |
| I18n.CountCategory | services/i18n.ts:54-56 | the plural form of the count; PluralPreferred states its use |
| I18n.Translate | services/i18n.ts:35-85 | `t`; UnresolvedKeyReturned, NoParamsGivesValue, PluralPreferred and NoCountUsesBase state it, and I18nService.T is proved equal to it |
| I18n.CategoryName | services/i18n.ts:59 | the suffix text of a plural form; PluralPreferred states its use |
| I18n.CldrRussian | services/i18n.ts:88-99 | the CLDR Russian cardinal rule, the reference for PluralFormIsCldr |
| Strings.ToLower | app/screenshot-analysis.tsx:124 | lower-cases each character and keeps the length |
| Strings.ToUpper | services/promoCode.ts:93 | upper-cases each character and keeps the length |
| Strings.LowerConcat | app/screenshot-analysis.tsx:124 | lower-casing distributes over concatenation |
| Strings.UpperConcat | services/promoCode.ts:93 | upper-casing distributes over concatenation |
| Strings.TrimStart | services/promoCode.ts:93 | drops exactly the leading whitespace |
| Strings.TrimEnd | services/promoCode.ts:93 | drops exactly the trailing whitespace |
| Strings.Trim | services/promoCode.ts:93 | the result neither starts nor ends with whitespace |
| Strings.Split | services/i18n.ts:36 | at least one segment |
| Strings.JoinSplit | services/i18n.ts:36 | joining the segments gives back the key, and no segment holds a dot |
| Strings.SplitJoin | services/i18n.ts:36 | splitting dot-free segments joined by dots gives them back |
| Strings.SplitOther | services/i18n.ts:36 | a character other than the dot joins the first segment |
| Strings.SplitAtSep | services/i18n.ts:36 | a leading dot starts an empty segment |
| Strings.JoinFirstChar | services/i18n.ts:36 | joining segments whose first is nonempty starts with its first character |
| Strings.JoinEmptyFirst | services/i18n.ts:36 | joining segments whose first is empty starts with the dot |
| Strings.IndexOf | scripts/post-build.js:37-40 | the first occurrence, or nothing exactly when there is none |
| Strings.ReplaceFirst | scripts/post-build.js:37-40 | a text without the pattern is unchanged |
| Strings.ReplaceAllAbsent | services/i18n.ts:80 | a global replace of an absent pattern changes nothing |
| Strings.ReplaceAllCopies | services/i18n.ts:80 | text free of the pattern's first character is copied through a global replace |
| Strings.ReplaceAllPieces | services/i18n.ts:80 | a global replace turns every occurrence into the replacement and keeps the pieces between |
| Strings.StartsWithIsPrefix | scripts/post-build.js:49 | `startsWith` is a prefix test |
| Strings.StartsWithConcat | scripts/post-build.js:49 | a text starts with any of its prefixes |
| Strings.ContainsAt | app/premium.tsx:206-214 | an occurrence at a position is found by `includes` |
| Strings.ContainsWitness | app/screenshot-analysis.tsx:138-143 | `includes` holds only with an occurrence at some position |
| Strings.ContainsInConcat | app/screenshot-analysis.tsx:138-143 | an occurrence in either part is an occurrence in the whole |
| Strings.ContainsTransitive | app/screenshot-analysis.tsx:129-136 | an occurrence of an occurrence is an occurrence |
| Strings.NatToString | services/storage.ts:22 | a nonempty string of decimal digits; NatToStringValue and NatToStringInjective state its value and that it is one-to-one |
| Strings.IntToString | services/i18n.ts:80 | a nonempty decimal text, with a leading minus exactly for negative numbers; IntToStringValue and IntToStringInjective state its value |
| Strings.DecimalValue | services/storage.ts:22 | the number a digit text denotes, the reference for NatToStringValue |
| Strings.SignedValue | services/i18n.ts:80 | the number a signed digit text denotes, the reference for IntToStringValue |
| Strings.NatToStringValue | services/storage.ts:22 | the digits of `n` denote `n`, and only 0 starts with the digit 0 |
| Strings.NatToStringInjective | services/storage.ts:22 | two numbers have the same text exactly when they are equal, so id clocks that differ give ids that differ |
| Strings.IntToStringValue | services/i18n.ts:80 | the text of `n`, sign included, denotes `n` |
| Strings.IntToStringInjective | services/i18n.ts:80 | two integers have the same text exactly when they are equal |
| Strings.StartsWith | scripts/post-build.js:49 | `startsWith`; StartsWithIsPrefix states it is a prefix test |
| Strings.Contains | app/screenshot-analysis.tsx:138-143 | `includes`; ContainsAt and ContainsWitness state it holds exactly when an occurrence exists |
| Strings.LowerChar | app/screenshot-analysis.tsx:124 | the ASCII lower-case of one character; ToLower states its use |
| Strings.UpperChar | services/promoCode.ts:93 | the ASCII upper-case of one character; ToUpper states its use |
| Strings.IsWhitespace | services/promoCode.ts:93 | the ECMAScript white space and line terminators; TrimStart and TrimEnd state what they drop |
| Strings.Join | services/i18n.ts:36 | joining with a separator; JoinSplit and SplitJoin state that it inverts Split |
| Strings.ReplaceAll | services/i18n.ts:80 | a global replace; ReplaceAllPieces, ReplaceAllAbsent and ReplaceAllCopies state what it does |
| Strings.Interleave | services/i18n.ts:80 | pieces with a glue between each two; ReplaceAllPieces states a replace as an interleaving |
| Strings.DigitChar | services/storage.ts:22 | the character of one decimal digit; NatToStringValue states its value |
| ScanResults.ContractAddress | app/scan-results.tsx:40 | a missing or empty parameter becomes "Unknown", any other is kept |
| ScanResults.CodeUnitSum | app/scan-results.tsx:45-46 | a character below U+10000 counts as its code |
| ScanResults.HashConcat | app/scan-results.tsx:45-46 | the character sum of a concatenation is the sum of the parts |
| ScanResults.RiskScore | app/scan-results.tsx:43-48 | an empty or "Unknown" address scores 75; any other scores its character sum mod 100, raised to at least 5; always between 5 and 99 |
| ScanResults.SwappedHalvesSameScore | app/scan-results.tsx:43-48 | swapping two halves of an address keeps its score |
| ScanResults.MissingAddressScore | app/scan-results.tsx:40-48 | a missing or empty address scores 75 |
| ScanResults.SecurityChecks | app/scan-results.tsx:53-84 | always five checks |
| ScanResults.CountStatus | app/scan-results.tsx:112-113 | a count no larger than the list |
| ScanResults.CountStatusOfFive | app/scan-results.tsx:112-113 | over five checks, the count is the number of them with the status |
| ScanResults.CheckCounts | app/scan-results.tsx:53-84 | failures are the thresholds 60, 70, 75 and 80 the score exceeds; warnings are liquidity in (40, 60], the audit above 50 and ownership in (50, 80] |
| ScanResults.RiskLevel | app/scan-results.tsx:86-106 | CRITICAL exactly from 70, MODERATE exactly in [40, 70), LOW exactly below 40; the danger colour exactly at CRITICAL |
| ScanResults.SummaryByScore | app/scan-results.tsx:53-124 | the summary by score: safe up to 40, moderate up to 50, caution up to 75, critical above |
| ScanResults.LowScoreAllPass | app/scan-results.tsx:57-124 | at 40 or below every check passes and the summary is the safe one |
| ScanResults.HighScoreCritical | app/scan-results.tsx:57-116 | above 75 at least three checks fail and the summary is the critical one |
| ScanResults.ScamWarningIffCritical | app/scan-results.tsx:253 | the scam badge and block button show exactly at the critical level |
| ScanResults.BadgeOverCautionSummary | app/scan-results.tsx:111-124 | from 70 to 75 the badge shows over a summary that only urges caution |
| ScanResults.MissingAddressOutcome | app/scan-results.tsx:40-124 | a missing address gives the critical level and the badge, with only the caution summary |
| ScanResults.Hash | app/scan-results.tsx:45-46 | the character-code sum of the address; HashConcat states it is additive and RiskScore states how it gives the score |
| ScanResults.B | app/scan-results.tsx:53-84 | one for a true test; CheckCounts counts thresholds with it |
| ScanResults.Summary | app/scan-results.tsx:111-124 | `generateAISummary`; SummaryByScore, LowScoreAllPass and HighScoreCritical state its text by score |
| ScanResults.ShowsScamWarning | app/scan-results.tsx:253 | `riskScore >= 70`; ScamWarningIffCritical and BadgeOverCautionSummary state it |
| ScreenshotAnalysis.CountPresent | app/screenshot-analysis.tsx:138-143 | at most the number of keywords, and 0 exactly when none occurs |
| ScreenshotAnalysis.CountIsDistinctKeywords | app/screenshot-analysis.tsx:138-143 | the count is the number of distinct keywords present, however often each occurs |
| ScreenshotAnalysis.PresentStep | app/screenshot-analysis.tsx:138-143 | the keywords present are the tail's, plus the head when it occurs |
| ScreenshotAnalysis.DangerIff | app/screenshot-analysis.tsx:125-145 | "danger" exactly when at least three distinct danger keywords occur |
| ScreenshotAnalysis.SafeIff | app/screenshot-analysis.tsx:136-147 | "safe" exactly when no danger keyword and some safe keyword occur |
| ScreenshotAnalysis.LowerIdempotent | app/screenshot-analysis.tsx:124 | lower-casing is idempotent |
| ScreenshotAnalysis.LowerOfUpper | app/screenshot-analysis.tsx:124 | lower-casing after upper-casing is lower-casing |
| ScreenshotAnalysis.CaseDoesNotMatter | app/screenshot-analysis.tsx:124 | the verdict depends only on the lower-cased text |
| ScreenshotAnalysis.RedFlagInNoRedFlags | app/screenshot-analysis.tsx:129-136 | "no red flags" contains "red flag" |
| ScreenshotAnalysis.RedFlagKeyword | app/screenshot-analysis.tsx:129-136 | "red flag" is a danger keyword |
| ScreenshotAnalysis.NoRedFlagsHasRedFlag | app/screenshot-analysis.tsx:129-136 | a text saying "no red flags" holds the danger keyword "red flag" |
| ScreenshotAnalysis.NoRedFlagsNeverSafe | app/screenshot-analysis.tsx:129-146 | a text saying "no red flags" is never judged safe |
| ScreenshotAnalysis.EmptyIsWarning | app/screenshot-analysis.tsx:146 | an empty text is a warning |
| ScreenshotAnalysis.CountGrowsWithText | app/screenshot-analysis.tsx:138-143 | adding text on either side never lowers a count |
| ScreenshotAnalysis.DangerSurvivesAppend | app/screenshot-analysis.tsx:138-145 | a danger verdict survives added text |
| ScreenshotAnalysis.Classify | app/screenshot-analysis.tsx:124-148 | `getRiskLevel`; DangerIff, SafeIff, CaseDoesNotMatter and NoRedFlagsNeverSafe state its verdict |
| ScreenshotAnalysis.Present | app/screenshot-analysis.tsx:138-143 | the keywords that occur; CountIsDistinctKeywords states the count is its size |
| SecurityChecklist.Toggled | app/security-checklist.tsx:138-146 | the id is added if absent and removed if present; every other id is unchanged |
| SecurityChecklist.ToggleTwice | app/security-checklist.tsx:138-146 | toggling twice restores the set |
| SecurityChecklist.CriticalFrom | app/security-checklist.tsx:148 | the critical filter keeps at most the remaining items |
| SecurityChecklist.CountCheckedFrom | app/security-checklist.tsx:149 | the checked count is at most the remaining items |
| SecurityChecklist.CountCheckedShort | app/security-checklist.tsx:149 | fewer checked than listed exactly when some listed item is unchecked |
| SecurityChecklist.CriticalOfFlags | app/security-checklist.tsx:148 | the critical filter over fifteen items keeps exactly the flagged ones, in order |
| SecurityChecklist.CriticalOfCatalog | app/security-checklist.tsx:25-131 | the catalog's critical items are items 1, 2, 3, 5, 7, 9 and 14, in order |
| SecurityChecklist.CriticalIdsOfCatalog | app/security-checklist.tsx:25-131 | seven critical items with those ids |
| SecurityChecklist.CatalogIdsFacts | app/security-checklist.tsx:25-131 | fifteen items with fifteen distinct ids |
| SecurityChecklist.CatalogIdsCount | app/security-checklist.tsx:25-131 | the fifteen catalog ids are distinct |
| SecurityChecklist.OneDigitIds | app/security-checklist.tsx:25-131 | the nine one-digit ids are distinct |
| SecurityChecklist.TwoDigitIds | app/security-checklist.tsx:25-131 | the six two-digit ids are distinct |
| SecurityChecklist.CriticalIdsCount | app/security-checklist.tsx:25-131 | the seven critical ids are distinct |
| SecurityChecklist.CatalogIdsListed | app/security-checklist.tsx:25-131 | every catalog item's id is a catalog id |
| SecurityChecklist.Progress | app/security-checklist.tsx:151-152 | `Math.round(checked / 15 * 100)` in integers: `20 * checked / 3` rounded half up |
| SecurityChecklist.ProgressNearest | app/security-checklist.tsx:151-152 | the progress is the nearest integer to `100 * checked / 15` |
| SecurityChecklist.ProgressThresholds | app/security-checklist.tsx:151-165 | below 60 exactly under 9 items, below 80 exactly under 12, 0 only for none, 100 only for 15 |
| SecurityChecklist.ProgressBounds | app/security-checklist.tsx:149-152 | for catalog ids the progress is in [0, 100], 0 exactly when none and 100 exactly when all are checked |
| SecurityChecklist.SubsetCardinality | app/security-checklist.tsx:151-152 | a subset is no larger, and equally large only when equal |
| SecurityChecklist.CriticalCountShort | app/security-checklist.tsx:148-149 | fewer critical items checked than listed exactly when a critical id is unchecked |
| SecurityChecklist.CriticalMissingIff | app/security-checklist.tsx:148-161 | the critical-missing label shows exactly when one of the seven critical ids is unchecked, whatever the progress |
| SecurityChecklist.LabelByCount | app/security-checklist.tsx:160-165 | with every critical item checked, NEEDS IMPROVEMENT under 9 items, GOOD under 12, EXCELLENT from 12 |
| SecurityChecklist.ColorMatchesLabel | app/security-checklist.tsx:154-165 | the danger colour exactly with the critical-missing label, the warning colour exactly with NEEDS IMPROVEMENT |
| SecurityChecklist.LabelsDistinct | app/security-checklist.tsx:160-165 | the four labels differ in their first letter |
| SecurityChecklist.ColorOfMatchesLabelOf | app/security-checklist.tsx:154-165 | on any counts, the danger colour goes with the critical-missing label and the warning colour with NEEDS IMPROVEMENT |
| SecurityChecklist.ResetOutcome | app/security-checklist.tsx:167-180 | after a reset: progress 0, the critical-missing label and the danger colour |
| SecurityChecklist.ScoreExamples | app/security-checklist.tsx:148-165 | the seven critical items alone need improvement; all fifteen are excellent |
| SecurityChecklist.Critical | app/security-checklist.tsx:148 | the critical items; CriticalOfCatalog states which they are |
| SecurityChecklist.CountChecked | app/security-checklist.tsx:149 | the checked items counted; CountCheckedShort and CriticalCountShort state when it falls short |
| SecurityChecklist.CheckedCritical | app/security-checklist.tsx:148-149 | the checked critical items counted; CriticalMissingIff states it |
| SecurityChecklist.ColorOf | app/security-checklist.tsx:154-158 | the colour rule on counts; ColorOfMatchesLabelOf states it agrees with the label rule |
| SecurityChecklist.LabelOf | app/security-checklist.tsx:160-165 | the label rule on counts; LabelByCount and LabelsDistinct state it |
| SecurityChecklist.Color | app/security-checklist.tsx:154-158 | `getScoreColor`; ColorMatchesLabel and ChecklistScreen.ScoreColor state it |
| SecurityChecklist.Label | app/security-checklist.tsx:160-165 | `getScoreLabel`; CriticalMissingIff, LabelByCount and ScoreExamples state it |
| SecurityChecklist.Min | app/security-checklist.tsx:182-188 | the smaller index; InCategoryRunUpTo states a run's group so far with it |
| SecurityChecklist.CategoriesUpTo | app/security-checklist.tsx:182-188 | the categories seen so far are listed once each |
| SecurityChecklist.CategoriesUpToMembers | app/security-checklist.tsx:182-188 | the categories listed are exactly those of the items seen so far |
| SecurityChecklist.NotInEarlier | app/security-checklist.tsx:182-188 | in a list without repeats no element occurs before its own position |
| SecurityChecklist.BlockStep | app/security-checklist.tsx:182-188 | three more items of a new category append it to the categories |
| SecurityChecklist.InCategoryUpTo | app/security-checklist.tsx:182-188 | a group is no longer than the items seen |
| SecurityChecklist.InCategoryMembers | app/security-checklist.tsx:182-188 | a group holds exactly the items of its category |
| SecurityChecklist.InCategoryAbsent | app/security-checklist.tsx:182-188 | a category with no items has an empty group |
| SecurityChecklist.GroupByCategory | app/security-checklist.tsx:182-188 | the loop's keys are the categories in order of first appearance, and each group is its category's items in catalog order |
| SecurityChecklist.Appended | app/security-checklist.tsx:182-188 | the step's groups have the old keys plus the item's category |
| SecurityChecklist.CategoriesStep | app/security-checklist.tsx:182-188 | one more item adds its category to the list exactly when it is new |
| SecurityChecklist.GroupsStepValue | app/security-checklist.tsx:182-188 | after the step, each group holds its category's items up to and including the new one |
| SecurityChecklist.GroupsStep | app/security-checklist.tsx:182-188 | the loop's step takes the groups of the first `i` items to those of the first `i + 1` |
| SecurityChecklist.GroupingPartitions | app/security-checklist.tsx:182-188 | each item is in its own category's group and in no other |
| SecurityChecklist.BlockCategoriesUpTo | app/security-checklist.tsx:182-188 | in blocks of three with distinct categories, the first `j` blocks give the first `j` categories in order |
| SecurityChecklist.InCategoryRunUpTo | app/security-checklist.tsx:182-188 | a category occupying one run has as its group the part of the run seen so far |
| SecurityChecklist.InCategoryRun | app/security-checklist.tsx:182-188 | a category occupying one run has that run as its group |
| SecurityChecklist.BlockRuns | app/security-checklist.tsx:182-188 | in blocks of three with distinct categories, each category occupies its block |
| SecurityChecklist.CategoryNamesDistinct | app/security-checklist.tsx:25-131 | the five category names are distinct |
| SecurityChecklist.CatalogBlocks | app/security-checklist.tsx:25-131 | the catalog lists its items category by category, three each |
| SecurityChecklist.BlockGrouping | app/security-checklist.tsx:182-188 | five blocks of distinct categories give those categories in order, each group its block |
| SecurityChecklist.BlockCategories | app/security-checklist.tsx:182-188 | items in blocks of three with distinct categories give those categories in block order |
| SecurityChecklist.BlockGroup | app/security-checklist.tsx:182-188 | each block of three is its category's group |
| SecurityChecklist.CatalogGrouping | app/security-checklist.tsx:182-188 | the catalog groups into its five categories in order, each holding its three items in catalog order |
| SecurityChecklist.Categories | app/security-checklist.tsx:182-188 | the categories in first-appearance order; CategoriesUpToMembers and CatalogGrouping state them |
| SecurityChecklist.InCategory | app/security-checklist.tsx:182-188 | one category's items in order; InCategoryMembers and GroupingPartitions state them |
| SecurityChecklist.GroupsUpTo | app/security-checklist.tsx:182-188 | the groups after `k` items; GroupsStep and GroupByCategory state the loop keeps it |
| SecurityChecklist.ToggleKeepsCatalog | app/security-checklist.tsx:138-152 | toggling a catalog id keeps the set within the catalog and the progress a percentage |
| SecurityChecklist.ChecklistScreen.constructor | app/security-checklist.tsx:136 | the screen opens with nothing checked |
| SecurityChecklist.ChecklistScreen.ToggleItem | app/security-checklist.tsx:138-146 | the checked set becomes `Toggled` of the old set and stays within the catalog for a catalog id |
| SecurityChecklist.ChecklistScreen.Reset | app/security-checklist.tsx:167-180 | the set is emptied exactly when the confirmation is accepted |
| SecurityChecklist.ChecklistScreen.ScoreLabel | app/security-checklist.tsx:160-165 | the critical-missing label exactly when a critical id is unchecked |
| SecurityChecklist.ChecklistScreen.ScoreColor | app/security-checklist.tsx:154-158 | the danger colour exactly when a critical id is unchecked |
| SecurityChecklist.ChecklistScreen.ProgressPercent | app/security-checklist.tsx:150-152 | at most 100, and 100 exactly when every catalog item is checked |
| Premium.FindFirst | app/premium.tsx:113-118 | the first package offering the period, or nothing exactly when none does |
| Premium.AutoSelect | app/premium.tsx:120 | nothing exactly for an empty list; otherwise one of the offered packages |
| Premium.SelectionAfterLoad | app/premium.tsx:103-128 | with an offering, the automatic choice; without one, the previous selection |
| Premium.PackageTitle | app/premium.tsx:206-214 | "Annual" by type or identifier, else "Monthly" by the same rule, else the product title or "Subscription"; never empty |
| Premium.PackageSavings | app/premium.tsx:216-221 | "Save 40%" exactly for the packages the title rule calls annual |
| Premium.AnnualIdentifierTitled | app/premium.tsx:113-115 | the store's annual identifier contains "annual" |
| Premium.MonthlyIdentifierTitled | app/premium.tsx:116-118 | the store's monthly identifier contains "monthly" |
| Premium.OfferedAnnualTitled | app/premium.tsx:206-221 | a package selected as annual is titled "Annual" and shows the saving |
| Premium.AnnualPreferred | app/premium.tsx:113-120 | when any package is annual, the first such is chosen and shows the saving |
| Premium.FallbackOrder | app/premium.tsx:116-120 | without an annual package a monthly one is chosen if any, else the first package |
| Premium.OfferedMonthlyTitled | app/premium.tsx:206-221 | a package selected as monthly, and not named annual, is titled "Monthly" without the saving |
| Premium.HandlePurchase | app/premium.tsx:130-159 | given what the `try` block sees: no selection gives the select-a-plan alert and no purchase; the welcome alert exactly for a successful Pro result; the failure alert exactly for a thrown error the user did not cancel, which `PurchasePackage` never throws (PurchaseFailureSilent) |
| Premium.EmptyOfferingNoPurchase | app/premium.tsx:103-134 | an empty offering leaves nothing selected, so no purchase is attempted |
| Premium.PurchasePackage | services/subscription.ts:88-101 | never throws; success exactly for a completed purchase and Pro exactly when "pro" is then active, so every SDK error becomes `{success: false, isPro: false}` |
| Premium.PurchaseFailureSilent | services/subscription.ts:88-101 | as written, no SDK reply raises the failure alert, and an uncancelled failure raises no alert; the welcome alert exactly for a Pro purchase |
| Premium.CorrectedPurchasePackage | services/subscription.ts:88-101 | a wrapper that returns a purchase as before and passes an error on with its cancellation flag |
| Premium.CorrectedFailureAlerted | app/premium.tsx:130-159 | with the corrected wrapper, the failure alert exactly for an uncancelled failure of a selected purchase, none for a cancellation, the welcome alert as before |
| Premium.Offers | app/premium.tsx:113-118 | the two `find` tests; FindFirst and AutoSelect state their use |
| Premium.TitledAnnual | app/premium.tsx:207 | the annual title test; PackageTitle and PackageSavings state it |
| Premium.TitledMonthly | app/premium.tsx:210 | the monthly title test; PackageTitle states it |
| PostBuild.AddBaseTag | scripts/post-build.js:36-41 | a page containing "<base", or with no "<head>", is unchanged; otherwise the base tag follows the first "<head>" |
| PostBuild.AddBaseTagPresent | scripts/post-build.js:36-41 | the result contains "<base" whenever the page contained "<base" or "<head>" |
| PostBuild.InsertedHasBase | scripts/post-build.js:37-40 | the inserted text contains "<base" |
| PostBuild.ContainsMiddle | scripts/post-build.js:37-40 | an inserted middle part occurs in the result |
| PostBuild.MissingChar | scripts/post-build.js:36 | a text lacking one of a pattern's characters does not contain the pattern |
| PostBuild.Opening | scripts/post-build.js:46-48 | the matched opening `src="/` or `href="/` ends with a quote and a slash |
| PostBuild.FirstQuote | scripts/post-build.js:46-48 | the position of the first quote, or nothing exactly when there is none |
| PostBuild.MatchAt | scripts/post-build.js:46-48 | a match's path is nonempty and the match fits in the text |
| PostBuild.MatchAtSpec | scripts/post-build.js:46-48 | a match is the opening, a quote-free path and its closing quote |
| PostBuild.ClosingQuote | scripts/post-build.js:46-48 | after a quote-free path, the first quote is the one that closes it |
| PostBuild.MatchAtFront | scripts/post-build.js:46-48 | a nonempty quote-free path between the opening and a quote is matched |
| PostBuild.ReplacementShape | scripts/post-build.js:46-53 | each replacement keeps the match or inserts "cryptoshield/" after its slash |
| PostBuild.SrcLeadText | scripts/post-build.js:46 | the `src` replacement starts with the opening followed by "cryptoshield/" |
| PostBuild.HrefLeadText | scripts/post-build.js:48-53 | the rewritten `href` replacement starts with the opening followed by "cryptoshield/" |
| PostBuild.LeadShape | scripts/post-build.js:46-53 | every replacement starts with the opening, or the opening followed by "cryptoshield/" |
| PostBuild.ReplacementTexts | scripts/post-build.js:46-53 | the replacement texts, with the exemption tested on the path after the slash |
| PostBuild.RewriteMatch | scripts/post-build.js:46-53 | a match at the front is replaced and scanning resumes after it |
| PostBuild.RewriteSkipChar | scripts/post-build.js:46-53 | a character not starting a match is copied |
| PostBuild.RewriteSkip | scripts/post-build.js:46-53 | text without the opening's first character is copied |
| PostBuild.RewriteUntouched | scripts/post-build.js:46-53 | a page without the opening is unchanged |
| PostBuild.MatchShape | scripts/post-build.js:46-48 | a match's text is the opening, the path and a quote |
| PostBuild.MatchOutput | scripts/post-build.js:46-53 | the rewrite of a text starting with a match is the replacement's lead, the path, a quote and the rewritten rest |
| PostBuild.PrefixInLead | scripts/post-build.js:46-53 | a slash-free prefix of a match survives its replacement |
| PostBuild.PrefixKept | scripts/post-build.js:46-53 | a slash-free prefix survives the rewrite |
| PostBuild.SlashInside | scripts/post-build.js:46-53 | an occurrence spanning a slash contains it |
| PostBuild.OccurrenceInMatch | scripts/post-build.js:46-53 | a slash-free occurrence inside a match survives |
| PostBuild.OccurrenceInOpening | scripts/post-build.js:46-53 | an occurrence before the opening's slash is repeated by the replacement |
| PostBuild.OccurrenceInPath | scripts/post-build.js:46-53 | an occurrence that starts in the path lies in the replacement's path, quote and the rewritten rest |
| PostBuild.OccurrenceTail | scripts/post-build.js:46-53 | the part of an occurrence past a cut starts the rest |
| PostBuild.KeepsSubstring | scripts/post-build.js:46-53 | the rewrites keep every slash-free substring, "<base" and "<head>" among them |
| PostBuild.KeepsSubstringAtCopy | scripts/post-build.js:46-53 | where no match starts, an occurrence in the rewritten rest is kept |
| PostBuild.KeepsSubstringAfterMatch | scripts/post-build.js:46-53 | an occurrence in the rewritten text after a match is kept |
| PostBuild.KeepsSubstringInMatch | scripts/post-build.js:46-53 | a slash-free occurrence that starts inside a match is kept |
| PostBuild.InMatchReplaced | scripts/post-build.js:46-53 | a slash-free occurrence that starts inside a match lies in its replacement followed by the rewritten rest |
| PostBuild.ContainsAfter | scripts/post-build.js:46-53 | an occurrence after a cut lies in the text from the cut |
| PostBuild.BaseTagPresent | scripts/post-build.js:32-56 | the output contains "<base" whenever the input contained "<base" or "<head>" |
| PostBuild.UntouchedPage | scripts/post-build.js:32-56 | a page with no "<head>", no `src="/` and no `href="/` is returned unchanged |
| PostBuild.ProcessHtmlFile | scripts/post-build.js:32-56 | `processHtmlFile`; UntouchedPage, BaseTagPresent, SrcRewritten, HrefRewritten and BaseHrefDoubled state what it does |
| PostBuild.RewriteAll | scripts/post-build.js:46-53 | a global regex replace; RewriteMatch, RewriteSkip, RewriteUntouched and KeepsSubstring state it |
| PostBuild.Lead | scripts/post-build.js:46-53 | the text before the path in a replacement; LeadShape states its two shapes |
| PostBuild.Replacement | scripts/post-build.js:46-53 | the text a match becomes; ReplacementShape and ReplacementTexts state it |
| PostBuild.Exempt | scripts/post-build.js:49 | the exemption as written; HrefRewritten and ProtocolRelativeRewritten state its effect |
| PostBuild.QuoteFree | scripts/post-build.js:46-48 | the `[^"]` class; MatchAt states a path has it |
| PostBuild.SrcRewritten | scripts/post-build.js:46 | `src="/X"` becomes `src="/cryptoshield/X"` |
| PostBuild.HrefRewritten | scripts/post-build.js:48-53 | `href="/X"` becomes `href="/cryptoshield/X"` unless X starts with "http", "data:" or "//" |
| PostBuild.NoBaseInHead | scripts/post-build.js:36-40 | on `<head>` the first step inserts the base tag |
| PostBuild.HeadTagReplaced | scripts/post-build.js:37-40 | replacing the first "<head>" of "<head>" gives the head with the base tag |
| PostBuild.SrcPassKeepsBaseTag | scripts/post-build.js:46 | the `src` pass leaves the base tag unchanged |
| PostBuild.BaseTagAtS | scripts/post-build.js:37-40 | the base tag and its path split around their letter `s` |
| PostBuild.BaseTagAtHref | scripts/post-build.js:37-40 | the base tag split around its `href="/` |
| PostBuild.BaseTagAsMatch | scripts/post-build.js:37-53 | the base tag is "<base " followed by an `href="/` match of "cryptoshield/" and ">" |
| PostBuild.TagPathNotExempt | scripts/post-build.js:48-53 | the base tag's path "cryptoshield/" is not exempt |
| PostBuild.HrefPassTagMatch | scripts/post-build.js:48-53 | the `href` pass prefixes the base tag's own path with "/cryptoshield/" |
| PostBuild.HrefPassBaseTag | scripts/post-build.js:48-53 | the `href` pass on the base tag doubles its sub-directory |
| PostBuild.HeadAtH | scripts/post-build.js:37-40 | the head text split around its first letter |
| PostBuild.HeadWithBaseAtH | scripts/post-build.js:37-40 | the inserted head split around its first letter |
| PostBuild.HrefPassHead | scripts/post-build.js:48-53 | the `href` pass copies the text before the base tag and rewrites the tag |
| PostBuild.DoubledTagText | scripts/post-build.js:37-53 | the rewritten tag spells `<base href="/cryptoshield/cryptoshield/">` |
| PostBuild.SrcPassKeepsHead | scripts/post-build.js:46 | the `src` pass leaves the inserted head alone |
| PostBuild.BaseHrefDoubled | scripts/post-build.js:36-53 | as written, `<head>` comes out as `<head>` followed by `<base href="/cryptoshield/cryptoshield/">` |
| PostBuild.ProtocolRelativeUntouchedBySrc | scripts/post-build.js:46 | `href="//a"` passes the `src` step unchanged |
| PostBuild.ProtocolRelativeNoBase | scripts/post-build.js:36-41 | `href="//a"`, which has no `<head>`, passes the base-tag step unchanged |
| PostBuild.ProtocolRelativeLacksHead | scripts/post-build.js:36-41 | `href="//a"` holds no `<head>` |
| PostBuild.ProtocolRelativePieces | scripts/post-build.js:48 | the match's path there is `/a` |
| PostBuild.ProtocolRelativeOutput | scripts/post-build.js:52 | its replacement text |
| PostBuild.ProtocolRelativeRewritten | scripts/post-build.js:48-53 | as written, `href="//a"` becomes `href="/cryptoshield//a"` |
| PostBuild.InsertedHasBaseTag | scripts/post-build.js:37-40 | the inserted text holds the whole base tag |
| PostBuild.BaseTagOpens | scripts/post-build.js:37-40 | the base tag's text starts with "<base" |
| PostBuild.RewritesKeepHead | scripts/post-build.js:46-53 | "<head>" survives both rewrites |
| PostBuild.InsertionHasBaseTag | scripts/post-build.js:37-40 | inserting after "<head>" yields the base tag |
| PostBuild.CorrectedBaseTag | scripts/post-build.js:32-56 | with the corrected step, a page with `<head>` and no `<base` gets the base tag `<base href="/cryptoshield/">` intact |
| PostBuild.CorrectedRewritesKeepHeadTag | scripts/post-build.js:46-53 | the corrected rewrites leave "<head>" alone |
| PostBuild.CorrectedKeepsProtocolRelative | scripts/post-build.js:48-53 | the corrected exemption keeps `href="//X"` |
| PostBuild.CorrectedSingleBase | scripts/post-build.js:32-56 | the corrected step turns `<head>` into `<head>` followed by a single `<base href="/cryptoshield/">` |
| PostBuild.CorrectedProtocolRelativeKept | scripts/post-build.js:48-53 | the corrected step leaves `href="//a"` as it is |
| PostBuild.CorrectedProtocolRelativeHref | scripts/post-build.js:48-53 | the corrected `href` pass keeps `href="//a"` |
| PostBuild.ExemptCorrected | scripts/post-build.js:49 | the exemption with the `//` test corrected for the capture; CorrectedKeepsProtocolRelative states it |
| PostBuild.ProcessHtmlFileCorrected | scripts/post-build.js:32-56 | the corrected step; CorrectedSingleBase and CorrectedProtocolRelativeKept state it |

## Left out

- The billing SDK (initialisation, customer info, offerings, purchase, restore, log-in and log-out) is a foreign service. Only its answer to `isPro` is modelled, as `Subscription.BillingAnswer`, and its purchase reply, as `Premium.SdkReply`. `Premium.PurchasePackage` models the wrapper that turns that reply into what `handlePurchase` sees.
- The device key-value store is asynchronous and stores JSON or decimal strings. Each store is an in-memory map of parsed values, and every store operation succeeds.
- The catch-and-log paths are not modelled, among them the "Failed to apply promo code" answer (services/promoCode.ts:137-143) and the empty history returned on a read error (services/storage.ts:43-44).
- A failure swallowed inside `markCodeAsUsed` (services/promoCode.ts:263-271) can leave a redeemed code unrecorded. This is an I/O failure mode and is not modelled.
- `Date.now()` is an explicit parameter: `now`, `later`, `idClock` and `stampClock`. `getScanUsage` reads the clock up to three times; the model uses one reading.
- Concurrency is not modelled: overlapping awaits, such as a double tap between `canScan` and the increment.
- Letter case maps only the ASCII letters. JavaScript's Unicode case mapping is not modelled.
- Strings.IntToString: JavaScript's exponent notation from 10^21 up is not modelled, and neither are non-integer numbers.
- I18n.Substitute: parameter names are literal text. Regular-expression metacharacters in a name and `$` patterns in a value are not modelled.
- I18n.CountCategory: a `count` given as text always selects "many". JavaScript would coerce a numeric text through `%`.
- Translation parameters are a list in `Object.keys` order. JavaScript's moving of integer-like keys to the front is not modelled.
- In the translation tree, arrays, inherited properties and the `typeof` checks of the walk are not modelled. The translation files are not part of this model; they are a parameter.
- The React `useTranslation` hook is UI glue and is left out.
- ScanResults.ContractAddress: a non-string route parameter is not modelled.
- The `Math.min(100, …)` bound of the risk score is kept in the model, and it never binds, because a remainder mod 100 is below 100.
- The premium screen's rendering, animation and `handleRestore` are UI around the billing SDK and are left out. The alert texts are named values.
- The checklist's confirmation dialog is the `confirmed` parameter of `ChecklistScreen.Reset`.
- The post-build script's file-system reads and writes, the `.nojekyll` and `404.html` files and `process.exit` are I/O and are left out.
- The Telegram bridge, theme synchronisation, haptics, animated components, static content and the AI calls are outside the modelled core.
- The screens' JSX and styles are not modelled.

## Findings

| source | as written | input that shows it | evidently intended | confidence | as-written member | corrected member |
|---|---|---|---|---|---|---|
| services/subscription.ts:183-185 | `incrementScanCount` writes a reset time only when none is stored, so a stored time that has passed is never replaced; every read then reports count 0 | a store with reset time `T` and any scans at times `>= T`: the stored count stays 1 and `canScan` keeps reporting 3 remaining | after an expired window, the increment starts a new window ending 24 hours later, so the quota is enforced again | not executed | Subscription.StaleWindowNeverRefreshed | Subscription.CommittedQuotaRefusesFourthScan |
| scripts/post-build.js:36-53 | the base tag is inserted before the `href` rewrite, which then matches the tag's own `href="/cryptoshield/"` | `<head>` becomes `<head>` followed by `<base href="/cryptoshield/cryptoshield/">` | a single `<base href="/cryptoshield/">` | not executed | PostBuild.BaseHrefDoubled | PostBuild.CorrectedSingleBase |
| scripts/post-build.js:48-49 | the `//` exemption is tested on the path after the first slash, so it only sees `/x` for `href="//x"` | `href="//a"` becomes `href="/cryptoshield//a"` | protocol-relative addresses left alone, like the `http` and `data:` ones | not executed | PostBuild.ProtocolRelativeRewritten | PostBuild.CorrectedProtocolRelativeKept |
| services/subscription.ts:93-100 | `purchasePackage` catches every SDK error, cancelled or not, and returns `{success: false, isPro: false}`, so the `catch` with the "Purchase Failed" alert in `handlePurchase` (app/premium.tsx:152-155) never runs | a selected package whose purchase fails without the user cancelling (a declined payment): no alert at all | the user is told that the purchase failed, unless they cancelled it | not executed | Premium.PurchaseFailureSilent | Premium.CorrectedFailureAlerted |
