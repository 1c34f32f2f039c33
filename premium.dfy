/**
 * The premium screen's choices about subscription packages: which package is
 * selected when the offerings arrive, how a package is titled, which one
 * advertises a saving, and the guard in front of a purchase.
 */
module Premium {
  import opened Wrappers
  import opened Strings

  /** The parts of a store package the screen reads. */
  datatype Package = Package(identifier: string, packageType: string, productTitle: string)

  const AnnualIdentifier := "$rc_annual"
  const MonthlyIdentifier := "$rc_monthly"
  const AnnualType := "ANNUAL"
  const MonthlyType := "MONTHLY"

  datatype Period = AnnualPeriod | MonthlyPeriod

  /** The `find` predicates of `loadOfferings`: the store's own identifier or the package type. */
  predicate Offers(p: Package, period: Period) {
    match period
    case AnnualPeriod => p.identifier == AnnualIdentifier || p.packageType == AnnualType
    case MonthlyPeriod => p.identifier == MonthlyIdentifier || p.packageType == MonthlyType
  }

  /** `availablePackages.find(...)`: the first package offering the period. */
  function FindFirst(packages: seq<Package>, period: Period): (r: Option<Package>)
    ensures r.None? <==> forall i :: 0 <= i < |packages| ==> !Offers(packages[i], period)
    ensures r.Some? ==> exists i :: 0 <= i < |packages| && packages[i] == r.value && Offers(r.value, period)
                                 && forall j :: 0 <= j < i ==> !Offers(packages[j], period)
  {
    if |packages| == 0 then None
    else if Offers(packages[0], period) then Some(packages[0])
    else
      var r := FindFirst(packages[1..], period);
      assert forall i :: 1 <= i < |packages| ==> packages[i] == packages[1..][i - 1];
      if r.Some? then
        var i :| 0 <= i < |packages[1..]| && packages[1..][i] == r.value && Offers(r.value, period)
               && forall j :: 0 <= j < i ==> !Offers(packages[1..][j], period);
        assert packages[i + 1] == r.value;
        r
      else r
  }

  /** `annualPackage || monthlyPackage || availablePackages[0] || null`. */
  function AutoSelect(packages: seq<Package>): (r: Option<Package>)
    ensures r.None? <==> |packages| == 0
    ensures r.Some? ==> r.value in packages
  {
    var annual := FindFirst(packages, AnnualPeriod);
    var monthly := FindFirst(packages, MonthlyPeriod);
    if annual.Some? then annual
    else if monthly.Some? then monthly
    else if |packages| > 0 then Some(packages[0])
    else None
  }

  /**
   * What `loadOfferings` leaves selected: the automatic choice when the
   * current offering lists packages (an empty list included), otherwise the
   * previous selection.
   */
  function SelectionAfterLoad(available: Option<seq<Package>>, previous: Option<Package>): (r: Option<Package>)
    ensures available.None? ==> r == previous
    ensures available.Some? ==> r == AutoSelect(available.value)
  {
    if available.Some? then AutoSelect(available.value) else previous
  }

  /** `getPackageTitle`'s first test, shared with `getPackageSavings`. */
  predicate TitledAnnual(p: Package) {
    p.packageType == AnnualType || Contains(p.identifier, "annual")
  }

  predicate TitledMonthly(p: Package) {
    p.packageType == MonthlyType || Contains(p.identifier, "monthly")
  }

  /** `getPackageTitle`. */
  function PackageTitle(p: Package): (r: string)
    ensures r == "Annual" && !TitledAnnual(p) ==> p.productTitle == "Annual"
    ensures TitledAnnual(p) ==> r == "Annual"
    ensures !TitledAnnual(p) && TitledMonthly(p) ==> r == "Monthly"
    ensures !TitledAnnual(p) && !TitledMonthly(p) ==> r == (if p.productTitle == "" then "Subscription" else p.productTitle)
    ensures r != ""
  {
    if TitledAnnual(p) then "Annual"
    else if TitledMonthly(p) then "Monthly"
    else if p.productTitle != "" then p.productTitle
    else "Subscription"
  }

  /** `getPackageSavings`: the banner exactly for those the title rule calls annual. */
  function PackageSavings(p: Package): (r: Option<string>)
    ensures r.Some? <==> TitledAnnual(p)
    ensures r.Some? ==> r.value == "Save 40%"
  {
    if TitledAnnual(p) then Some("Save 40%") else None
  }

  /** The store's annual identifier contains "annual", so every package the selection counts as annual is titled so. */
  lemma AnnualIdentifierTitled()
    ensures Contains(AnnualIdentifier, "annual")
  {
    ContainsAt(AnnualIdentifier, "annual", 4);
  }

  lemma MonthlyIdentifierTitled()
    ensures Contains(MonthlyIdentifier, "monthly")
  {
    ContainsAt(MonthlyIdentifier, "monthly", 4);
  }

  lemma OfferedAnnualTitled(p: Package)
    requires Offers(p, AnnualPeriod)
    ensures PackageTitle(p) == "Annual" && PackageSavings(p) == Some("Save 40%")
  {
    AnnualIdentifierTitled();
  }

  /** The automatic choice prefers annual: if any package is offered as annual, the first such is chosen, and it shows the saving. */
  lemma AnnualPreferred(packages: seq<Package>, i: nat)
    requires i < |packages| && Offers(packages[i], AnnualPeriod)
    ensures AutoSelect(packages).Some? && Offers(AutoSelect(packages).value, AnnualPeriod)
    ensures AutoSelect(packages) == FindFirst(packages, AnnualPeriod)
    ensures PackageSavings(AutoSelect(packages).value) == Some("Save 40%")
  {
    OfferedAnnualTitled(AutoSelect(packages).value);
  }

  /** Without an annual package, a monthly one is chosen when there is one; otherwise the first package. */
  lemma FallbackOrder(packages: seq<Package>)
    requires forall i :: 0 <= i < |packages| ==> !Offers(packages[i], AnnualPeriod)
    ensures (exists i :: 0 <= i < |packages| && Offers(packages[i], MonthlyPeriod)) ==>
              AutoSelect(packages).Some? && Offers(AutoSelect(packages).value, MonthlyPeriod)
    ensures (forall i :: 0 <= i < |packages| ==> !Offers(packages[i], MonthlyPeriod)) && |packages| > 0 ==>
              AutoSelect(packages) == Some(packages[0])
  {
  }

  /** A package the selection takes as monthly and not annual is titled "Monthly", unless its identifier mentions "annual". */
  lemma OfferedMonthlyTitled(p: Package)
    requires Offers(p, MonthlyPeriod) && !TitledAnnual(p)
    ensures PackageTitle(p) == "Monthly" && PackageSavings(p) == None
  {
    MonthlyIdentifierTitled();
  }

  // ---------------------------------------------------------------- the purchase guard

  /** What the billing SDK's purchase does: it buys and lists the active entitlements, or it throws. */
  datatype SdkReply = SdkPurchased(activeEntitlements: set<string>) | SdkError(userCancelled: bool)

  /** What `handlePurchase`'s `try` block can see: a returned result, or a thrown error. */
  datatype PurchaseResponse = Completed(success: bool, isPro: bool) | Failed(userCancelled: bool)

  /**
   * `SubscriptionService.purchasePackage`: a purchase reports success and
   * whether "pro" is active; every error, cancelled or not, is caught and
   * reported as `{success: false, isPro: false}`, so the call never throws.
   */
  function PurchasePackage(reply: SdkReply): (r: PurchaseResponse)
    ensures r.Completed?
    ensures r.success <==> reply.SdkPurchased?
    ensures r.isPro <==> reply.SdkPurchased? && "pro" in reply.activeEntitlements
  {
    match reply
    case SdkPurchased(active) => Completed(true, "pro" in active)
    case SdkError(_) => Completed(false, false)
  }

  /**
   * A purchase wrapper that lets an error through, with its cancellation flag,
   * so that `handlePurchase`'s `catch` can tell the user about it.
   */
  function CorrectedPurchasePackage(reply: SdkReply): (r: PurchaseResponse)
    ensures r.Failed? <==> reply.SdkError?
    ensures r.Failed? ==> r.userCancelled == reply.userCancelled
    ensures r.Completed? ==> r.success && (r.isPro <==> "pro" in reply.activeEntitlements)
  {
    match reply
    case SdkPurchased(active) => Completed(true, "pro" in active)
    case SdkError(cancelled) => Failed(cancelled)
  }

  datatype Alert = SelectPlanAlert | WelcomeAlert | PurchaseFailedAlert | NoAlert

  /** What `handlePurchase` did: the package it tried to buy, if any, and the alert it raised. */
  datatype PurchaseOutcome = PurchaseOutcome(attempted: Option<Package>, alert: Alert)

  /**
   * `handlePurchase`, given what its `try` block sees. The `catch` branch is
   * modelled on `Failed`, which the wrapper `PurchasePackage` never produces.
   */
  function HandlePurchase(selected: Option<Package>, response: PurchaseResponse): (o: PurchaseOutcome)
    ensures o.attempted == selected
    ensures selected.None? <==> o.alert == SelectPlanAlert
    ensures o.alert == WelcomeAlert <==> selected.Some? && response == Completed(true, true)
    ensures o.alert == PurchaseFailedAlert <==> selected.Some? && response == Failed(false)
  {
    if selected.None? then PurchaseOutcome(None, SelectPlanAlert)
    else match response
      case Completed(success, isPro) =>
        PurchaseOutcome(selected, if success && isPro then WelcomeAlert else NoAlert)
      case Failed(userCancelled) =>
        PurchaseOutcome(selected, if userCancelled then NoAlert else PurchaseFailedAlert)
  }

  /**
   * As written, the failure alert is never shown: whatever the store's SDK
   * replies, the wrapper hands `handlePurchase` a result, never an error, and
   * a failed purchase that the user did not cancel raises no alert at all.
   */
  lemma PurchaseFailureSilent(selected: Option<Package>, reply: SdkReply)
    ensures HandlePurchase(selected, PurchasePackage(reply)).alert != PurchaseFailedAlert
    ensures selected.Some? && reply == SdkError(false) ==> HandlePurchase(selected, PurchasePackage(reply)).alert == NoAlert
    ensures HandlePurchase(selected, PurchasePackage(reply)).alert == WelcomeAlert <==>
      selected.Some? && reply.SdkPurchased? && "pro" in reply.activeEntitlements
  {
  }

  /**
   * With the corrected wrapper, a selected purchase that fails without the
   * user cancelling raises the failure alert, a cancellation raises none, and
   * the welcome alert is unchanged.
   */
  lemma CorrectedFailureAlerted(selected: Option<Package>, reply: SdkReply)
    ensures HandlePurchase(selected, CorrectedPurchasePackage(reply)).alert == PurchaseFailedAlert <==>
      selected.Some? && reply == SdkError(false)
    ensures selected.Some? && reply == SdkError(true) ==> HandlePurchase(selected, CorrectedPurchasePackage(reply)).alert == NoAlert
    ensures HandlePurchase(selected, CorrectedPurchasePackage(reply)).alert == WelcomeAlert <==>
      selected.Some? && reply.SdkPurchased? && "pro" in reply.activeEntitlements
  {
  }

  /** An empty offering leaves nothing selected, so a purchase is never attempted from it. */
  lemma EmptyOfferingNoPurchase(previous: Option<Package>, response: PurchaseResponse)
    ensures HandlePurchase(SelectionAfterLoad(Some([]), previous), response) == PurchaseOutcome(None, SelectPlanAlert)
  {
  }
}
