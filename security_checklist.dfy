/**
 * The security-checklist screen: fifteen items in five categories, seven of
 * them critical; the set of checked ids, a progress percentage, a colour and
 * a label derived from it, and the items grouped by category for display.
 */
module SecurityChecklist {
  datatype ChecklistItem = ChecklistItem(id: string, category: string, title: string, description: string, critical: bool)

  /** The theme colours the score picks. */
  datatype ScoreColor = DangerColor | WarningColor | SuccessColor

  const ChecklistItems: seq<ChecklistItem> := [
    ChecklistItem("1", "Contract Security", "Contract Verified", "Contract source code is verified on blockchain explorer", true),
    ChecklistItem("2", "Contract Security", "Audit Completed", "Smart contract has been audited by reputable firm", true),
    ChecklistItem("3", "Contract Security", "No Honeypot", "Tokens can be sold freely without restrictions", true),
    ChecklistItem("4", "Ownership & Control", "Ownership Renounced", "Contract owner has renounced ownership rights", false),
    ChecklistItem("5", "Ownership & Control", "No Mint Function", "Owner cannot mint new tokens arbitrarily", true),
    ChecklistItem("6", "Ownership & Control", "No Proxy Contract", "Contract logic cannot be changed via proxy", false),
    ChecklistItem("7", "Liquidity Security", "Liquidity Locked", "LP tokens are locked for adequate timeframe", true),
    ChecklistItem("8", "Liquidity Security", "Sufficient Liquidity", "Adequate liquidity for trading volume", false),
    ChecklistItem("9", "Liquidity Security", "No Backdoor Withdrawals", "No hidden functions to remove liquidity", true),
    ChecklistItem("10", "Team & Transparency", "Team Doxxed", "Team members have revealed their identities", false),
    ChecklistItem("11", "Team & Transparency", "Active Communication", "Team regularly updates community", false),
    ChecklistItem("12", "Team & Transparency", "Whitepaper Available", "Comprehensive whitepaper with clear roadmap", false),
    ChecklistItem("13", "Token Distribution", "Fair Launch", "No presale or team allocation concerns", false),
    ChecklistItem("14", "Token Distribution", "Distributed Holdings", "No single wallet holds excessive percentage", true),
    ChecklistItem("15", "Token Distribution", "Vesting Schedule", "Team tokens subject to vesting period", false)
  ]

  const CriticalMissingLabel := "CRITICAL ITEMS MISSING"
  const NeedsImprovementLabel := "NEEDS IMPROVEMENT"
  const GoodLabel := "GOOD SECURITY"
  const ExcellentLabel := "EXCELLENT SECURITY"

  // ---------------------------------------------------------------- toggling

  /** `toggleItem(id)` on a copy of the set: removed when present, added when absent. */
  function Toggled(checked: set<string>, id: string): (r: set<string>)
    ensures id in r <==> id !in checked
    ensures forall x :: x != id ==> (x in r <==> x in checked)
  {
    if id in checked then checked - {id} else checked + {id}
  }

  /** Toggling twice gives the set back. */
  lemma ToggleTwice(checked: set<string>, id: string)
    ensures Toggled(Toggled(checked, id), id) == checked
  {
  }

  // ---------------------------------------------------------------- counts and progress

  const CatalogIds: set<string> := {"1", "2", "3", "4", "5", "6", "7", "8", "9", "10", "11", "12", "13", "14", "15"}
  const CriticalIds: set<string> := {"1", "2", "3", "5", "7", "9", "14"}

  /** `items.filter(item => item.critical)`, from position `k` on. */
  function CriticalFrom(items: seq<ChecklistItem>, k: nat): (r: seq<ChecklistItem>)
    requires k <= |items|
    ensures |r| <= |items| - k
    decreases |items| - k
  {
    if k == |items| then []
    else (if items[k].critical then [items[k]] else []) + CriticalFrom(items, k + 1)
  }

  function Critical(items: seq<ChecklistItem>): seq<ChecklistItem> {
    CriticalFrom(items, 0)
  }

  /** `items.filter(item => checked.has(item.id)).length`, from position `k` on. */
  function CountCheckedFrom(items: seq<ChecklistItem>, checked: set<string>, k: nat): (n: nat)
    requires k <= |items|
    ensures n <= |items| - k
    decreases |items| - k
  {
    if k == |items| then 0
    else (if items[k].id in checked then 1 else 0) + CountCheckedFrom(items, checked, k + 1)
  }

  function CountChecked(items: seq<ChecklistItem>, checked: set<string>): nat {
    CountCheckedFrom(items, checked, 0)
  }

  /** Fewer checked than listed exactly when some listed item is unchecked. */
  lemma {:induction false} CountCheckedShort(items: seq<ChecklistItem>, checked: set<string>, k: nat)
    requires k <= |items|
    ensures CountCheckedFrom(items, checked, k) < |items| - k <==> exists i :: k <= i < |items| && items[i].id !in checked
    decreases |items| - k
  {
    if k < |items| {
      CountCheckedShort(items, checked, k + 1);
    }
  }

  /** The catalog's seven critical items, in catalog order. */
  lemma CriticalOfCatalog()
    ensures Critical(ChecklistItems) == [ChecklistItems[0], ChecklistItems[1], ChecklistItems[2], ChecklistItems[4],
                                         ChecklistItems[6], ChecklistItems[8], ChecklistItems[13]]
  {
    var c := ChecklistItems;
    assert c[0].critical && c[1].critical && c[2].critical && !c[3].critical && c[4].critical;
    assert !c[5].critical && c[6].critical && !c[7].critical && c[8].critical && !c[9].critical;
    assert !c[10].critical && !c[11].critical && !c[12].critical && c[13].critical && !c[14].critical;
    CriticalOfFlags(c);
  }

  /** The critical filter over fifteen items flagged as the catalog's are. */
  lemma CriticalOfFlags(c: seq<ChecklistItem>)
    requires |c| == 15
    requires c[0].critical && c[1].critical && c[2].critical && !c[3].critical && c[4].critical
    requires !c[5].critical && c[6].critical && !c[7].critical && c[8].critical && !c[9].critical
    requires !c[10].critical && !c[11].critical && !c[12].critical && c[13].critical && !c[14].critical
    ensures Critical(c) == [c[0], c[1], c[2], c[4], c[6], c[8], c[13]]
  {
    assert CriticalFrom(c, 14) == [];
    assert CriticalFrom(c, 13) == [c[13]];
    assert CriticalFrom(c, 12) == [c[13]];
    assert CriticalFrom(c, 11) == [c[13]];
    assert CriticalFrom(c, 10) == [c[13]];
    assert CriticalFrom(c, 9) == [c[13]];
    assert CriticalFrom(c, 8) == [c[8], c[13]];
    assert CriticalFrom(c, 7) == [c[8], c[13]];
    assert CriticalFrom(c, 6) == [c[6], c[8], c[13]];
    assert CriticalFrom(c, 5) == [c[6], c[8], c[13]];
    assert CriticalFrom(c, 4) == [c[4], c[6], c[8], c[13]];
    assert CriticalFrom(c, 3) == [c[4], c[6], c[8], c[13]];
    assert CriticalFrom(c, 2) == [c[2], c[4], c[6], c[8], c[13]];
    assert CriticalFrom(c, 1) == [c[1], c[2], c[4], c[6], c[8], c[13]];
  }

  /** Their ids are the seven critical ids. */
  lemma CriticalIdsOfCatalog()
    ensures |Critical(ChecklistItems)| == 7
    ensures var cr := Critical(ChecklistItems);
            && cr[0].id == "1" && cr[1].id == "2" && cr[2].id == "3" && cr[3].id == "5"
            && cr[4].id == "7" && cr[5].id == "9" && cr[6].id == "14"
  {
    CriticalOfCatalog();
  }

  /** The catalog's fifteen ids are distinct. */
  lemma CatalogIdsFacts()
    ensures |ChecklistItems| == 15 && |CatalogIds| == 15 && |CriticalIds| == 7
    ensures forall i :: 0 <= i < 15 ==> ChecklistItems[i].id in CatalogIds
  {
    CatalogIdsCount();
    CriticalIdsCount();
    CatalogIdsListed();
  }

  lemma CatalogIdsCount()
    ensures |CatalogIds| == 15
  {
    var one := {"1", "2", "3", "4", "5", "6", "7", "8", "9"};
    var two := {"10", "11", "12", "13", "14", "15"};
    OneDigitIds();
    TwoDigitIds();
    assert CatalogIds == one + two;
    assert one * two == {} by {
      forall x | x in one ensures |x| == 1 {}
      forall x | x in two ensures |x| == 2 {}
    }
    DisjointUnionSize(one, two);
  }

  lemma OneDigitIds()
    ensures |{"1", "2", "3", "4", "5", "6", "7", "8", "9"}| == 9
  {
  }

  lemma TwoDigitIds()
    ensures |{"10", "11", "12", "13", "14", "15"}| == 6
  {
  }

  lemma DisjointUnionSize(a: set<string>, b: set<string>)
    requires a * b == {}
    ensures |a + b| == |a| + |b|
  {
  }

  lemma CriticalIdsCount()
    ensures |CriticalIds| == 7
  {
  }

  lemma CatalogIdsListed()
    ensures |ChecklistItems| == 15
    ensures forall i :: 0 <= i < 15 ==> ChecklistItems[i].id in CatalogIds
  {
  }

  /** `Math.round(checked / 15 * 100)` in integers: twenty thirds of `checked`, rounded half up. */
  function Progress(totalChecked: nat): (p: nat)
    ensures p * 6 <= 40 * totalChecked + 3 < (p + 1) * 6
  {
    (40 * totalChecked + 3) / 6
  }

  /** The rounding is the nearest integer to 100 * checked / 15. */
  lemma ProgressNearest(k: nat)
    ensures 2 * (Progress(k) * 15) <= 200 * k + 15 && 200 * k < 2 * (Progress(k) * 15) + 15
  {
  }

  lemma ProgressThresholds(k: nat)
    ensures Progress(k) < 60 <==> k < 9
    ensures Progress(k) < 80 <==> k < 12
    ensures Progress(k) == 0 <==> k == 0
    ensures k <= 15 ==> Progress(k) <= 100 && (Progress(k) == 100 <==> k == 15)
  {
  }

  function CheckedCritical(checked: set<string>): nat {
    CountChecked(Critical(ChecklistItems), checked)
  }

  /** `getScoreColor`'s decision, on the critical count, the number of critical items and the progress. */
  function ColorOf(criticalChecked: nat, criticalTotal: nat, progress: nat): ScoreColor {
    if criticalChecked < criticalTotal then DangerColor
    else if progress < 60 then WarningColor
    else SuccessColor
  }

  /** `getScoreLabel`'s decision, on the same three numbers. */
  function LabelOf(criticalChecked: nat, criticalTotal: nat, progress: nat): string {
    if criticalChecked < criticalTotal then CriticalMissingLabel
    else if progress < 60 then NeedsImprovementLabel
    else if progress < 80 then GoodLabel
    else ExcellentLabel
  }

  /** `getScoreColor`. */
  function Color(checked: set<string>): ScoreColor {
    ColorOf(CheckedCritical(checked), |Critical(ChecklistItems)|, Progress(|checked|))
  }

  /** `getScoreLabel`. */
  function Label(checked: set<string>): string {
    LabelOf(CheckedCritical(checked), |Critical(ChecklistItems)|, Progress(|checked|))
  }

  // ---------------------------------------------------------------- properties of the score

  /** For checked ids from the catalog, progress is a percentage: 0 only when nothing and 100 only when everything is checked. */
  lemma ProgressBounds(checked: set<string>)
    requires checked <= CatalogIds
    ensures 0 <= Progress(|checked|) <= 100
    ensures Progress(|checked|) == 0 <==> checked == {}
    ensures Progress(|checked|) == 100 <==> checked == CatalogIds
  {
    CatalogIdsFacts();
    assert |checked| <= 15 by {
      assert |checked| <= |CatalogIds| by { SubsetCardinality(checked, CatalogIds); }
    }
    ProgressThresholds(|checked|);
    if |checked| == 15 {
      SubsetCardinality(checked, CatalogIds);
    }
  }

  lemma SubsetCardinality(a: set<string>, b: set<string>)
    requires a <= b
    ensures |a| <= |b|
    ensures |a| == |b| ==> a == b
  {
    assert b == a + (b - a);
    assert |b| == |a| + |b - a|;
    if |a| == |b| {
      assert |b - a| == 0;
      assert b - a == {};
    }
  }

  /** For any seven items carrying the critical ids, fewer are checked than listed exactly when a critical id is unchecked. */
  lemma CriticalCountShort(cr: seq<ChecklistItem>, checked: set<string>)
    requires |cr| == 7
    requires cr[0].id == "1" && cr[1].id == "2" && cr[2].id == "3" && cr[3].id == "5"
    requires cr[4].id == "7" && cr[5].id == "9" && cr[6].id == "14"
    ensures CountChecked(cr, checked) < |cr| <==> !(CriticalIds <= checked)
  {
    CountCheckedShort(cr, checked, 0);
    if !(CriticalIds <= checked) {
      var x :| x in CriticalIds && x !in checked;
      if x == "1" { assert cr[0].id !in checked; }
      else if x == "2" { assert cr[1].id !in checked; }
      else if x == "3" { assert cr[2].id !in checked; }
      else if x == "5" { assert cr[3].id !in checked; }
      else if x == "7" { assert cr[4].id !in checked; }
      else if x == "9" { assert cr[5].id !in checked; }
      else { assert cr[6].id !in checked; }
    } else {
      forall i | 0 <= i < 7 ensures cr[i].id in checked {
        assert cr[i].id in CriticalIds;
      }
    }
  }

  /** The label warns of missing critical items exactly when one of the seven critical ids is unchecked, whatever the progress. */
  lemma CriticalMissingIff(checked: set<string>)
    ensures Label(checked) == CriticalMissingLabel <==> !(CriticalIds <= checked)
  {
    CriticalIdsOfCatalog();
    CriticalCountShort(Critical(ChecklistItems), checked);
  }

  /** With every critical item checked, the label follows the checked count: below 9, below 12, or from 12 on. */
  lemma LabelByCount(checked: set<string>)
    requires CriticalIds <= checked
    ensures Label(checked) == (if |checked| < 9 then NeedsImprovementLabel
                               else if |checked| < 12 then GoodLabel
                               else ExcellentLabel)
  {
    CriticalMissingIff(checked);
    ProgressThresholds(|checked|);
  }

  /** The four labels differ in their first letter. */
  lemma LabelsDistinct()
    ensures CriticalMissingLabel[0] == 'C' && NeedsImprovementLabel[0] == 'N'
    ensures GoodLabel[0] == 'G' && ExcellentLabel[0] == 'E'
  {
  }

  /** The colour is the danger colour exactly when the label is the critical-missing one. */
  lemma ColorMatchesLabel(checked: set<string>)
    ensures Color(checked) == DangerColor <==> Label(checked) == CriticalMissingLabel
    ensures Color(checked) == WarningColor <==> Label(checked) == NeedsImprovementLabel
  {
    ColorOfMatchesLabelOf(CheckedCritical(checked), |Critical(ChecklistItems)|, Progress(|checked|));
  }

  lemma ColorOfMatchesLabelOf(criticalChecked: nat, criticalTotal: nat, progress: nat)
    ensures ColorOf(criticalChecked, criticalTotal, progress) == DangerColor
            <==> LabelOf(criticalChecked, criticalTotal, progress) == CriticalMissingLabel
    ensures ColorOf(criticalChecked, criticalTotal, progress) == WarningColor
            <==> LabelOf(criticalChecked, criticalTotal, progress) == NeedsImprovementLabel
  {
    LabelsDistinct();
  }

  /** After a reset nothing is checked: progress 0 and critical items missing. */
  lemma ResetOutcome()
    ensures Progress(0) == 0 && Label({}) == CriticalMissingLabel && Color({}) == DangerColor
  {
    CriticalMissingIff({});
  }

  /** The seven critical items alone are not enough for a good score; all fifteen give the best one. */
  lemma ScoreExamples()
    ensures Label(CriticalIds) == NeedsImprovementLabel
    ensures Label(CatalogIds) == ExcellentLabel
  {
    CatalogIdsFacts();
    LabelByCount(CriticalIds);
    LabelByCount(CatalogIds);
  }

  // ---------------------------------------------------------------- grouping

  /** The categories of the first `k` items, in order of first appearance. */
  function CategoriesUpTo(items: seq<ChecklistItem>, k: nat): (r: seq<string>)
    requires k <= |items|
    ensures forall i, j :: 0 <= i < j < |r| ==> r[i] != r[j]
  {
    if k == 0 then []
    else
      var r := CategoriesUpTo(items, k - 1);
      if items[k - 1].category in r then r else r + [items[k - 1].category]
  }

  /** The categories listed are exactly those of the first `k` items. */
  lemma {:induction false} CategoriesUpToMembers(items: seq<ChecklistItem>, k: nat)
    requires k <= |items|
    ensures forall c :: c in CategoriesUpTo(items, k) <==> exists i :: 0 <= i < k && items[i].category == c
  {
    if k > 0 {
      CategoriesUpToMembers(items, k - 1);
    }
  }

  function Categories(items: seq<ChecklistItem>): seq<string> {
    CategoriesUpTo(items, |items|)
  }

  /** The items of one category among the first `k`, in their order. */
  function InCategoryUpTo(items: seq<ChecklistItem>, category: string, k: nat): (r: seq<ChecklistItem>)
    requires k <= |items|
    ensures |r| <= k
  {
    if k == 0 then []
    else InCategoryUpTo(items, category, k - 1) + (if items[k - 1].category == category then [items[k - 1]] else [])
  }

  function InCategory(items: seq<ChecklistItem>, category: string): seq<ChecklistItem> {
    InCategoryUpTo(items, category, |items|)
  }

  /** A group holds exactly the items of its category. */
  lemma {:induction false} InCategoryMembers(items: seq<ChecklistItem>, category: string, k: nat)
    requires k <= |items|
    ensures forall x :: x in InCategoryUpTo(items, category, k) <==> x in items[..k] && x.category == category
  {
    if k > 0 {
      InCategoryMembers(items, category, k - 1);
      assert items[..k] == items[..k - 1] + [items[k - 1]];
    }
  }

  lemma {:induction false} InCategoryAbsent(items: seq<ChecklistItem>, category: string, k: nat)
    requires k <= |items|
    requires forall i :: 0 <= i < k ==> items[i].category != category
    ensures InCategoryUpTo(items, category, k) == []
  {
    if k > 0 {
      InCategoryAbsent(items, category, k - 1);
    }
  }

  /** The groups after the first `k` items: one per category seen, holding that category's items so far. */
  function GroupsUpTo(items: seq<ChecklistItem>, k: nat): (g: map<string, seq<ChecklistItem>>)
    requires k <= |items|
  {
    map c | c in CategoriesUpTo(items, k) :: InCategoryUpTo(items, c, k)
  }

  /**
   * `groupedItems`: one pass over the items, opening a group for each new
   * category and appending each item to its category's group. The groups
   * come out in the object's key order, the order the categories first appear.
   */
  method GroupByCategory(items: seq<ChecklistItem>) returns (order: seq<string>, groups: map<string, seq<ChecklistItem>>)
    ensures order == Categories(items)
    ensures forall c :: c in groups <==> c in order
    ensures forall c :: c in groups ==> groups[c] == InCategory(items, c)
  {
    order := [];
    groups := map[];
    var i := 0;
    while i < |items|
      invariant 0 <= i <= |items|
      invariant order == CategoriesUpTo(items, i)
      invariant groups == GroupsUpTo(items, i)
    {
      var item := items[i];
      GroupsStep(items, i);
      CategoriesStep(items, i);
      if item.category !in groups {
        groups := groups[item.category := []];
        order := order + [item.category];
      }
      groups := groups[item.category := groups[item.category] + [item]];
      i := i + 1;
    }
  }

  /** The loop's step on the groups: a new category opens an empty group, then the item joins its category's group. */
  function Appended(groups: map<string, seq<ChecklistItem>>, item: ChecklistItem): (g: map<string, seq<ChecklistItem>>)
    ensures g.Keys == groups.Keys + {item.category}
  {
    var g1 := if item.category in groups then groups else groups[item.category := []];
    g1[item.category := g1[item.category] + [item]]
  }

  /** The categories grow by the next item's when it is new. */
  lemma CategoriesStep(items: seq<ChecklistItem>, i: nat)
    requires i < |items|
    ensures var o := CategoriesUpTo(items, i);
            CategoriesUpTo(items, i + 1) == if items[i].category in o then o else o + [items[i].category]
  {
  }

  /** Each group after the step is its category's items among the first `i + 1`. */
  lemma GroupsStepValue(items: seq<ChecklistItem>, i: nat, c: string)
    requires i < |items| && c in CategoriesUpTo(items, i + 1)
    ensures var next := Appended(GroupsUpTo(items, i), items[i]);
            c in next && next[c] == InCategoryUpTo(items, c, i + 1)
  {
    var cat := items[i].category;
    CategoriesStep(items, i);
    if c == cat && cat !in CategoriesUpTo(items, i) {
      CategoriesUpToMembers(items, i);
      InCategoryAbsent(items, cat, i);
    }
  }

  /** One more item takes the groups to those of one more item. */
  lemma GroupsStep(items: seq<ChecklistItem>, i: nat)
    requires i < |items|
    ensures GroupsUpTo(items, i + 1) == Appended(GroupsUpTo(items, i), items[i])
  {
    var next := Appended(GroupsUpTo(items, i), items[i]);
    CategoriesStep(items, i);
    forall c | c in CategoriesUpTo(items, i + 1) ensures c in next && next[c] == InCategoryUpTo(items, c, i + 1) {
      GroupsStepValue(items, i, c);
    }
  }

  /** Each item lands in exactly one group, its own category's, and no group holds a foreign item. */
  lemma GroupingPartitions(items: seq<ChecklistItem>, k: nat)
    requires k < |items|
    ensures items[k].category in Categories(items)
    ensures items[k] in InCategory(items, items[k].category)
    ensures forall c :: items[k] in InCategory(items, c) ==> c == items[k].category
  {
    assert items[..|items|] == items;
    CategoriesUpToMembers(items, |items|);
    forall c ensures items[k] in InCategory(items, c) <==> c == items[k].category {
      InCategoryMembers(items, c, |items|);
    }
  }

  /** Three more items of a new category add it to the categories. */
  lemma BlockStep(s: seq<ChecklistItem>, prefix: seq<string>, x: string, k: nat)
    requires k + 3 <= |s|
    requires CategoriesUpTo(s, k) == prefix && x !in prefix
    requires s[k].category == x && s[k + 1].category == x && s[k + 2].category == x
    ensures CategoriesUpTo(s, k + 3) == prefix + [x]
  {
    assert CategoriesUpTo(s, k + 1) == prefix + [x];
    assert CategoriesUpTo(s, k + 2) == prefix + [x];
  }

  /** In a list without repeats, no element occurs before its own position. */
  lemma NotInEarlier(cats: seq<string>, j: nat)
    requires j < |cats|
    requires forall i, i' :: 0 <= i < i' < |cats| ==> cats[i] != cats[i']
    ensures cats[j] !in cats[..j]
  {
  }

  /** Items in blocks of three, one category per block, with distinct categories: the first `j` blocks give the first `j` categories. */
  lemma {:induction false} BlockCategoriesUpTo(s: seq<ChecklistItem>, cats: seq<string>, j: nat)
    requires |s| == 3 * |cats| && j <= |cats|
    requires forall b :: 0 <= b < |cats| ==> s[3 * b].category == cats[b] && s[3 * b + 1].category == cats[b] && s[3 * b + 2].category == cats[b]
    requires forall i, i' :: 0 <= i < i' < |cats| ==> cats[i] != cats[i']
    ensures CategoriesUpTo(s, 3 * j) == cats[..j]
  {
    if j > 0 {
      BlockCategoriesUpTo(s, cats, j - 1);
      var x := cats[j - 1];
      NotInEarlier(cats, j - 1);
      assert cats[..j] == cats[..j - 1] + [x];
      var k := 3 * (j - 1);
      assert s[k].category == x && s[k + 1].category == x && s[k + 2].category == x;
      BlockStep(s, cats[..j - 1], x, k);
      assert k + 3 == 3 * j;
    }
  }

  function Min(a: nat, b: nat): nat {
    if a <= b then a else b
  }

  /** When a category's items are exactly those in positions `lo` to `hi`, its group among the first `k` items is the part of that run below `k`. */
  lemma {:induction false} InCategoryRunUpTo(s: seq<ChecklistItem>, x: string, lo: nat, hi: nat, k: nat)
    requires lo <= hi <= |s| && k <= |s|
    requires forall i :: 0 <= i < |s| ==> (s[i].category == x <==> lo <= i < hi)
    ensures InCategoryUpTo(s, x, k) == s[Min(lo, k)..Min(hi, k)]
  {
    if k > 0 {
      InCategoryRunUpTo(s, x, lo, hi, k - 1);
      if lo <= k - 1 < hi {
        assert s[lo..k] == s[lo..k - 1] + [s[k - 1]];
      }
    }
  }

  /** A category whose items form one run: its group is that run. */
  lemma InCategoryRun(s: seq<ChecklistItem>, x: string, lo: nat, hi: nat)
    requires lo <= hi <= |s|
    requires forall i :: 0 <= i < |s| ==> (s[i].category == x <==> lo <= i < hi)
    ensures InCategory(s, x) == s[lo..hi]
  {
    InCategoryRunUpTo(s, x, lo, hi, |s|);
  }

  /** Items laid out in blocks of three, one category per block, with distinct categories: each category's items are its block. */
  lemma BlockRuns(s: seq<ChecklistItem>, cats: seq<string>, j: nat)
    requires |s| == 3 * |cats| && j < |cats|
    requires forall i :: 0 <= i < |s| ==> s[i].category == cats[i / 3]
    requires forall i, i' :: 0 <= i < i' < |cats| ==> cats[i] != cats[i']
    ensures forall i :: 0 <= i < |s| ==> (s[i].category == cats[j] <==> 3 * j <= i < 3 * j + 3)
  {
    forall i | 0 <= i < |s| ensures s[i].category == cats[j] <==> 3 * j <= i < 3 * j + 3 {
      assert s[i].category == cats[i / 3];
      assert i / 3 == j <==> 3 * j <= i < 3 * j + 3;
    }
  }

  const CategoryNames: seq<string> := ["Contract Security", "Ownership & Control", "Liquidity Security", "Team & Transparency", "Token Distribution"]

  lemma CategoryNamesDistinct()
    ensures forall i, j :: 0 <= i < j < |CategoryNames| ==> CategoryNames[i] != CategoryNames[j]
  {
    var n := CategoryNames;
    assert n[0][0] == 'C' && n[1][0] == 'O' && n[2][0] == 'L' && n[3][0] == 'T' && n[4][0] == 'T';
    assert n[3][1] == 'e' && n[4][1] == 'o';
  }

  /** The catalog lists its items category by category, three to each. */
  lemma CatalogBlocks()
    ensures forall i :: 0 <= i < |ChecklistItems| ==> ChecklistItems[i].category == CategoryNames[i / 3]
  {
  }

  /** Fifteen items in five blocks of distinct categories: the categories in block order, each group its block. */
  lemma BlockGrouping(s: seq<ChecklistItem>, cats: seq<string>)
    requires |s| == 15 && |cats| == 5
    requires forall i :: 0 <= i < |s| ==> s[i].category == cats[i / 3]
    requires forall i, i' :: 0 <= i < i' < |cats| ==> cats[i] != cats[i']
    ensures Categories(s) == cats
    ensures forall j :: 0 <= j < 5 ==> InCategory(s, cats[j]) == s[3 * j..3 * j + 3]
  {
    BlockCategories(s, cats);
    forall j | 0 <= j < 5 ensures InCategory(s, cats[j]) == s[3 * j..3 * j + 3] {
      BlockGroup(s, cats, j);
    }
  }

  /** The categories of items in blocks of three are the blocks' categories. */
  lemma BlockCategories(s: seq<ChecklistItem>, cats: seq<string>)
    requires |s| == 3 * |cats|
    requires forall i :: 0 <= i < |s| ==> s[i].category == cats[i / 3]
    requires forall i, i' :: 0 <= i < i' < |cats| ==> cats[i] != cats[i']
    ensures Categories(s) == cats
  {
    forall b | 0 <= b < |cats|
      ensures s[3 * b].category == cats[b] && s[3 * b + 1].category == cats[b] && s[3 * b + 2].category == cats[b]
    {
      assert (3 * b) / 3 == b && (3 * b + 1) / 3 == b && (3 * b + 2) / 3 == b;
    }
    BlockCategoriesUpTo(s, cats, |cats|);
    assert cats[..|cats|] == cats;
  }

  /** Each block of three is its category's group. */
  lemma BlockGroup(s: seq<ChecklistItem>, cats: seq<string>, j: nat)
    requires |s| == 3 * |cats| && j < |cats|
    requires forall i :: 0 <= i < |s| ==> s[i].category == cats[i / 3]
    requires forall i, i' :: 0 <= i < i' < |cats| ==> cats[i] != cats[i']
    ensures InCategory(s, cats[j]) == s[3 * j..3 * j + 3]
  {
    BlockRuns(s, cats, j);
    InCategoryRun(s, cats[j], 3 * j, 3 * j + 3);
  }

  /**
   * The catalog's five categories in the order they first appear, each group
   * holding its three items in catalog order.
   */
  lemma CatalogGrouping()
    ensures Categories(ChecklistItems) == CategoryNames
    ensures forall j :: 0 <= j < 5 ==> InCategory(ChecklistItems, CategoryNames[j]) == ChecklistItems[3 * j..3 * j + 3]
  {
    CatalogBlocks();
    CategoryNamesDistinct();
    BlockGrouping(ChecklistItems, CategoryNames);
  }

  // ---------------------------------------------------------------- the screen state

  /** Toggling a catalog id keeps the checked set within the catalog, so the progress stays a percentage. */
  lemma ToggleKeepsCatalog(checked: set<string>, id: string)
    requires checked <= CatalogIds && id in CatalogIds
    ensures Toggled(checked, id) <= CatalogIds
    ensures 0 <= Progress(|Toggled(checked, id)|) <= 100
  {
    ProgressBounds(Toggled(checked, id));
  }

  /** The screen's one piece of state: the set of checked item ids. */
  class ChecklistScreen {
    var checkedItems: set<string>

    ghost predicate Valid()
      reads this
    {
      checkedItems <= CatalogIds
    }

    /** The screen opens with nothing checked. */
    constructor()
      ensures checkedItems == {} && Valid()
    {
      checkedItems := {};
    }

    /** `toggleItem`: copy the set, flip one id, store the copy. */
    method ToggleItem(id: string)
      modifies this
      ensures checkedItems == Toggled(old(checkedItems), id)
      ensures old(Valid()) && id in CatalogIds ==> Valid()
    {
      var newChecked := checkedItems;
      if id in newChecked {
        newChecked := newChecked - {id};
      } else {
        newChecked := newChecked + {id};
      }
      checkedItems := newChecked;
    }

    /** `handleReset`: the set is cleared only when the confirmation is accepted. */
    method Reset(confirmed: bool)
      modifies this
      ensures checkedItems == if confirmed then {} else old(checkedItems)
      ensures old(Valid()) ==> Valid()
    {
      if confirmed {
        checkedItems := {};
      }
    }

    function ScoreLabel(): (r: string)
      reads this
      ensures r == CriticalMissingLabel <==> !(CriticalIds <= checkedItems)
    {
      CriticalMissingIff(checkedItems);
      Label(checkedItems)
    }

    function ScoreColor(): (r: ScoreColor)
      reads this
      ensures r == DangerColor <==> !(CriticalIds <= checkedItems)
    {
      CriticalMissingIff(checkedItems);
      ColorMatchesLabel(checkedItems);
      Color(checkedItems)
    }

    function ProgressPercent(): (p: nat)
      reads this
      ensures Valid() ==> p <= 100 && (p == 100 <==> checkedItems == CatalogIds)
    {
      if checkedItems <= CatalogIds then ProgressBounds(checkedItems); Progress(|checkedItems|) else Progress(|checkedItems|)
    }
  }
}
