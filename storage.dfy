/**
 * The scan history: a most-recent-first list of at most 50 past scans kept
 * under one key of the device's key-value store.
 */
module Storage {
  import opened Wrappers
  import opened Strings

  datatype ScanStatus = Safe | Critical | Warning
  datatype ScanType = Contract | Website

  datatype ScanHistoryItem = ScanHistoryItem(
    id: string, name: string, address: string, date: string,
    timestamp: int, status: ScanStatus, score: int, kind: ScanType)

  /** What a caller hands to `saveScan`: an item without its id and timestamp. */
  datatype NewScan = NewScan(name: string, address: string, date: string, status: ScanStatus, score: int, kind: ScanType)

  const StorageKey := "@cryptoshield_scan_history"
  const HistoryLimit := 50

  /** The store holds the parsed list under each key. */
  type Store = map<string, seq<ScanHistoryItem>>

  /** `getHistory`: the stored list, empty when nothing is stored. */
  function History(store: Store): seq<ScanHistoryItem> {
    if StorageKey in store then store[StorageKey] else []
  }

  /** `slice(0, n)`: the first `n` elements, or all when there are fewer. */
  function Take<T>(s: seq<T>, n: nat): (r: seq<T>)
    ensures |r| == if |s| < n then |s| else n
    ensures r == s[..|r|]
  {
    if |s| <= n then s else s[..n]
  }

  /** The item `saveScan` builds: the caller's fields, the id from one clock reading and the timestamp from another. */
  function Stamped(scan: NewScan, idClock: nat, stampClock: int): (item: ScanHistoryItem)
    ensures item.id == NatToString(idClock) && item.timestamp == stampClock
    ensures item.name == scan.name && item.address == scan.address && item.date == scan.date
    ensures item.status == scan.status && item.score == scan.score && item.kind == scan.kind
  {
    ScanHistoryItem(NatToString(idClock), scan.name, scan.address, scan.date, stampClock, scan.status, scan.score, scan.kind)
  }

  /**
   * The list after saving `item` onto `history`: the item first, then the
   * older entries in their order, cut to the limit.
   */
  function Saved(history: seq<ScanHistoryItem>, item: ScanHistoryItem): (r: seq<ScanHistoryItem>)
    ensures |r| <= HistoryLimit && |r| == if |history| < HistoryLimit then |history| + 1 else HistoryLimit
    ensures r[0] == item
    ensures forall i :: 1 <= i < |r| ==> r[i] == history[i - 1]
  {
    Take([item] + history, HistoryLimit)
  }

  /** `history.find(item => item.id === id)`: the first entry with that id. */
  function FindById(history: seq<ScanHistoryItem>, id: string): (r: Option<ScanHistoryItem>)
    ensures r.None? <==> forall i :: 0 <= i < |history| ==> history[i].id != id
    ensures r.Some? ==> exists i :: 0 <= i < |history| && history[i] == r.value && r.value.id == id
                                 && forall j :: 0 <= j < i ==> history[j].id != id
  {
    if |history| == 0 then None
    else if history[0].id == id then Some(history[0])
    else
      var r := FindById(history[1..], id);
      assert forall i :: 1 <= i < |history| ==> history[i] == history[1..][i - 1];
      if r.Some? then
        var i :| 0 <= i < |history[1..]| && history[1..][i] == r.value && r.value.id == id
               && forall j :: 0 <= j < i ==> history[1..][j].id != id;
        assert history[i + 1] == r.value;
        r
      else r
  }

  /** The history after saving each scan of `items` in turn, the first saved first. */
  function SaveAll(history: seq<ScanHistoryItem>, items: seq<ScanHistoryItem>): seq<ScanHistoryItem>
    decreases |items|
  {
    if |items| == 0 then history else SaveAll(Saved(history, items[0]), items[1..])
  }

  function Reversed<T>(s: seq<T>): (r: seq<T>)
    ensures |r| == |s|
    ensures forall i :: 0 <= i < |s| ==> r[i] == s[|s| - 1 - i]
  {
    if |s| == 0 then [] else Reversed(s[1..]) + [s[0]]
  }

  /** Cutting the tail first does not change what the final cut keeps. */
  lemma TakeOfTake<T>(x: seq<T>, y: seq<T>, n: nat)
    ensures Take(x + Take(y, n), n) == Take(x + y, n)
  {
    var a := Take(x + Take(y, n), n);
    var b := Take(x + y, n);
    assert |a| == |b|;
    forall i | 0 <= i < |a|
      ensures a[i] == b[i]
    {
      if i < |x| {
        assert a[i] == x[i] && b[i] == x[i];
      } else {
        assert a[i] == Take(y, n)[i - |x|] == y[i - |x|];
      }
    }
  }

  /**
   * Keeping the last 50: however many scans are saved, the history is the
   * saved ones newest first followed by the earlier history, cut to 50
   * (starting from a history within the limit, as every save leaves it).
   */
  lemma {:induction false} SaveAllKeepsNewest(history: seq<ScanHistoryItem>, items: seq<ScanHistoryItem>)
    requires |history| <= HistoryLimit
    ensures SaveAll(history, items) == Take(Reversed(items) + history, HistoryLimit)
    decreases |items|
  {
    if |items| == 0 {
      assert Reversed(items) + history == history;
    } else {
      var rest := items[1..];
      var h1 := Saved(history, items[0]);
      assert SaveAll(history, items) == SaveAll(h1, rest);
      assert h1 == Take([items[0]] + history, HistoryLimit);
      SaveAllKeepsNewest(h1, rest);
      TakeOfTake(Reversed(rest), [items[0]] + history, HistoryLimit);
      assert Reversed(items) == Reversed(rest) + [items[0]];
      assert Reversed(rest) + ([items[0]] + history) == Reversed(items) + history;
    }
  }

  /** The newest save is the one `getScanById` finds for its id, whatever older entries share that id. */
  lemma SavedItemFound(history: seq<ScanHistoryItem>, item: ScanHistoryItem)
    ensures FindById(Saved(history, item), item.id) == Some(item)
  {
  }

  /** The history service over the device store; the clock readings are passed in. */
  class ScanHistory {
    var store: Store

    ghost predicate Valid()
      reads this
    {
      |History(store)| <= HistoryLimit
    }

    constructor(persisted: Store)
      ensures store == persisted
    {
      store := persisted;
    }

    /** `saveScan`: build the item, put it first, keep the first 50, write the list back. */
    method SaveScan(scan: NewScan, idClock: nat, stampClock: int)
      modifies this
      ensures store == old(store)[StorageKey := Saved(History(old(store)), Stamped(scan, idClock, stampClock))]
      ensures Valid()
    {
      var history := GetHistory();
      var newScan := ScanHistoryItem(NatToString(idClock), scan.name, scan.address, scan.date,
                                     stampClock, scan.status, scan.score, scan.kind);
      history := [newScan] + history;
      var limitedHistory := if |history| <= HistoryLimit then history else history[..HistoryLimit];
      store := store[StorageKey := limitedHistory];
    }

    method GetHistory() returns (history: seq<ScanHistoryItem>)
      ensures history == History(store)
    {
      if StorageKey in store {
        history := store[StorageKey];
      } else {
        history := [];
      }
    }

    method ClearHistory()
      modifies this
      ensures store == old(store) - {StorageKey}
      ensures History(store) == [] && Valid()
    {
      store := store - {StorageKey};
    }

    /** `getScanById`: a front-to-back search of the history. */
    method GetScanById(id: string) returns (found: Option<ScanHistoryItem>)
      ensures found == FindById(History(store), id)
    {
      var history := GetHistory();
      var i := 0;
      while i < |history|
        invariant 0 <= i <= |history|
        invariant FindById(history[i..], id) == FindById(history, id)
      {
        if history[i].id == id {
          return Some(history[i]);
        }
        assert history[i..][1..] == history[i + 1..];
        i := i + 1;
      }
      found := None;
    }
  }
}
