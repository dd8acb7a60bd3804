/** Unbundling: what a parser worker reports of a bundle's data items, and what the data index learns from it. */
module Unbundle {
  import opened ByteStrings
  import DataCache
  import opened Options
  import WorkerPool

  /** What the bundle library tells of a data item; an empty id is a missing one. */
  datatype DataItemInfo = DataItemInfo(id: string, dataOffset: nat, dataSize: nat)

  datatype Normalized = Normalized(id: string, index: nat, dataOffset: nat, dataSize: nat, hashed: Bytes)

  datatype Report = ItemMatched(item: Normalized) | Complete(itemCount: nat, matchedItemCount: nat) | Failed

  type Filter = Normalized -> bool

  /** The bytes that are hashed for an item: none for an empty one, else up to the inclusive end. */
  function ItemBytes(bundle: Bytes, item: DataItemInfo): Bytes {
    if item.dataSize == 0 then [] else DataCache.Slice(bundle, DataCache.Region(item.dataOffset, item.dataSize))
  }

  function Normalize(bundle: Bytes, items: seq<DataItemInfo>, index: nat): Normalized
    requires index < |items|
  {
    var item := items[index];
    Normalized(item.id, index, item.dataOffset, item.dataSize, ItemBytes(bundle, item))
  }

  predicate Reported(bundle: Bytes, items: seq<DataItemInfo>, filter: Filter, index: nat)
    requires index < |items|
  {
    items[index].id != "" && filter(Normalize(bundle, items, index))
  }

  /** The reports of the matching items among the first `n`. */
  function Matched(bundle: Bytes, items: seq<DataItemInfo>, filter: Filter, n: nat): seq<Report>
    requires n <= |items|
  {
    if n == 0 then []
    else
      Matched(bundle, items, filter, n - 1)
      + if Reported(bundle, items, filter, n - 1) then [ItemMatched(Normalize(bundle, items, n - 1))] else []
  }

  /** The first item whose data cannot be read or whose filter throws; items without an id are skipped before that. */
  function FirstFailure(items: seq<DataItemInfo>, fails: nat -> bool, from: nat): (n: nat)
    requires from <= |items|
    ensures from <= n <= |items|
    ensures n < |items| ==> items[n].id != "" && fails(n)
    ensures forall k: nat :: from <= k < n ==> items[k].id == "" || !fails(k)
    decreases |items| - from
  {
    if from == |items| || (items[from].id != "" && fails(from)) then from else FirstFailure(items, fails, from + 1)
  }

  /** What the worker reports: the matches up to the first failure, then the counts, or the failure. */
  function Reports(bundle: Bytes, parsed: Option<seq<DataItemInfo>>, fails: nat -> bool, filter: Filter): seq<Report> {
    match parsed
    case None => [Failed]
    case Some(items) =>
      var n := FirstFailure(items, fails, 0);
      var matched := Matched(bundle, items, filter, n);
      matched + [if n < |items| then Failed else Complete(|items|, |matched|)]
  }

  /**
   The worker's loop. `parsed` is what the bundle library makes of the stream, `None` when it throws; `fails` says at
   which items reading the data or the filter throws. An exception ends the loop with the error report.
   */
  method ParseBundle(bundle: Bytes, parsed: Option<seq<DataItemInfo>>, fails: nat -> bool, filter: Filter)
    returns (reports: seq<Report>)
    ensures reports == Reports(bundle, parsed, fails, filter)
  {
    if parsed.None? {
      return [Failed];
    }
    var items := parsed.value;
    reports := [];
    var matchedItemCount := 0;
    for index := 0 to |items|
      invariant reports == Matched(bundle, items, filter, index) && matchedItemCount == |reports|
      invariant FirstFailure(items, fails, 0) == FirstFailure(items, fails, index)
    {
      var dataItem := items[index];
      if dataItem.id == "" {
        continue;
      }
      if fails(index) {
        reports := reports + [Failed];
        return;
      }
      var dataItemHash := [];
      if dataItem.dataOffset <= dataItem.dataOffset + dataItem.dataSize - 1 {
        dataItemHash := DataCache.Slice(bundle, DataCache.Region(dataItem.dataOffset, dataItem.dataSize));
      }
      var normalized := Normalized(dataItem.id, index, dataItem.dataOffset, dataItem.dataSize, dataItemHash);
      if filter(normalized) {
        matchedItemCount := matchedItemCount + 1;
        reports := reports + [ItemMatched(normalized)];
      }
    }
    reports := reports + [Complete(|items|, matchedItemCount)];
  }

  /**
   Every item with an id that passes the filter is reported exactly once, under its own index, and nothing else is.
   */
  lemma {:induction false} ReportsAreTheMatches(bundle: Bytes, items: seq<DataItemInfo>, filter: Filter, n: nat)
    requires n <= |items|
    ensures var s := Matched(bundle, items, filter, n);
      && (forall i :: 0 <= i < |s| ==>
            && s[i].ItemMatched? && s[i].item.index < n && s[i].item == Normalize(bundle, items, s[i].item.index)
            && items[s[i].item.index].id != "" && filter(s[i].item))
      && (forall i, j :: 0 <= i < j < |s| ==> s[i].item.index < s[j].item.index)
      && (forall k: nat :: k < n && items[k].id != "" && filter(Normalize(bundle, items, k)) ==>
        ItemMatched(Normalize(bundle, items, k)) in s)
  {
    if n > 0 {
      ReportsAreTheMatches(bundle, items, filter, n - 1);
    }
  }

  /** The items among the first `n` that match. */
  ghost function Matches(bundle: Bytes, items: seq<DataItemInfo>, filter: Filter, n: nat): set<nat>
    requires n <= |items|
  {
    set k: nat | k < n && items[k].id != "" && filter(Normalize(bundle, items, k))
  }

  lemma MatchesGrow(bundle: Bytes, items: seq<DataItemInfo>, filter: Filter, n: nat)
    requires n < |items|
    ensures |Matches(bundle, items, filter, n + 1)|
      == |Matches(bundle, items, filter, n)| + if Reported(bundle, items, filter, n) then 1 else 0
  {
    var before, after := Matches(bundle, items, filter, n), Matches(bundle, items, filter, n + 1);
    assert after == if Reported(bundle, items, filter, n) then before + {n} else before;
  }

  lemma {:induction false} MatchedCounts(bundle: Bytes, items: seq<DataItemInfo>, filter: Filter, n: nat)
    requires n <= |items|
    ensures |Matched(bundle, items, filter, n)| == |Matches(bundle, items, filter, n)|
  {
    if n > 0 {
      MatchedCounts(bundle, items, filter, n - 1);
      MatchesGrow(bundle, items, filter, n - 1);
    }
  }

  /** A bundle read through without a failure is reported with the number of its items and of those that matched. */
  lemma CompleteCounts(bundle: Bytes, items: seq<DataItemInfo>, fails: nat -> bool, filter: Filter)
    requires forall k: nat :: k < |items| && items[k].id != "" ==> !fails(k)
    ensures var s := Reports(bundle, Some(items), fails, filter);
      s != [] && s[|s| - 1] == Complete(|items|, |Matches(bundle, items, filter, |items|)|)
  {
    MatchedCounts(bundle, items, filter, |items|);
  }

  // ---------------------------------------------------------------- the pool

  function ToMessage(r: Report): WorkerPool.Message {
    match r
    case ItemMatched(_) => WorkerPool.Message.ItemMatched
    case Complete(_, _) => WorkerPool.Result
    case Failed => WorkerPool.Failure
  }

  /** Matches, then one report that is none. */
  predicate EndsOnce(reports: seq<Report>) {
    reports != [] && forall i :: 0 <= i < |reports| ==> (reports[i].ItemMatched? <==> i < |reports| - 1)
  }

  lemma {:induction false} MatchesOnly(bundle: Bytes, items: seq<DataItemInfo>, filter: Filter, n: nat)
    requires n <= |items|
    ensures forall i :: 0 <= i < |Matched(bundle, items, filter, n)| ==>
      Matched(bundle, items, filter, n)[i].ItemMatched?
  {
    if n > 0 {
      MatchesOnly(bundle, items, filter, n - 1);
    }
  }

  lemma ReportsEndOnce(bundle: Bytes, parsed: Option<seq<DataItemInfo>>, fails: nat -> bool, filter: Filter)
    ensures EndsOnce(Reports(bundle, parsed, fails, filter))
  {
    if parsed.Some? {
      MatchesOnly(bundle, parsed.value, filter, FirstFailure(parsed.value, fails, 0));
    }
  }

  function Deliver(p: WorkerPool.Pool, w: WorkerPool.WorkerId, reports: seq<Report>): WorkerPool.Pool
    requires w in p.slots && p.slots[w].Some? && EndsOnce(reports)
    decreases |reports|
  {
    var q := WorkerPool.OnMessage(WorkerPool.Ans104, p, w, ToMessage(reports[0]));
    if |reports| == 1 then q else Deliver(q, w, reports[1..])
  }

  lemma {:induction false} DeliveryIsTheLast(p: WorkerPool.Pool, w: WorkerPool.WorkerId, reports: seq<Report>)
    requires w in p.slots && p.slots[w].Some? && EndsOnce(reports)
    ensures Deliver(p, w, reports) == WorkerPool.OnMessage(WorkerPool.Ans104, p, w, ToMessage(reports[|reports| - 1]))
    decreases |reports|
  {
    if |reports| > 1 {
      assert WorkerPool.OnMessage(WorkerPool.Ans104, p, w, WorkerPool.Message.ItemMatched) == p;
      DeliveryIsTheLast(p, w, reports[1..]);
    }
  }

  /**
   What a worker reports of a bundle settles its job exactly once, at the end: rejected exactly when something failed.
   */
  lemma ReportsSettleOnce(
      p: WorkerPool.Pool, w: WorkerPool.WorkerId, bundle: Bytes, parsed: Option<seq<DataItemInfo>>, fails: nat -> bool,
      filter: Filter)
    requires w in p.slots && p.slots[w].Some?
    ensures EndsOnce(Reports(bundle, parsed, fails, filter))
    ensures var failed := parsed.None? || exists k: nat :: k < |parsed.value| && parsed.value[k].id != "" && fails(k);
      Deliver(p, w, Reports(bundle, parsed, fails, filter)).settled
        == p.settled
          + [WorkerPool.Settlement(p.slots[w].value, if failed then WorkerPool.Rejected else WorkerPool.Resolved)]
  {
    ReportsEndOnce(bundle, parsed, fails, filter);
    DeliveryIsTheLast(p, w, Reports(bundle, parsed, fails, filter));
  }

  // ---------------------------------------------------------------- the data index

  function OtherParents(rows: seq<DataCache.ParentRow>, parentId: DataCache.Id): (r: seq<DataCache.ParentRow>)
    ensures forall row :: row in r <==> row in rows && row.parentId != parentId
  {
    if rows == [] then []
    else (if rows[0].parentId == parentId then [] else [rows[0]]) + OtherParents(rows[1..], parentId)
  }

  /** `saveNestedDataId`: a later row for the same parent replaces the earlier one. */
  function SaveNested(w: DataCache.World, id: DataCache.Id, parentId: DataCache.Id, item: Normalized): DataCache.World {
    var row := DataCache.ParentRow(parentId, item.dataOffset, item.dataSize);
    w.(parents := w.parents[id := [row] + if id in w.parents then OtherParents(w.parents[id], parentId) else []])
  }

  /** The row of the item in this parent is the one saved, and rows in other parents and of other items stay. */
  lemma SavedNestedRows(
      w: DataCache.World, id: DataCache.Id, parentId: DataCache.Id, item: Normalized, row: DataCache.ParentRow)
    ensures var w' := SaveNested(w, id, parentId, item);
      && id in w'.parents
      && (row in w'.parents[id] <==>
            if row.parentId == parentId then row == DataCache.ParentRow(parentId, item.dataOffset, item.dataSize)
            else id in w.parents && row in w.parents[id])
      && w'.parents - {id} == w.parents - {id}
  {
  }

  /** What the data indexer saves of a reported item: its hash and size, and where in its parent it lies. */
  function IndexDataItem(
      w: DataCache.World, digest: Bytes -> DataCache.Hash, id: DataCache.Id, parentId: DataCache.Id,
      item: Normalized): DataCache.World {
    SaveNested(DataCache.SaveAttributes(w, id, digest(item.hashed), item.dataSize), id, parentId, item)
  }

  lemma SavingIsHonest(
      w: DataCache.World, digest: Bytes -> DataCache.Hash, content: DataCache.Id -> Bytes,
      id: DataCache.Id, parentId: DataCache.Id, item: Normalized)
    requires DataCache.Honest(w, digest, content)
    requires DataCache.IsPart(content(id), content(parentId),
      DataCache.ParentRow(parentId, item.dataOffset, item.dataSize))
    ensures DataCache.Honest(SaveNested(w, id, parentId, item), digest, content)
  {
    var row := DataCache.ParentRow(parentId, item.dataOffset, item.dataSize);
    var w' := SaveNested(w, id, parentId, item);
    forall i, r | i in w'.parents && r in w'.parents[i] ensures DataCache.IsPart(content(i), content(r.parentId), r) {
      if i == id && r != row {
        assert i in w.parents && r in w.parents[i];
      }
    }
  }

  /**
   Indexing a reported item that lies within its bundle keeps everything the data index knows true, so what the cache
   then serves for it is still its own bytes.
   */
  lemma IndexingIsHonest(
      w: DataCache.World, digest: Bytes -> DataCache.Hash, content: DataCache.Id -> Bytes,
      id: DataCache.Id, parentId: DataCache.Id, items: seq<DataItemInfo>, index: nat)
    requires DataCache.Honest(w, digest, content) && DataCache.Injective(digest) && index < |items|
    requires items[index].dataOffset + items[index].dataSize <= |content(parentId)|
    requires content(id) == ItemBytes(content(parentId), items[index])
    ensures DataCache.Honest(IndexDataItem(w, digest, id, parentId, Normalize(content(parentId), items, index)),
      digest, content)
  {
    var item := Normalize(content(parentId), items, index);
    var d := DataCache.Delivery(item.hashed, item.dataSize, true, true, false);
    DataCache.KeepIsHonest(w, digest, content, id, d);
    SavingIsHonest(DataCache.SaveAttributes(w, id, digest(item.hashed), item.dataSize), digest, content, id, parentId,
      item);
  }
}
