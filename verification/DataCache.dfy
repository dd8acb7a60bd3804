/** The read-through data cache: an item is served from its own file or as a slice of the file of any ancestor. */
module DataCache {
  import opened ByteStrings
  import opened Integers
  import opened Options

  type Id(==,!new)
  type Hash(==,!new)

  datatype Region = Region(offset: nat, size: nat)
  datatype ParentRow = ParentRow(parentId: Id, offset: nat, size: nat)
  datatype Parent = Parent(id: Id, hash: Option<Hash>, offset: nat, size: nat)
  datatype Found = Found(bytes: Bytes, size: nat)

  /** The files by hash, and the tables of hashes, of ids, and of parents. */
  datatype World = World(
    store: map<Hash, Bytes>, sizes: map<Hash, nat>, ids: map<Id, Hash>, parents: map<Id, seq<ParentRow>>)

  // ---------------------------------------------------------------- reading

  function Slice(b: Bytes, r: Region): Bytes {
    b[Min(r.offset, |b|)..Min(r.offset + r.size, |b|)]
  }

  /** The data store: an empty region is refused, since its inclusive end lies before its start. */
  function StoreGet(w: World, hash: Hash, region: Option<Region>): Option<Bytes> {
    if hash !in w.store then None
    else match region
      case None => Some(w.store[hash])
      case Some(r) => if r.size == 0 then None else Some(Slice(w.store[hash], r))
  }

  /** The first row whose parent is a known id. */
  function FirstKnown(w: World, rows: seq<ParentRow>): (r: Option<ParentRow>)
    ensures r.Some? ==> r.value in rows && r.value.parentId in w.ids
  {
    if rows == [] then None
    else if rows[0].parentId in w.ids then Some(rows[0])
    else FirstKnown(w, rows[1..])
  }

  function GetDataParent(w: World, id: Id): Option<Parent> {
    if id !in w.parents then None
    else match FirstKnown(w, w.parents[id])
      case None => None
      case Some(row) =>
        var hash := w.ids[row.parentId];
        Some(Parent(row.parentId, if hash in w.sizes then Some(hash) else None, row.offset, row.size))
  }

  /** Row `i` is the first whose parent is a known id. */
  predicate FirstKnownAt(w: World, rows: seq<ParentRow>, i: nat) {
    i < |rows| && rows[i].parentId in w.ids && forall j :: 0 <= j < i ==> rows[j].parentId !in w.ids
  }

  lemma {:induction false} FirstKnownIs(w: World, rows: seq<ParentRow>)
    ensures FirstKnown(w, rows).None? ==> forall j :: 0 <= j < |rows| ==> rows[j].parentId !in w.ids
    ensures FirstKnown(w, rows).Some? ==>
      exists i: nat :: FirstKnownAt(w, rows, i) && rows[i] == FirstKnown(w, rows).value
    decreases |rows|
  {
    if rows != [] && rows[0].parentId !in w.ids {
      FirstKnownIs(w, rows[1..]);
      if FirstKnown(w, rows).Some? {
        var i: nat :| FirstKnownAt(w, rows[1..], i) && rows[1..][i] == FirstKnown(w, rows).value;
        assert FirstKnownAt(w, rows, i + 1);
      }
    } else if rows != [] {
      assert FirstKnownAt(w, rows, 0);
    }
  }

  /**
   A parent is found exactly when some row of the item names a known id: the first such row, with the parent's hash if
   its size is known too.
   */
  lemma ParentIsFound(w: World, id: Id)
    ensures GetDataParent(w, id).Some? <==>
      id in w.parents && exists row :: row in w.parents[id] && row.parentId in w.ids
    ensures GetDataParent(w, id).Some? ==>
      var p := GetDataParent(w, id).value;
      && (exists i: nat :: FirstKnownAt(w, w.parents[id], i) && w.parents[id][i] == ParentRow(p.id, p.offset, p.size))
      && (p.hash == Some(w.ids[p.id]) <==> w.ids[p.id] in w.sizes) && (p.hash == None <==> w.ids[p.id] !in w.sizes)
  {
    if id in w.parents {
      FirstKnownIs(w, w.parents[id]);
    }
  }

  function Offset(region: Option<Region>): nat {
    if region.Some? then region.value.offset else 0
  }

  /** The parent relation is well founded: what a lookup answers lies lower. */
  ghost predicate Ranked(w: World, rank: Id -> nat) {
    forall id :: GetDataParent(w, id).Some? ==> rank(GetDataParent(w, id).value.id) < rank(id)
  }

  /** So it is when every row of the table says so, whatever else the tables hold. */
  lemma RowsRank(w: World, rank: Id -> nat)
    requires forall id, row :: id in w.parents && row in w.parents[id] ==> rank(row.parentId) < rank(id)
    ensures Ranked(w, rank)
  {
    forall id | GetDataParent(w, id).Some? ensures rank(GetDataParent(w, id).value.id) < rank(id) {
      assert FirstKnown(w, w.parents[id]).value in w.parents[id];
    }
  }

  /** The file under the caller's hash, if it is there and the size is known. */
  function Hit(w: World, hash: Option<Hash>, dataSize: Option<nat>, region: Option<Region>): Option<Found> {
    if hash.None? || dataSize.None? then None
    else match StoreGet(w, hash.value, region)
      case Some(bytes) => Some(Found(bytes, dataSize.value))
      case None => None
  }

  ghost function CacheData(
      w: World, rank: Id -> nat, id: Id, hash: Option<Hash>, dataSize: Option<nat>,
      region: Option<Region>): Option<Found>
    requires Ranked(w, rank)
    decreases rank(id)
  {
    var hit := Hit(w, hash, dataSize, region);
    if hit.Some? then hit
    else
      var parent := GetDataParent(w, id);
      if parent.Some? && parent.value.hash.Some? then
        var size := GetOr(dataSize, parent.value.size);
        CacheData(w, rank, parent.value.id, parent.value.hash, Some(size),
          Some(Region(Offset(region) + parent.value.offset, size)))
      else None
  }

  // ---------------------------------------------------------------- what is known of the data

  ghost predicate Injective(digest: Bytes -> Hash) {
    forall a, b :: digest(a) == digest(b) ==> a == b
  }

  /** Files and hashes are content-addressed, and each parent row says where in the parent the item's bytes are. */
  ghost predicate Honest(w: World, digest: Bytes -> Hash, content: Id -> Bytes) {
    && (forall h :: h in w.store ==> digest(w.store[h]) == h)
    && (forall id :: id in w.ids ==> w.ids[id] == digest(content(id)))
    && (forall h, b :: h in w.sizes && digest(b) == h ==> w.sizes[h] == |b|)
    && (forall id, row :: id in w.parents && row in w.parents[id] ==> IsPart(content(id), content(row.parentId), row))
  }

  predicate IsPart(item: Bytes, parent: Bytes, row: ParentRow) {
    row.offset + row.size <= |parent| && item == parent[row.offset..row.offset + row.size]
  }

  /** The caller's hash and size, where it has them, are the item's own. */
  ghost predicate Describes(digest: Bytes -> Hash, item: Bytes, hash: Option<Hash>, dataSize: Option<nat>) {
    && (hash.Some? ==> hash.value == digest(item))
    && (dataSize.Some? ==> dataSize.value == |item|)
  }

  /** The file under `hash`, if there is one, holds `item`. */
  predicate IsFileOf(w: World, hash: Hash, item: Bytes) {
    hash in w.store ==> w.store[hash] == item
  }

  /** What a lookup of the parent tells is true: where the bytes are, and whose file the hash names. */
  ghost predicate ParentTold(w: World, content: Id -> Bytes, id: Id) {
    GetDataParent(w, id).Some? ==>
      var p := GetDataParent(w, id).value;
      && p.offset + p.size <= |content(p.id)|
      && content(id) == content(p.id)[p.offset..p.offset + p.size]
      && (p.hash.Some? ==> IsFileOf(w, p.hash.value, content(p.id)))
  }

  ghost predicate Faithful(w: World, content: Id -> Bytes) {
    forall id :: ParentTold(w, content, id)
  }

  lemma HashNamesFile(w: World, digest: Bytes -> Hash, content: Id -> Bytes, item: Bytes)
    requires Honest(w, digest, content) && Injective(digest)
    ensures IsFileOf(w, digest(item), item)
  {
    if digest(item) in w.store {
      assert digest(w.store[digest(item)]) == digest(item);
    }
  }

  lemma HonestIsFaithful(w: World, digest: Bytes -> Hash, content: Id -> Bytes)
    requires Honest(w, digest, content) && Injective(digest)
    ensures Faithful(w, content)
  {
    forall id ensures ParentTold(w, content, id) {
      if GetDataParent(w, id).Some? {
        var p := GetDataParent(w, id).value;
        HashNamesFile(w, digest, content, content(p.id));
        assert FirstKnown(w, w.parents[id]).value in w.parents[id];
      }
    }
  }

  /** A part of a part is a part, at the sum of the offsets. */
  lemma PartOfPart(whole: Bytes, part: Bytes, item: Bytes, outer: nat, inner: nat)
    requires outer + |part| <= |whole| && part == whole[outer..outer + |part|]
    requires inner + |item| <= |part| && item == part[inner..inner + |item|]
    ensures outer + inner + |item| <= |whole| && item == whole[outer + inner..outer + inner + |item|]
  {
    var slice := whole[outer + inner..outer + inner + |item|];
    forall i | 0 <= i < |item| ensures item[i] == slice[i] {
      assert item[i] == part[inner + i];
    }
  }

  /** Slicing a region of an ancestor, at any depth: if the region holds the item's bytes, so does what is found. */
  lemma {:induction false} RegionIsItem(
      w: World, rank: Id -> nat, content: Id -> Bytes, id: Id, hash: Option<Hash>, item: Bytes, offset: nat)
    requires Ranked(w, rank) && Faithful(w, content) && (hash.Some? ==> IsFileOf(w, hash.value, content(id)))
    requires offset + |item| <= |content(id)| && item == content(id)[offset..offset + |item|]
    ensures var r := CacheData(w, rank, id, hash, Some(|item|), Some(Region(offset, |item|)));
      r.Some? ==> r.value == Found(item, |item|)
    decreases rank(id)
  {
    if Hit(w, hash, Some(|item|), Some(Region(offset, |item|))).None? {
      assert ParentTold(w, content, id);
      if GetDataParent(w, id).Some? && GetDataParent(w, id).value.hash.Some? {
        var p := GetDataParent(w, id).value;
        PartOfPart(content(p.id), content(id), item, p.offset, offset);
        RegionIsItem(w, rank, content, p.id, p.hash, item, offset + p.offset);
      }
    }
  }

  /**
   Whatever is served for an item, from its own file or from any ancestor's, is exactly its own bytes with its own
   size.
   */
  lemma CacheServesTheItem(
      w: World, rank: Id -> nat, digest: Bytes -> Hash, content: Id -> Bytes, id: Id, hash: Option<Hash>,
      dataSize: Option<nat>)
    requires Ranked(w, rank) && Honest(w, digest, content) && Injective(digest)
    requires Describes(digest, content(id), hash, dataSize)
    ensures var r := CacheData(w, rank, id, hash, dataSize, None);
      r.Some? ==> r.value == Found(content(id), |content(id)|)
  {
    HonestIsFaithful(w, digest, content);
    HashNamesFile(w, digest, content, content(id));
    ServesTheItem(w, rank, content, id, hash, dataSize);
  }

  lemma ServesTheItem(
      w: World, rank: Id -> nat, content: Id -> Bytes, id: Id, hash: Option<Hash>, dataSize: Option<nat>)
    requires Ranked(w, rank) && Faithful(w, content) && (hash.Some? ==> IsFileOf(w, hash.value, content(id)))
    requires dataSize.Some? ==> dataSize.value == |content(id)|
    ensures CacheData(w, rank, id, hash, dataSize, None) in {None, Some(Found(content(id), |content(id)|))}
  {
    var parent := GetDataParent(w, id);
    if Hit(w, hash, dataSize, None).None? && parent.Some? && parent.value.hash.Some? {
      var p := parent.value;
      MissAsksParent(w, rank, id, hash, dataSize);
      assert ParentTold(w, content, id);
      assert GetOr(dataSize, p.size) == |content(id)|;
      RegionIsItem(w, rank, content, p.id, p.hash, content(id), p.offset);
    }
  }

  lemma MissAsksParent(w: World, rank: Id -> nat, id: Id, hash: Option<Hash>, dataSize: Option<nat>)
    requires Ranked(w, rank) && Hit(w, hash, dataSize, None).None?
    requires GetDataParent(w, id).Some? && GetDataParent(w, id).value.hash.Some?
    ensures var p := GetDataParent(w, id).value;
      var size := GetOr(dataSize, p.size);
      CacheData(w, rank, id, hash, dataSize, None)
        == CacheData(w, rank, p.id, p.hash, Some(size), Some(Region(p.offset, size)))
  {
  }

  /** Some file on the chain of parents with known hashes is in the store. */
  ghost predicate Available(w: World, rank: Id -> nat, id: Id, hash: Option<Hash>)
    requires Ranked(w, rank)
    decreases rank(id)
  {
    || (hash.Some? && hash.value in w.store)
    || (GetDataParent(w, id).Some? && GetDataParent(w, id).value.hash.Some?
        && Available(w, rank, GetDataParent(w, id).value.id, GetDataParent(w, id).value.hash))
  }

  lemma {:induction false} RegionIsFound(w: World, rank: Id -> nat, id: Id, hash: Option<Hash>, offset: nat, size: nat)
    requires Ranked(w, rank)
    ensures CacheData(w, rank, id, hash, Some(size), Some(Region(offset, size))).Some?
      <==> size > 0 && Available(w, rank, id, hash)
    decreases rank(id)
  {
    var parent := GetDataParent(w, id);
    if parent.Some? && parent.value.hash.Some? {
      RegionIsFound(w, rank, parent.value.id, parent.value.hash, offset + parent.value.offset, size);
    }
  }

  /**
   An item is found exactly when its own file is stored (and its size known), or it is not empty and a file is stored
   somewhere up its chain of parents.
   */
  lemma CacheFindsTheItem(w: World, rank: Id -> nat, id: Id, hash: Option<Hash>, dataSize: Option<nat>)
    requires Ranked(w, rank)
    ensures var parent := GetDataParent(w, id);
      CacheData(w, rank, id, hash, dataSize, None).Some? <==>
        || (hash.Some? && hash.value in w.store && dataSize.Some?)
        || (parent.Some? && parent.value.hash.Some? && GetOr(dataSize, parent.value.size) > 0
            && Available(w, rank, parent.value.id, parent.value.hash))
  {
    var parent := GetDataParent(w, id);
    if parent.Some? && parent.value.hash.Some? {
      RegionIsFound(w, rank, parent.value.id, parent.value.hash, parent.value.offset,
        GetOr(dataSize, parent.value.size));
    }
  }

  // ---------------------------------------------------------------- writing

  /** What the next data source delivers, and which steps of keeping it succeed. */
  datatype Delivery = Delivery(bytes: Bytes, size: nat, streamed: bool, indexed: bool, finalized: bool)

  /** `saveDataContentAttributes`. */
  function SaveAttributes(w: World, id: Id, hash: Hash, size: nat): World {
    w.(sizes := if hash in w.sizes then w.sizes else w.sizes[hash := size], ids := w.ids[id := hash])
  }

  /** The world after a delivery was passed through. */
  function Keep(w: World, digest: Bytes -> Hash, id: Id, d: Delivery): World {
    if !d.streamed then w
    else
      var w1 := if d.indexed then SaveAttributes(w, id, digest(d.bytes), d.size) else w;
      if d.finalized then w1.(store := w1.store[digest(d.bytes) := d.bytes]) else w1
  }

  /** A delivery that ends without an error is the item itself; one that breaks off may have delivered anything. */
  ghost predicate Genuine(content: Id -> Bytes, id: Id, d: Delivery) {
    d.streamed ==> d.bytes == content(id) && d.size == |content(id)|
  }

  /** Whatever a delivery brought before it broke off, and whichever steps fail, everything known stays true. */
  lemma KeepIsHonest(w: World, digest: Bytes -> Hash, content: Id -> Bytes, id: Id, d: Delivery)
    requires Honest(w, digest, content) && Injective(digest) && Genuine(content, id, d)
    ensures Honest(Keep(w, digest, id, d), digest, content)
  {
    forall h, b | h in Keep(w, digest, id, d).sizes && digest(b) == h ensures Keep(w, digest, id, d).sizes[h] == |b| {
      if h !in w.sizes {
        assert b == d.bytes;
      }
    }
  }

  /** The world after `ds` were passed through, each for its item. */
  function KeepAll(w: World, digest: Bytes -> Hash, ds: seq<(Id, Delivery)>): World
    decreases |ds|
  {
    if ds == [] then w else KeepAll(Keep(w, digest, ds[0].0, ds[0].1), digest, ds[1..])
  }

  lemma {:induction false} KeepAllIsHonest(
      w: World, digest: Bytes -> Hash, content: Id -> Bytes, ds: seq<(Id, Delivery)>)
    requires Honest(w, digest, content) && Injective(digest)
    requires forall i :: 0 <= i < |ds| ==> Genuine(content, ds[i].0, ds[i].1)
    ensures Honest(KeepAll(w, digest, ds), digest, content) && KeepAll(w, digest, ds).parents == w.parents
    decreases |ds|
  {
    if ds != [] {
      KeepIsHonest(w, digest, content, ds[0].0, ds[0].1);
      KeepAllIsHonest(Keep(w, digest, ds[0].0, ds[0].1), digest, content, ds[1..]);
    }
  }

  /** The attributes that the index has of an item. */
  function Attributes(w: World, id: Id): (Option<Hash>, Option<nat>) {
    if id !in w.ids then (None, None)
    else (Some(w.ids[id]), if w.ids[id] in w.sizes then Some(w.sizes[w.ids[id]]) else None)
  }

  /**
   After any deliveries for any items, complete or broken off at any byte, whatever is served for an item under the
   attributes in the index is the item itself.
   */
  lemma LaterHitsAreTheItem(
      w: World, rank: Id -> nat, digest: Bytes -> Hash, content: Id -> Bytes, ds: seq<(Id, Delivery)>, id: Id)
    requires forall id, row :: id in w.parents && row in w.parents[id] ==> rank(row.parentId) < rank(id)
    requires Honest(w, digest, content) && Injective(digest)
    requires forall i :: 0 <= i < |ds| ==> Genuine(content, ds[i].0, ds[i].1)
    ensures var w' := KeepAll(w, digest, ds);
      var (hash, dataSize) := Attributes(w', id);
      && Ranked(w', rank)
      && CacheData(w', rank, id, hash, dataSize, None) in {None, Some(Found(content(id), |content(id)|))}
  {
    var w' := KeepAll(w, digest, ds);
    KeepAllIsHonest(w, digest, content, ds);
    RowsRank(w', rank);
    CacheServesTheItem(w', rank, digest, content, id, Attributes(w', id).0, Attributes(w', id).1);
  }

  /** Once a delivery was kept in full, the item is served from its own file under the attributes in the index. */
  lemma KeptIsServed(w: World, rank: Id -> nat, digest: Bytes -> Hash, content: Id -> Bytes, id: Id, d: Delivery)
    requires forall id, row :: id in w.parents && row in w.parents[id] ==> rank(row.parentId) < rank(id)
    requires Honest(w, digest, content)
    requires d.streamed && d.indexed && d.finalized && d.bytes == content(id) && d.size == |content(id)|
    ensures var w' := Keep(w, digest, id, d);
      var (hash, dataSize) := Attributes(w', id);
      Ranked(w', rank) && CacheData(w', rank, id, hash, dataSize, None) == Some(Found(content(id), |content(id)|))
  {
    RowsRank(Keep(w, digest, id, d), rank);
  }

  /**
   A delivery adds its file exactly when it ended and was finalized, and points its item at the file exactly when it
   ended and the attributes were saved, with its size if the file had none; nothing else changes.
   */
  lemma KeptExactly(w: World, digest: Bytes -> Hash, id: Id, d: Delivery)
    ensures var w', hash, added := Keep(w, digest, id, d), digest(d.bytes), d.streamed && d.finalized;
      && w'.store.Keys == w.store.Keys + (if added then {hash} else {})
      && (forall h :: h in w'.store ==> w'.store[h] == if added && h == hash then d.bytes else w.store[h])
    ensures var w', hash, named := Keep(w, digest, id, d), digest(d.bytes), d.streamed && d.indexed;
      && w'.ids.Keys == w.ids.Keys + (if named then {id} else {})
      && w'.sizes.Keys == w.sizes.Keys + (if named then {hash} else {})
      && (forall i :: i in w'.ids ==> w'.ids[i] == if named && i == id then hash else w.ids[i])
      && (forall h :: h in w'.sizes ==> w'.sizes[h] == if h in w.sizes then w.sizes[h] else d.size)
    ensures Keep(w, digest, id, d).parents == w.parents
  {
  }

  class ReadThroughDataCache {
    var world: World

    constructor (world: World)
      ensures this.world == world
    {
      this.world := world;
    }

    method GetFromStore(hash: Option<Hash>, dataSize: Option<nat>, region: Option<Region>) returns (r: Option<Found>)
      ensures r == Hit(world, hash, dataSize, region)
    {
      if hash.Some? {
        var cacheStream := StoreGet(world, hash.value, region);
        if cacheStream.Some? && dataSize.Some? {
          return Some(Found(cacheStream.value, dataSize.value));
        }
      }
      return None;
    }

    method GetCacheData(
        ghost rank: Id -> nat, id: Id, hash: Option<Hash>, dataSize: Option<nat>, region: Option<Region>)
      returns (r: Option<Found>)
      requires Ranked(world, rank)
      ensures r == CacheData(world, rank, id, hash, dataSize, region)
      decreases rank(id)
    {
      r := GetFromStore(hash, dataSize, region);
      if r.Some? {
        return;
      }
      var parentData := GetDataParent(world, id);
      if parentData.Some? && parentData.value.hash.Some? {
        var parent := parentData.value;
        var size := GetOr(dataSize, parent.size);
        r := GetCacheData(rank, parent.id, parent.hash, Some(size), Some(Region(Offset(region) + parent.offset, size)));
      }
    }

    /**
     A hit writes nothing; what was missed is kept as it streams by, unless it breaks off, so that what is known of any
     `content` stays true.
     */
    method GetData(
        ghost rank: Id -> nat, digest: Bytes -> Hash, id: Id, hash: Option<Hash>, dataSize: Option<nat>,
        d: Delivery, ghost content: Id -> Bytes) returns (r: Found)
      requires Ranked(world, rank)
      modifies this
      ensures var hit := CacheData(old(world), rank, id, hash, dataSize, None);
        if hit.Some? then r == hit.value && world == old(world)
        else r == Found(d.bytes, d.size) && world == Keep(old(world), digest, id, d)
      ensures Honest(old(world), digest, content) && Injective(digest) && Genuine(content, id, d) ==>
        Honest(world, digest, content)
    {
      if Honest(world, digest, content) && Injective(digest) && Genuine(content, id, d) {
        KeepIsHonest(world, digest, content, id, d);
      }
      var cacheData := GetCacheData(rank, id, hash, dataSize, None);
      if cacheData.Some? {
        return cacheData.value;
      }
      var hashed: Bytes := [];
      for i := 0 to |d.bytes|
        invariant hashed == d.bytes[..i] && world == old(world)
      {
        hashed := hashed + [d.bytes[i]];
      }
      assert hashed == d.bytes;
      if d.streamed {
        if d.indexed {
          world := SaveAttributes(world, id, digest(hashed), d.size);
        }
        if d.finalized {
          world := world.(store := world.store[digest(hashed) := d.bytes]);
        }
      }
      r := Found(d.bytes, d.size);
    }
  }
}
