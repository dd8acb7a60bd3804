/**
 The block cache: one key/value store holding blocks under their hashes and, for blocks too deep to be
 replaced, hashes under their heights; and the composite client that fills it and serves from it.
 */
module BlockStore {
  import opened Options
  import opened Chain

  datatype Key = HashKey(hash: Hash) | HeightKey(height: nat)
  datatype Value = BlockValue(block: Block) | HashValue(hash: Hash)
  type Store = map<Key, Value>

  // ---------------------------------------------------------------- validation

  predicate IsBase64UrlChar(c: char) {
    'a' <= c <= 'z' || 'A' <= c <= 'Z' || '0' <= c <= '9' || c == '_' || c == '-'
  }

  predicate IsValidBlockIndepHash(hash: Hash) {
    |hash| == 64 && forall i :: 0 <= i < |hash| ==> IsBase64UrlChar(hash[i])
  }

  /** `sanityCheckBlock`. */
  predicate Sane(b: Block) {
    IsValidBlockIndepHash(b.hash) && (b.height != 0 ==> b.previous.Some? && IsValidBlockIndepHash(b.previous.value))
  }

  /** The alphabet of base64url (section 5 of RFC 4648). */
  const UPPER: string := "ABCDEFGHIJKLMNOPQRSTUVWXYZ"
  const LOWER: string := "abcdefghijklmnopqrstuvwxyz"
  const DIGITS: string := "0123456789"

  predicate IsHash(hash: Hash) {
    |hash| == 64 && forall c :: c in hash ==> c in UPPER || c in LOWER || c in DIGITS || c in "-_"
  }

  lemma UpperIs(c: char)
    ensures 'A' <= c <= 'Z' <==> c in UPPER
  {
    if 'A' <= c <= 'Z' {
      assert UPPER[c as int - 'A' as int] == c;
    }
  }

  lemma LowerIs(c: char)
    ensures 'a' <= c <= 'z' <==> c in LOWER
  {
    if 'a' <= c <= 'z' {
      assert LOWER[c as int - 'a' as int] == c;
    }
  }

  lemma DigitsAre(c: char)
    ensures '0' <= c <= '9' <==> c in DIGITS
  {
    if '0' <= c <= '9' {
      assert DIGITS[c as int - '0' as int] == c;
    }
  }

  lemma HashMeans(hash: Hash)
    ensures IsValidBlockIndepHash(hash) <==> IsHash(hash)
  {
    forall c ensures IsBase64UrlChar(c) <==> c in UPPER || c in LOWER || c in DIGITS || c in "-_" {
      UpperIs(c);
      LowerIs(c);
      DigitsAre(c);
    }
  }

  /** A block is sane exactly when it carries its own hash and, unless it is genesis, its parent's. */
  lemma SaneMeans(b: Block)
    ensures Sane(b)
      <==> IsHash(b.hash) && (b.height == 0 || exists parent :: b.previous == Some(parent) && IsHash(parent))
  {
    HashMeans(b.hash);
    if b.previous.Some? {
      HashMeans(b.previous.value);
    }
  }

  /** A block as it comes back from the store: an empty `previous_block` is stored as none. */
  function Decoded(b: Block): Block {
    if b.previous == Some("") then b.(previous := None) else b
  }

  // ---------------------------------------------------------------- the store's operations

  function GetByHash(kv: Store, hash: Hash): Option<Block> {
    if HashKey(hash) in kv && kv[HashKey(hash)].BlockValue? && Sane(kv[HashKey(hash)].block) then
      Some(kv[HashKey(hash)].block)
    else None
  }

  function GetByHeight(kv: Store, height: nat): Option<Block> {
    if HeightKey(height) in kv && kv[HeightKey(height)].HashValue? then GetByHash(kv, kv[HeightKey(height)].hash)
    else None
  }

  function Set(kv: Store, b: Block, height: Option<nat>): Store {
    if HashKey(b.hash) in kv then kv
    else
      var stored := kv[HashKey(b.hash) := BlockValue(Decoded(b))];
      if height.Some? && HeightKey(height.value) !in stored then stored[HeightKey(height.value) := HashValue(b.hash)]
      else stored
  }

  function DelByHash(kv: Store, hash: Hash): Store {
    if HashKey(hash) !in kv then kv
    else
      var b := GetByHash(kv, hash);
      if b.Some? then kv - {HashKey(hash), HeightKey(b.value.height)} else kv - {HashKey(hash)}
  }

  function DelByHeight(kv: Store, height: nat): Store {
    if HeightKey(height) !in kv then kv
    else match kv[HeightKey(height)]
      case HashValue(hash) => kv - {HeightKey(height), HashKey(hash)}
      case BlockValue(_) => kv - {HeightKey(height)}
  }

  // ---------------------------------------------------------------- coherence

  /** Blocks sit under their own hashes. */
  ghost predicate BlocksKeyed(kv: Store) {
    forall hash :: HashKey(hash) in kv ==>
      kv[HashKey(hash)].BlockValue? && kv[HashKey(hash)].block.hash == hash && Sane(kv[HashKey(hash)].block)
  }

  /** Every height key points at a stored block of that height. */
  ghost predicate HeightsPoint(kv: Store) {
    forall h :: HeightKey(h) in kv ==> GetByHeight(kv, h).Some? && GetByHeight(kv, h).value.height == h
  }

  ghost predicate Coherent(kv: Store) {
    BlocksKeyed(kv) && HeightsPoint(kv)
  }

  datatype Op = SetOp(b: Block, withHeight: bool) | DelHashOp(hash: Hash) | DelHeightOp(height: nat)

  function Perform(kv: Store, op: Op): Store {
    match op
    case SetOp(b, withHeight) => Set(kv, b, if withHeight then Some(b.height) else None)
    case DelHashOp(hash) => DelByHash(kv, hash)
    case DelHeightOp(height) => DelByHeight(kv, height)
  }

  function PerformAll(kv: Store, ops: seq<Op>): Store
    decreases |ops|
  {
    if ops == [] then kv else PerformAll(Perform(kv, ops[0]), ops[1..])
  }

  lemma SetKeepsCoherent(kv: Store, b: Block, height: Option<nat>)
    requires Coherent(kv) && Sane(b) && (height.Some? ==> height.value == b.height)
    ensures Coherent(Set(kv, b, height))
  {
    var kv' := Set(kv, b, height);
    assert BlocksKeyed(kv');
    forall h | HeightKey(h) in kv' ensures GetByHeight(kv', h).Some? && GetByHeight(kv', h).value.height == h {
      if HeightKey(h) in kv {
        assert GetByHeight(kv, h).Some?;
        assert GetByHeight(kv', h) == GetByHeight(kv, h);
      }
    }
  }

  lemma DelByHashKeepsCoherent(kv: Store, hash: Hash)
    requires Coherent(kv)
    ensures Coherent(DelByHash(kv, hash))
  {
    var kv' := DelByHash(kv, hash);
    forall h | HeightKey(h) in kv' ensures GetByHeight(kv', h) == GetByHeight(kv, h) {
      assert GetByHeight(kv, h).Some?;
    }
  }

  lemma DelByHeightKeepsCoherent(kv: Store, height: nat)
    requires Coherent(kv)
    ensures Coherent(DelByHeight(kv, height))
  {
    var kv' := DelByHeight(kv, height);
    forall h | HeightKey(h) in kv' ensures GetByHeight(kv', h) == GetByHeight(kv, h) {
      assert GetByHeight(kv, h).Some?;
      assert HeightKey(height) in kv ==> GetByHeight(kv, height).Some?;
    }
  }

  /** Under any run of sets of sane blocks and deletes, every height key points at a stored block of that height. */
  lemma {:induction false} RunKeepsCoherent(kv: Store, ops: seq<Op>)
    requires Coherent(kv) && forall i :: 0 <= i < |ops| && ops[i].SetOp? ==> Sane(ops[i].b)
    ensures Coherent(PerformAll(kv, ops))
    decreases |ops|
  {
    if ops != [] {
      match ops[0] {
        case SetOp(b, withHeight) => SetKeepsCoherent(kv, b, if withHeight then Some(b.height) else None);
        case DelHashOp(hash) => DelByHashKeepsCoherent(kv, hash);
        case DelHeightOp(height) => DelByHeightKeepsCoherent(kv, height);
      }
      RunKeepsCoherent(Perform(kv, ops[0]), ops[1..]);
    }
  }

  // ---------------------------------------------------------------- what the lookups see

  /** A stored block is found again under its hash, and under the height given with it; the first of a hash stays. */
  lemma SetIsFound(kv: Store, b: Block, height: Option<nat>)
    requires Coherent(kv) && Sane(b)
    ensures var kv' := Set(kv, b, height);
      && GetByHash(kv', b.hash) == (if HashKey(b.hash) in kv then GetByHash(kv, b.hash) else Some(Decoded(b)))
      && GetByHash(kv', b.hash).Some?
      && Decoded(b) == b.(previous := Decoded(b).previous)
      && Decoded(b).previous == (if b.previous == Some("") then None else b.previous)
      && (HashKey(b.hash) !in kv && height.Some? && HeightKey(height.value) !in kv ==>
        GetByHeight(kv', height.value) == Some(Decoded(b)))
      && (forall hash :: hash != b.hash ==> GetByHash(kv', hash) == GetByHash(kv, hash))
  {
  }

  /**
   A deleted block is gone, and so is the key of its height, even where that key points at another block of the height;
   nothing else is lost.
   */
  lemma DeletedHashIsGone(kv: Store, hash: Hash)
    requires Coherent(kv)
    ensures var kv' := DelByHash(kv, hash);
      && GetByHash(kv', hash) == None
      && (forall other :: other != hash ==> GetByHash(kv', other) == GetByHash(kv, other))
      && (forall h :: GetByHeight(kv', h)
            == if GetByHash(kv, hash).Some? && GetByHash(kv, hash).value.height == h then None else GetByHeight(kv, h))
  {
    var kv' := DelByHash(kv, hash);
    forall h: nat ensures GetByHeight(kv', h)
        == if GetByHash(kv, hash).Some? && GetByHash(kv, hash).value.height == h then None else GetByHeight(kv, h)
    {
      if HeightKey(h) in kv {
        assert GetByHeight(kv, h).Some? && GetByHeight(kv, h).value.height == h;
      }
    }
  }

  /** A deleted height is gone with the block it pointed at, and nothing else is lost. */
  lemma DeletedHeightIsGone(kv: Store, height: nat)
    requires Coherent(kv)
    ensures var kv' := DelByHeight(kv, height);
      && GetByHeight(kv', height) == None
      && (GetByHeight(kv, height).Some? ==> GetByHash(kv', GetByHeight(kv, height).value.hash) == None)
      && (forall h :: h != height ==> GetByHeight(kv', h) == GetByHeight(kv, h))
  {
    var kv' := DelByHeight(kv, height);
    forall h: nat | h != height ensures GetByHeight(kv', h) == GetByHeight(kv, h) {
      if HeightKey(h) in kv {
        assert GetByHeight(kv, h).Some? && GetByHeight(kv, h).value.height == h;
        assert HeightKey(height) in kv ==>
          GetByHeight(kv, height).Some? && GetByHeight(kv, height).value.height == height;
      }
    }
  }

  // ---------------------------------------------------------------- the objects

  class KvBlockStore {
    var kv: Store

    constructor ()
      ensures kv == map[]
    {
      kv := map[];
    }

    method HasHash(hash: Hash) returns (r: bool)
      ensures r == (HashKey(hash) in kv)
    {
      r := HashKey(hash) in kv;
    }

    method HasHeight(height: nat) returns (r: bool)
      ensures r == (HeightKey(height) in kv)
    {
      r := HeightKey(height) in kv;
    }

    method GetBlockByHash(hash: Hash) returns (r: Option<Block>)
      ensures r == GetByHash(kv, hash)
    {
      var present := HasHash(hash);
      if present {
        match kv[HashKey(hash)] {
          case BlockValue(b) =>
            if Sane(b) {
              return Some(b);
            }
          case HashValue(_) =>
        }
      }
      return None;
    }

    method GetBlockByHeight(height: nat) returns (r: Option<Block>)
      ensures r == GetByHeight(kv, height)
    {
      var present := HasHeight(height);
      if present {
        match kv[HeightKey(height)] {
          case HashValue(hash) => r := GetBlockByHash(hash); return;
          case BlockValue(_) =>
        }
      }
      return None;
    }

    method DeleteByHash(hash: Hash)
      modifies this
      ensures kv == DelByHash(old(kv), hash)
    {
      var present := HasHash(hash);
      if present {
        var b := GetBlockByHash(hash);
        kv := kv - {HashKey(hash)};
        if b.Some? {
          var heightPresent := HasHeight(b.value.height);
          if heightPresent {
            kv := kv - {HeightKey(b.value.height)};
          }
        }
      }
    }

    method DeleteByHeight(height: nat)
      modifies this
      ensures kv == DelByHeight(old(kv), height)
    {
      var present := HasHeight(height);
      if present {
        var value := kv[HeightKey(height)];
        kv := kv - {HeightKey(height)};
        match value {
          case HashValue(hash) =>
            var hashPresent := HasHash(hash);
            if hashPresent {
              kv := kv - {HashKey(hash)};
            }
          case BlockValue(_) =>
        }
      }
    }

    method SetBlock(b: Block, height: Option<nat>)
      modifies this
      ensures kv == Set(old(kv), b, height)
    {
      var present := HasHash(b.hash);
      if !present {
        kv := kv[HashKey(b.hash) := BlockValue(Decoded(b))];
        if height.Some? {
          var heightPresent := HasHeight(height.value);
          if !heightPresent {
            kv := kv[HeightKey(height.value) := HashValue(b.hash)];
          }
        }
      }
    }
  }
}
