/** Types shared by both nodes coordinators: the validator record, the shard
    and round identifiers, the sentinel errors of the sharding package, and
    the two projections of a consensus group (public keys, reward addresses).
    The registry specification that the lookup is checked against lives here
    too, because it is a property of the shard map alone. */
module Sharding {

  newtype byte = x: int | 0 <= x < 0x100
  newtype uint32 = x: int | 0 <= x < 0x1_0000_0000
  newtype uint64 = x: int | 0 <= x < 0x1_0000_0000_0000_0000

  /** A Go []byte, and also a Go string built from one. */
  type Bytes = seq<byte>

  /** The shard identifier reserved for the metachain (the largest uint32). */
  const MetachainShardId: uint32 := 0xFFFF_FFFF

  /** One validator: stake (a big.Int, only stored), rating, public key and
      reward address. Records are values and are never updated in place. */
  datatype Validator = Validator(stake: nat, rating: uint32, pubKey: Bytes, address: Bytes)

  /** The sentinel errors the coordinators return. */
  datatype Error =
    | ErrNilInputNodesMap
    | ErrNilRandomness
    | ErrNilPubKey
    | ErrValidatorNotFound

  /** A Go value that may be nil: None is nil, Some is any non-nil value,
      including an empty slice or an empty map. */
  datatype Option<+T> = None | Some(value: T)

  /** A Go (value, error) pair where exactly one side is meaningful. */
  datatype Result<+T> = Ok(value: T) | Err(error: Error)

  /** Shard identifier to the ordered list of that shard's validators. */
  type Registry = map<uint32, seq<Validator>>

  /** Indexing a Go map: a missing shard reads as a nil (empty) slice. */
  function ShardList(m: Registry, shard: uint32): seq<Validator>
  {
    if shard in m then m[shard] else []
  }

  // ---------------------------------------------------------------------
  // Projections of a list of validators, built the way the append loops
  // build them: one element added at the end per validator.

  function PubKeys(vs: seq<Validator>): seq<Bytes>
  {
    if vs == [] then [] else PubKeys(vs[..|vs| - 1]) + [vs[|vs| - 1].pubKey]
  }

  function Addresses(vs: seq<Validator>): seq<Bytes>
  {
    if vs == [] then [] else Addresses(vs[..|vs| - 1]) + [vs[|vs| - 1].address]
  }

  /** The key view has the group's length and order: element i is the key of
      validator i. */
  lemma {:induction false} PubKeysAt(vs: seq<Validator>)
    ensures |PubKeys(vs)| == |vs|
    ensures forall i :: 0 <= i < |vs| ==> PubKeys(vs)[i] == vs[i].pubKey
  {
    if vs != [] {
      PubKeysAt(vs[..|vs| - 1]);
    }
  }

  /** The address view has the group's length and order: element i is the
      reward address of validator i. */
  lemma {:induction false} AddressesAt(vs: seq<Validator>)
    ensures |Addresses(vs)| == |vs|
    ensures forall i :: 0 <= i < |vs| ==> Addresses(vs)[i] == vs[i].address
  {
    if vs != [] {
      AddressesAt(vs[..|vs| - 1]);
    }
  }

  /** Projecting a list grown by one validator adds exactly that validator's
      key at the end; this is the step of every append loop. */
  lemma PubKeysSnoc(vs: seq<Validator>, v: Validator)
    ensures PubKeys(vs + [v]) == PubKeys(vs) + [v.pubKey]
  {
    assert (vs + [v])[..|vs|] == vs;
  }

  lemma AddressesSnoc(vs: seq<Validator>, v: Validator)
    ensures Addresses(vs + [v]) == Addresses(vs) + [v.address]
  {
    assert (vs + [v])[..|vs|] == vs;
  }

  // ---------------------------------------------------------------------
  // The registry as a lookup table.

  /** Some shard holds a validator with public key `key`. */
  ghost predicate HasKey(m: Registry, key: Bytes)
  {
    exists s, i :: s in m && 0 <= i < |m[s]| && m[s][i].pubKey == key
  }

  /** No public key occurs twice in the registry, across all shards. */
  ghost predicate UniqueKeys(m: Registry)
  {
    forall s1, i1, s2, i2 ::
      s1 in m && s2 in m && 0 <= i1 < |m[s1]| && 0 <= i2 < |m[s2]| &&
      m[s1][i1].pubKey == m[s2][i2].pubKey
      ==> s1 == s2 && i1 == i2
  }

  /** `v` is the first validator of shard `s` whose key is `key`. */
  ghost predicate FirstInShard(m: Registry, s: uint32, key: Bytes, v: Validator)
  {
    s in m &&
    exists i :: 0 <= i < |m[s]| && m[s][i] == v && v.pubKey == key &&
      forall j :: 0 <= j < i ==> m[s][j].pubKey != key
  }

  /** Every result the lookup may give. The shards are visited in Go map
      order, which is unspecified, so any shard holding the key may be the
      one reported; within that shard the first match is reported. */
  ghost predicate LookupOutcome(m: Registry, key: Option<Bytes>, r: Result<(Validator, uint32)>)
  {
    match key
    case None => r == Err(ErrNilPubKey)
    case Some(k) =>
      if HasKey(m, k) then r.Ok? && FirstInShard(m, r.value.1, k, r.value.0)
      else r == Err(ErrValidatorNotFound)
  }

  /** With globally unique keys, looking up the key of validator i of shard s
      can only report that validator, in shard s. */
  lemma LookupFindsRegistered(m: Registry, s: uint32, i: nat, r: Result<(Validator, uint32)>)
    requires UniqueKeys(m)
    requires s in m && i < |m[s]|
    requires LookupOutcome(m, Some(m[s][i].pubKey), r)
    ensures r == Ok((m[s][i], s))
  {
    var key := m[s][i].pubKey;
    assert HasKey(m, key) by {
      assert s in m && 0 <= i < |m[s]| && m[s][i].pubKey == key;
    }
    var (v, s') := r.value;
    var j :| 0 <= j < |m[s']| && m[s'][j] == v && v.pubKey == key &&
      forall j' :: 0 <= j' < j ==> m[s'][j'].pubKey != key;
    assert s' == s && j == i;
  }

  /** With globally unique keys the lookup is deterministic: two results it
      may give for the same key are equal. */
  lemma LookupDeterministic(m: Registry, key: Option<Bytes>, r1: Result<(Validator, uint32)>, r2: Result<(Validator, uint32)>)
    requires UniqueKeys(m)
    requires LookupOutcome(m, key, r1) && LookupOutcome(m, key, r2)
    ensures r1 == r2
  {
    if key.Some? && HasKey(m, key.value) {
      var s, i :| s in m && 0 <= i < |m[s]| && m[s][i].pubKey == key.value;
      LookupFindsRegistered(m, s, i, r1);
      LookupFindsRegistered(m, s, i, r2);
    }
  }

  // ---------------------------------------------------------------------
  // Consensus groups.

  /** Within a list, no public key occurs twice. */
  ghost predicate DistinctKeys(vs: seq<Validator>)
  {
    forall i, j :: 0 <= i < j < |vs| ==> vs[i].pubKey != vs[j].pubKey
  }

  /** A group taken as a prefix of a shard's list is drawn from that list and
      keeps its order, whatever the list holds; it has no repeated key when
      the shard's keys are distinct. */
  lemma PrefixGroupIsDrawnFromShard(list: seq<Validator>, size: nat)
    requires size <= |list|
    ensures |list[..size]| == size
    ensures forall v :: v in list[..size] ==> v in list
    ensures DistinctKeys(list) ==> DistinctKeys(list[..size])
    ensures |PubKeys(list)| == |list|
    ensures PubKeys(list[..size]) == PubKeys(list)[..size]
  {
    PubKeysAt(list);
    PubKeysAt(list[..size]);
  }
}
