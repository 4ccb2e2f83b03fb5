/** The nodes coordinator used by the block-processing tests: a registry of
    validators per shard that can be replaced wholesale, and queries over it.
    The consensus group is the first `consensusSize` validators of a shard,
    in registry order. Only the path taken when no test hook is installed is
    modelled. */
module ProcessMock {
  import opened Sharding
  import opened Format

  /** Validator `v` of shard `sh` in the default registry: stake 10, rating
      1, key "pubKey<sh><v>" and address "address<sh><v>". */
  function MockValidator(sh: uint32, v: nat): Validator
  {
    Validator(10, 1, Format2(Ascii("pubKey"), sh as nat, v), Format2(Ascii("address"), sh as nat, v))
  }

  /** The `count` validators of shard `sh` in the default registry. */
  function MockShardList(sh: uint32, count: nat): (list: seq<Validator>)
  {
    seq(count, v requires 0 <= v < count => MockValidator(sh, v))
  }

  /** The registry a new coordinator starts with: shard 0 and the metachain,
      two validators each. */
  function InitialRegistry(): Registry
  {
    map[0 := MockShardList(0, 2), MetachainShardId := MockShardList(MetachainShardId, 2)]
  }

  /** Two default validators with slot numbers below 10 share a key only
      when they are the same validator of the same shard. */
  lemma MockKeysDistinct(s1: uint32, i1: nat, s2: uint32, i2: nat)
    requires i1 < 10 && i2 < 10
    requires MockValidator(s1, i1).pubKey == MockValidator(s2, i2).pubKey
    ensures s1 == s2 && i1 == i2
  {
    Format2Injective(Ascii("pubKey"), s1 as nat, i1, s2 as nat, i2);
  }

  /** No two validators of the default registry share a public key. */
  lemma InitialKeysUnique()
    ensures UniqueKeys(InitialRegistry())
  {
    var m: Registry := InitialRegistry();
    forall s1: uint32, i1: int, s2: uint32, i2: int |
      s1 in m && s2 in m && 0 <= i1 < |m[s1]| && 0 <= i2 < |m[s2]| &&
      m[s1][i1].pubKey == m[s2][i2].pubKey
      ensures s1 == s2 && i1 == i2
    {
      MockKeysDistinct(s1, i1, s2, i2);
    }
  }

  /** Builds the validator list of one shard of the default registry, slot by
      slot, as the constructor's inner loops do. */
  method NewShardValidators(sh: uint32, count: nat) returns (list: seq<Validator>)
    ensures |list| == count
    ensures forall v :: 0 <= v < count ==> list[v] == MockValidator(sh, v)
  {
    var slots := new Validator[count];
    var v := 0;
    while v < count
      invariant 0 <= v <= count
      invariant forall j :: 0 <= j < v ==> slots[j] == MockValidator(sh, j)
    {
      slots[v] := MockValidator(sh, v);
      v := v + 1;
    }
    list := slots[..];
  }

  class NodesCoordinatorMock {
    var validators: Registry
    var shardConsensusSize: uint32
    var metaConsensusSize: uint32
    var shardId: uint32
    var nbShards: uint32

    /** The group size, chosen by this coordinator's own shard, never by the
        shard a group is asked for. */
    function ConsensusSize(): uint32
      reads this
    {
      if shardId == MetachainShardId then metaConsensusSize else shardConsensusSize
    }

    /** A coordinator with the default registry (shards 0 and metachain, two
        validators each), group sizes 1, own shard 0 and one shard. */
    constructor ()
      ensures validators == InitialRegistry()
      ensures validators.Keys == {0, MetachainShardId}
      ensures forall s, v :: s in validators && 0 <= v < |validators[s]| ==>
        validators[s][v].stake == 10 && validators[s][v].rating == 1
      ensures |validators[0]| == 2 && |validators[MetachainShardId]| == 2
      ensures shardConsensusSize == 1 && metaConsensusSize == 1
      ensures shardId == 0 && nbShards == 1
    {
      var nb: uint32 := 1;
      var nodesPerShard := 2;
      var m: Registry := map[];
      var sh: uint32 := 0;
      while sh < nb
        invariant sh <= nb
        invariant forall s :: s in m <==> s < sh
        invariant forall s :: s in m ==> m[s] == MockShardList(s, nodesPerShard)
      {
        var list := NewShardValidators(sh, nodesPerShard);
        m := m[sh := list];
        sh := sh + 1;
      }
      var metaList := NewShardValidators(MetachainShardId, nodesPerShard);
      assert metaList == MockShardList(MetachainShardId, nodesPerShard);
      assert m == map[0 := MockShardList(0, nodesPerShard)];
      m := m[MetachainShardId := metaList];
      assert m == InitialRegistry();
      shardConsensusSize := 1;
      metaConsensusSize := 1;
      shardId := 0;
      nbShards := nb;
      validators := m;
    }

    /** Always (nil, nil): this coordinator keeps no per-epoch key lists. */
    function GetAllValidatorsPublicKeys(epoch: uint32): (r: (Option<map<uint32, seq<Bytes>>>, Option<Error>))
      ensures r.0.None? && r.1.None?
    {
      (None, None)
    }

    /** Always (nil, nil). */
    function GetValidatorsIndexes(publicKeys: seq<Bytes>, epoch: uint32): (r: (Option<seq<uint64>>, Option<Error>))
      ensures r.0.None? && r.1.None?
    {
      (None, None)
    }

    /** The keys of shard `shard` in registry order; an unknown shard gives
        the empty list, and an empty registry is an error. `selection` and
        `epoch` play no part. */
    method GetSelectedPublicKeys(selection: Option<Bytes>, shard: uint32, epoch: uint32) returns (r: Result<seq<Bytes>>)
      ensures |validators| == 0 ==> r == Err(ErrNilInputNodesMap)
      ensures |validators| != 0 ==> r.Ok?
      ensures r.Ok? ==> r.value == PubKeys(ShardList(validators, shard))
      ensures r.Ok? && shard !in validators ==> r.value == []
    {
      if |validators| == 0 {
        return Err(ErrNilInputNodesMap);
      }
      var list := ShardList(validators, shard);
      var pubKeys: seq<Bytes> := [];
      var i := 0;
      while i < |list|
        invariant 0 <= i <= |list|
        invariant pubKeys == PubKeys(list[..i])
      {
        PubKeysSnoc(list[..i], list[i]);
        assert list[..i + 1] == list[..i] + [list[i]];
        pubKeys := pubKeys + [list[i].pubKey];
        i := i + 1;
      }
      assert list[..i] == list;
      return Ok(pubKeys);
    }

    /** The first ConsensusSize() validators of `shard`, in registry order.
        Nil randomness is an error; empty non-nil randomness is not. Asking
        for more validators than the shard holds makes the source panic, so
        that is excluded here; with nil randomness it returns before that
        point and nothing is excluded. */
    method ComputeConsensusGroup(randomness: Option<Bytes>, round: uint64, shard: uint32, epoch: uint32)
      returns (r: Result<seq<Validator>>)
      requires randomness.Some? ==> ConsensusSize() as int <= |ShardList(validators, shard)|
      ensures randomness.None? ==> r == Err(ErrNilRandomness)
      ensures randomness.Some? ==> r.Ok?
      ensures r.Ok? ==> |r.value| == ConsensusSize() as int
      ensures r.Ok? ==> forall i :: 0 <= i < |r.value| ==> r.value[i] == ShardList(validators, shard)[i]
    {
      var consensusSize := ConsensusSize();
      if randomness.None? {
        return Err(ErrNilRandomness);
      }
      var group: seq<Validator> := [];
      var i: uint32 := 0;
      while i < consensusSize
        invariant i <= consensusSize
        invariant group == ShardList(validators, shard)[..i]
      {
        group := group + [ShardList(validators, shard)[i]];
        i := i + 1;
      }
      return Ok(group);
    }

    /** The public keys of the consensus group, in group order; an error of
        the group computation is returned unchanged. */
    method GetConsensusValidatorsPublicKeys(randomness: Option<Bytes>, round: uint64, shard: uint32, epoch: uint32)
      returns (r: Result<seq<Bytes>>)
      requires randomness.Some? ==> ConsensusSize() as int <= |ShardList(validators, shard)|
      ensures randomness.None? ==> r == Err(ErrNilRandomness)
      ensures randomness.Some? ==> r.Ok?
      ensures r.Ok? ==> r.value == PubKeys(ShardList(validators, shard)[..ConsensusSize()])
    {
      var group := ComputeConsensusGroup(randomness, round, shard, epoch);
      if group.Err? {
        return Err(group.error);
      }
      var validators := group.value;
      assert validators == ShardList(this.validators, shard)[..ConsensusSize()];
      var keys: seq<Bytes> := [];
      var i := 0;
      while i < |validators|
        invariant 0 <= i <= |validators|
        invariant keys == PubKeys(validators[..i])
      {
        PubKeysSnoc(validators[..i], validators[i]);
        assert validators[..i + 1] == validators[..i] + [validators[i]];
        keys := keys + [validators[i].pubKey];
        i := i + 1;
      }
      assert validators[..i] == validators;
      return Ok(keys);
    }

    /** The reward addresses of the consensus group, in group order; an error
        of the group computation is returned unchanged. */
    method GetConsensusValidatorsRewardsAddresses(randomness: Option<Bytes>, round: uint64, shard: uint32, epoch: uint32)
      returns (r: Result<seq<Bytes>>)
      requires randomness.Some? ==> ConsensusSize() as int <= |ShardList(validators, shard)|
      ensures randomness.None? ==> r == Err(ErrNilRandomness)
      ensures randomness.Some? ==> r.Ok?
      ensures r.Ok? ==> r.value == Addresses(ShardList(validators, shard)[..ConsensusSize()])
    {
      var group := ComputeConsensusGroup(randomness, round, shard, epoch);
      if group.Err? {
        return Err(group.error);
      }
      var validators := group.value;
      assert validators == ShardList(this.validators, shard)[..ConsensusSize()];
      var addresses: seq<Bytes> := [];
      var i := 0;
      while i < |validators|
        invariant 0 <= i <= |validators|
        invariant addresses == Addresses(validators[..i])
      {
        AddressesSnoc(validators[..i], validators[i]);
        assert validators[..i + 1] == validators[..i] + [validators[i]];
        addresses := addresses + [validators[i].address];
        i := i + 1;
      }
      assert validators[..i] == validators;
      return Ok(addresses);
    }

    /** Replaces the registry by `eligible`; a nil map is refused and leaves
        the registry as it was. `waiting` and `epoch` play no part, and no
        other field changes. */
    method SetNodesPerShards(eligible: Option<Registry>, waiting: Option<Registry>, epoch: uint32)
      returns (err: Option<Error>)
      modifies this`validators
      ensures eligible.None? ==> err == Some(ErrNilInputNodesMap) && validators == old(validators)
      ensures eligible.Some? ==> err.None? && validators == eligible.value
    {
      if eligible.None? {
        return Some(ErrNilInputNodesMap);
      }
      validators := eligible.value;
      return None;
    }

    /** Searches every shard for a validator with key `publicKey`. The
        shards are visited in an unspecified order (Go map iteration), each
        from its first validator, and the first match is returned. */
    method GetValidatorWithPublicKey(publicKey: Option<Bytes>, epoch: uint32)
      returns (r: Result<(Validator, uint32)>)
      ensures LookupOutcome(validators, publicKey, r)
    {
      if publicKey.None? {
        return Err(ErrNilPubKey);
      }
      var key := publicKey.value;
      var remaining := validators.Keys;
      while remaining != {}
        invariant remaining <= validators.Keys
        invariant forall s, i :: s in validators && s !in remaining && 0 <= i < |validators[s]| ==>
          validators[s][i].pubKey != key
        decreases remaining
      {
        var shard :| shard in remaining;
        var shardEligible := validators[shard];
        var i := 0;
        while i < |shardEligible|
          invariant 0 <= i <= |shardEligible|
          invariant forall j :: 0 <= j < i ==> shardEligible[j].pubKey != key
        {
          if shardEligible[i].pubKey == key {
            assert HasKey(validators, key) by {
              assert shard in validators && validators[shard][i].pubKey == key;
            }
            return Ok((shardEligible[i], shard));
          }
          i := i + 1;
        }
        remaining := remaining - {shard};
      }
      return Err(ErrValidatorNotFound);
    }

    /** The local node's own key: the constant "key". */
    function GetOwnPublicKey(): (key: Bytes)
      ensures key == [0x6B, 0x65, 0x79]
    {
      Ascii("key")
    }
  }
}
