/** The nodes coordinator used by the node tests: no state, a fixed
    nine-validator consensus group whatever is asked, and the two views of
    that group. Only the path taken when no test hook is installed is
    modelled. */
module NodeMock {
  import opened Sharding
  import opened Format

  /** The one-letter text "A", "B", "C", ... for i = 0, 1, 2, ... */
  function Letter(i: nat): Bytes
    requires i < 26
  {
    [('A' as int + i) as byte]
  }

  /** Always (nil, nil). */
  function GetAllValidatorsPublicKeys(epoch: uint32): (r: (Option<map<uint32, seq<Bytes>>>, Option<Error>))
    ensures r.0.None? && r.1.None?
  {
    (None, None)
  }

  /** Always succeeds, whatever the inputs: nine validators with keys "A" to
      "I" and addresses "AA" to "II", in that order, stake 0 and rating 0. */
  function ComputeConsensusGroup(randomness: Option<Bytes>, round: uint64, shard: uint32, epoch: uint32)
    : (r: Result<seq<Validator>>)
    ensures r.Ok? && |r.value| == 9
    ensures forall i :: 0 <= i < 9 ==>
      r.value[i].stake == 0 && r.value[i].rating == 0 &&
      r.value[i].pubKey == Letter(i) && r.value[i].address == Letter(i) + Letter(i)
  {
    Ok([
      Validator(0, 0, Ascii("A"), Ascii("AA")),
      Validator(0, 0, Ascii("B"), Ascii("BB")),
      Validator(0, 0, Ascii("C"), Ascii("CC")),
      Validator(0, 0, Ascii("D"), Ascii("DD")),
      Validator(0, 0, Ascii("E"), Ascii("EE")),
      Validator(0, 0, Ascii("F"), Ascii("FF")),
      Validator(0, 0, Ascii("G"), Ascii("GG")),
      Validator(0, 0, Ascii("H"), Ascii("HH")),
      Validator(0, 0, Ascii("I"), Ascii("II"))
    ])
  }

  /** The keys of the fixed group in group order: "A" to "I". The source's
      error check after computing the group cannot fire, because the group
      computation always succeeds, so it has no counterpart here. */
  method GetConsensusValidatorsPublicKeys(randomness: Option<Bytes>, round: uint64, shard: uint32, epoch: uint32)
    returns (r: Result<seq<Bytes>>)
    ensures r.Ok? && r.value == PubKeys(ComputeConsensusGroup(randomness, round, shard, epoch).value)
    ensures |r.value| == 9 && forall i :: 0 <= i < 9 ==> r.value[i] == Letter(i)
  {
    var validators := ComputeConsensusGroup(randomness, round, shard, epoch).value;
    var pubKeys: seq<Bytes> := [];
    var i := 0;
    while i < |validators|
      invariant 0 <= i <= |validators|
      invariant pubKeys == PubKeys(validators[..i])
    {
      PubKeysSnoc(validators[..i], validators[i]);
      assert validators[..i + 1] == validators[..i] + [validators[i]];
      pubKeys := pubKeys + [validators[i].pubKey];
      i := i + 1;
    }
    assert validators[..i] == validators;
    PubKeysAt(validators);
    return Ok(pubKeys);
  }

  /** The reward addresses of the fixed group in group order: "AA" to "II". */
  method GetConsensusValidatorsRewardsAddresses(randomness: Option<Bytes>, round: uint64, shard: uint32, epoch: uint32)
    returns (r: Result<seq<Bytes>>)
    ensures r.Ok? && r.value == Addresses(ComputeConsensusGroup(randomness, round, shard, epoch).value)
    ensures |r.value| == 9 && forall i :: 0 <= i < 9 ==> r.value[i] == Letter(i) + Letter(i)
  {
    var validators := ComputeConsensusGroup(randomness, round, shard, epoch).value;
    var addresses: seq<Bytes> := [];
    var i := 0;
    while i < |validators|
      invariant 0 <= i <= |validators|
      invariant addresses == Addresses(validators[..i])
    {
      AddressesSnoc(validators[..i], validators[i]);
      assert validators[..i + 1] == validators[..i] + [validators[i]];
      addresses := addresses + [validators[i].address];
      i := i + 1;
    }
    assert validators[..i] == validators;
    AddressesAt(validators);
    return Ok(addresses);
  }

  /** Accepts anything and changes nothing: always a nil error. */
  function SetNodesPerShards(eligible: Option<Registry>, waiting: Option<Registry>, epoch: uint32): (err: Option<Error>)
    ensures err.None?
  {
    None
  }
}
