/** Clients of the process-side coordinator: what a caller can conclude from
    the contracts alone when several operations are used in sequence. */
module Scenarios {
  import opened Sharding
  import opened ProcessMock

  /** After installing a registry whose keys are globally unique, looking up
      the key of any of its validators reports that validator and its shard. */
  method SetThenLookup(c: NodesCoordinatorMock, eligible: Registry, waiting: Option<Registry>, s: uint32, i: nat)
    returns (r: Result<(Validator, uint32)>)
    requires UniqueKeys(eligible) && s in eligible && i < |eligible[s]|
    modifies c
    ensures c.validators == eligible
    ensures r == Ok((eligible[s][i], s))
  {
    var err := c.SetNodesPerShards(Some(eligible), waiting, 1);
    r := c.GetValidatorWithPublicKey(Some(eligible[s][i].pubKey), 1);
    LookupFindsRegistered(eligible, s, i, r);
  }

  /** A new coordinator: every default validator is found under its own
      shard, and shard 0's group for empty randomness is its first validator. */
  method DefaultCoordinator(s: uint32, i: nat) returns (found: Result<(Validator, uint32)>, group: Result<seq<Validator>>)
    requires s == 0 || s == MetachainShardId
    requires i < 2
    ensures found == Ok((MockValidator(s, i), s))
    ensures group == Ok([MockValidator(0, 0)])
  {
    var c := new NodesCoordinatorMock();
    InitialKeysUnique();
    found := c.GetValidatorWithPublicKey(Some(MockValidator(s, i).pubKey), 0);
    LookupFindsRegistered(c.validators, s, i, found);
    group := c.ComputeConsensusGroup(Some([]), 5, 0, 1);
    assert group.value == [MockValidator(0, 0)];
  }

  /** Only a nil map is refused: an empty non-nil map is installed, after
      which listing keys reports the nil-input-map error. */
  method EmptyEligibleIsInstalled() returns (refused: Option<Error>, accepted: Option<Error>, keys: Result<seq<Bytes>>)
    ensures refused == Some(ErrNilInputNodesMap)
    ensures accepted.None?
    ensures keys == Err(ErrNilInputNodesMap)
  {
    var c := new NodesCoordinatorMock();
    refused := c.SetNodesPerShards(None, None, 1);
    assert c.validators == InitialRegistry();
    accepted := c.SetNodesPerShards(Some(map[]), Some(map[]), 1);
    keys := c.GetSelectedPublicKeys(Some([]), 0, 1);
  }
}
