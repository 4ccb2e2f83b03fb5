# Nodes coordinator model

A Dafny model of the two nodes-coordinator doubles of elrond-go. Both stand
in for the sharding package's coordinator, which assigns validators to
shards and picks a consensus group per round.

- `process/mock/nodesCoordinatorMock.go` is stateful. It holds a registry
  that maps each shard id to an ordered list of validators. Callers can
  replace the registry wholesale. The consensus group is the first
  `consensusSize` validators of the requested shard. The size is chosen from
  the coordinator's *own* shard id, not from the shard asked for. It also
  offers a key listing per shard and a lookup of a validator by public key
  across all shards. Modelled as the class
  `ProcessMock.NodesCoordinatorMock`, with loops where the source appends
  and searches.
- `node/mock/nodesCoordinatorMock.go` is stateless. It returns a fixed
  nine-validator group whatever it is asked, plus the key and address views
  of that group. Modelled as module `NodeMock`.

Shared pieces sit in module `Sharding`: the validator record, the sentinel
errors (`ErrNilInputNodesMap`, `ErrNilRandomness`, `ErrNilPubKey`,
`ErrValidatorNotFound`) and `Option`/`Result`. It also holds the two
projections `PubKeys` and `Addresses`, and the relational specification of
the lookup. Module `Format` models the `%d` verb that names the default
registry's keys ("pubKey00", "pubKey01", "pubKey42949672950", "pubKey42949672951"). Module `Scenarios`
holds clients that chain several calls.

Modelling choices:
- A Go nil is `None` and any non-nil value is `Some`, so an empty non-nil
  slice or map is distinct from nil. A nil `Validators` map reads exactly
  like an empty one in Go, so that field is a plain `map`.
- Bytes are `seq<byte>`. A Go `string(b)` has the same bytes, so `[]string`
  results are `seq<Bytes>`.
- `MetachainShardId` is `0xFFFFFFFF`, the largest uint32. The `core`
  package that defines it is not part of this model.
- The lookup visits shards in Go map order, which is unspecified. The model
  picks the next shard nondeterministically. Its contract,
  `Sharding.LookupOutcome`, therefore allows any shard that holds the key.
  Within that shard it reports the first match. With globally unique keys
  the result is unique (`Sharding.LookupDeterministic`).

Behaviour of the code worth noting:
- Only a nil eligible map is refused. An empty non-nil map is installed.
  After that, `GetSelectedPublicKeys` reports `ErrNilInputNodesMap`
  (`Scenarios.EmptyEligibleIsInstalled`).
- Only nil randomness is refused. Empty non-nil randomness is accepted.
- The group is a prefix of the shard's list, not a random sample.
- The group size follows the coordinator's own shard id.
- A group larger than the shard's list makes the code panic rather than
  return an error. That case is a precondition of `ComputeConsensusGroup`,
  and only when randomness is non-nil: with nil randomness the code returns
  before indexing.

## Model

| member | source | states |
|---|---|---|
| `Sharding.PubKeysAt` | process/mock/nodesCoordinatorMock.go:112-116 | the key view of a group has the group's length, and element i is the key of validator i |
| `Sharding.AddressesAt` | process/mock/nodesCoordinatorMock.go:137-140 | the address view of a group has the group's length, and element i is the reward address of validator i |
| `Sharding.LookupFindsRegistered` | process/mock/nodesCoordinatorMock.go:202-214 | with globally unique keys, every outcome the lookup allows for the key of validator i of shard s is exactly (that validator, s) |
| `Sharding.LookupDeterministic` | process/mock/nodesCoordinatorMock.go:206-212 | with globally unique keys, the lookup's result does not depend on the order in which shards are visited |
| `Sharding.PrefixGroupIsDrawnFromShard` | process/mock/nodesCoordinatorMock.go:187-191 | a prefix group has the requested size, draws only from the shard's list, has no repeated key when the shard has none, and its key view is the prefix of the shard's key view |
| `Format.Decimal` | process/mock/nodesCoordinatorMock.go:39-40 | `%d` gives at least one byte, all decimal digits, with no leading zero for numbers of two or more digits |
| `Format.ParseDecimalOfDecimal` | process/mock/nodesCoordinatorMock.go:39-40 | parsing the `%d` text of n gives back n |
| `Format.DecimalInjective` | process/mock/nodesCoordinatorMock.go:51-52 | distinct numbers have distinct `%d` texts |
| `Format.Format2Injective` | process/mock/nodesCoordinatorMock.go:39-40 | `prefix%d%d` with a one-digit second number determines both numbers |
| `ProcessMock.MockKeysDistinct` | process/mock/nodesCoordinatorMock.go:36-41 | two default validators with one-digit slots share a key only if they are the same slot of the same shard |
| `ProcessMock.InitialKeysUnique` | process/mock/nodesCoordinatorMock.go:28-56 | no two validators of the default registry share a public key, across both shards |
| `ProcessMock.NewShardValidators` | process/mock/nodesCoordinatorMock.go:34-42 | the slot-by-slot loop yields `count` validators, and slot v holds validator v of that shard (stake 10, rating 1, key and address formatted from shard and slot) |
| `ProcessMock.NodesCoordinatorMock.constructor` | process/mock/nodesCoordinatorMock.go:28-65 | the registry holds exactly shard 0 and the metachain, with 2 validators each, all with stake 10 and rating 1; both group sizes are 1, own shard 0, one shard |
| `ProcessMock.NodesCoordinatorMock.GetAllValidatorsPublicKeys` | process/mock/nodesCoordinatorMock.go:68-70 | returns a nil map and a nil error |
| `ProcessMock.NodesCoordinatorMock.GetValidatorsIndexes` | process/mock/nodesCoordinatorMock.go:73-75 | returns a nil list and a nil error |
| `ProcessMock.NodesCoordinatorMock.GetSelectedPublicKeys` | process/mock/nodesCoordinatorMock.go:78-94 | an empty registry yields `ErrNilInputNodesMap`; otherwise it succeeds with the shard's keys in registry order, which is the empty list for an unknown shard; `selection` is ignored |
| `ProcessMock.NodesCoordinatorMock.ComputeConsensusGroup` | process/mock/nodesCoordinatorMock.go:165-194 | nil randomness yields `ErrNilRandomness`; otherwise it succeeds with exactly `ConsensusSize()` validators, validator i being validator i of the requested shard; the size is the meta size iff the coordinator's own shard is the metachain |
| `ProcessMock.NodesCoordinatorMock.GetConsensusValidatorsPublicKeys` | process/mock/nodesCoordinatorMock.go:97-119 | the group's error is passed through unchanged; otherwise it succeeds with the key view of exactly that group, in group order |
| `ProcessMock.NodesCoordinatorMock.GetConsensusValidatorsRewardsAddresses` | process/mock/nodesCoordinatorMock.go:122-143 | the group's error is passed through unchanged; otherwise it succeeds with the address view of exactly that group, in group order |
| `ProcessMock.NodesCoordinatorMock.SetNodesPerShards` | process/mock/nodesCoordinatorMock.go:146-162 | a nil eligible map yields `ErrNilInputNodesMap` and leaves the registry as it was; otherwise the registry becomes exactly `eligible`, with a nil error; `waiting` and `epoch` are ignored and no other field may change |
| `ProcessMock.NodesCoordinatorMock.GetValidatorWithPublicKey` | process/mock/nodesCoordinatorMock.go:197-215 | a nil key yields `ErrNilPubKey`; if some shard holds the key, it returns the first validator with that key in one such shard, and that shard; if no shard holds it, it yields `ErrValidatorNotFound` |
| `ProcessMock.NodesCoordinatorMock.GetOwnPublicKey` | process/mock/nodesCoordinatorMock.go:218-220 | the own key is the three bytes of "key" |
| `NodeMock.GetAllValidatorsPublicKeys` | node/mock/nodesCoordinatorMock.go:17-19 | returns a nil map and a nil error |
| `NodeMock.ComputeConsensusGroup` | node/mock/nodesCoordinatorMock.go:22-46 | always succeeds, whatever the inputs: 9 validators, validator i having key the i-th letter from "A", address that letter twice, stake 0 and rating 0 |
| `NodeMock.GetConsensusValidatorsPublicKeys` | node/mock/nodesCoordinatorMock.go:49-71 | succeeds with the key view of the fixed group, which is "A" to "I" in group order |
| `NodeMock.GetConsensusValidatorsRewardsAddresses` | node/mock/nodesCoordinatorMock.go:74-95 | succeeds with the address view of the fixed group, which is "AA" to "II" in group order |
| `NodeMock.SetNodesPerShards` | node/mock/nodesCoordinatorMock.go:103-109 | always returns a nil error; there is no state to change |
| `Scenarios.SetThenLookup` | process/mock/nodesCoordinatorMock.go:155-159 | after installing a registry with globally unique keys, looking up any of its validators' keys returns that validator and its shard |
| `Scenarios.DefaultCoordinator` | process/mock/nodesCoordinatorMock.go:28-65 | on a new coordinator every default validator is found under its own shard, and shard 0's group for empty randomness is its first validator |
| `Scenarios.EmptyEligibleIsInstalled` | process/mock/nodesCoordinatorMock.go:83-85 | a nil map is refused, an empty non-nil map is installed, and listing keys afterwards yields `ErrNilInputNodesMap` |

## Left out

- Test hooks: the `...Called` function fields are callbacks supplied by tests, so only the hook-free path is modelled. This includes the rewards-addresses method of both doubles, which tests the public-keys hook but calls the rewards hook.
- The methods of `node/mock/nodesCoordinatorMock.go` whose body is only `panic("implement me")`: `ConsensusGroupSize`, `GetSelectedPublicKeys`, `GetValidatorWithPublicKey`, `GetValidatorsIndexes`, `GetOwnPublicKey`. They have no behaviour to state.
- `IsInterfaceNil` in both doubles: a Go nil-receiver idiom with nothing to model.
- Stake is a `big.Int` in the source and a `nat` here. It is only stored.
- `sharding.NewValidator` is in the sharding package, and `NewValidatorMock` is in another file of the node double's own `mock` package. Neither definition is part of this model, so their records are built directly. The error that `NewValidator` may return is discarded by the source and not modelled.
- ProcessMock.NodesCoordinatorMock.ComputeConsensusGroup: a group larger than the shard's list makes the source panic. That case is a precondition here, not an outcome.
- ProcessMock.NodesCoordinatorMock.GetConsensusValidatorsPublicKeys: reaches the same panic through its call to `ComputeConsensusGroup` (process/mock/nodesCoordinatorMock.go:107), so it carries the same precondition.
- ProcessMock.NodesCoordinatorMock.GetConsensusValidatorsRewardsAddresses: reaches the same panic through its call to `ComputeConsensusGroup` (process/mock/nodesCoordinatorMock.go:132), so it carries the same precondition.
- ProcessMock.NodesCoordinatorMock.SetNodesPerShards: the source installs the caller's map by reference, and the slices inside it are shared too, so later changes the caller makes to `eligible` show up in the registry. The model installs an immutable value, so that aliasing is not captured.
- Validator records are never nil in the model. In the source a list entry is an interface value that a test may set to nil, and then `PubKey()` or `Address()` panics in the key listing, the two group views and the lookup.
- ProcessMock.NodesCoordinatorMock.GetValidatorWithPublicKey: on an error the source also returns a nil validator and shard 0. `Err` carries neither.
- Real consensus selection is not modelled: randomness expansion, hashing, and the rotation of eligible and waiting pools per epoch. That code is not part of this model. `round`, `epoch` and `waiting` are accepted and ignored, as in the source.
- Concurrency and atomic publication of the registry are not modelled. Both doubles are sequential.
- `process/interface.go`, `process/mock/gasHandlerMock.go` and the data pools under `dataRetriever/dataPool` are not modelled. They hold interface declarations, delegation to test callbacks, and getters over opaque caches.
