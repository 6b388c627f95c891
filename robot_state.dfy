/**
 * Robot-state snapshots: the objects mapping a state key ("mint", "drinkReady",
 * ...) to a flag, built from the data of a batched Read Coils request.
 */
module RobotState {

  type Snapshot = map<string, bool>

  /** `state[key] === true`: a key the snapshot lacks is not true. */
  predicate IsTrue(s: Snapshot, key: string) {
    key in s && s[key]
  }

  /** `state[key] === false`: a key the snapshot lacks is not false either. */
  predicate IsFalse(s: Snapshot, key: string) {
    key in s && !s[key]
  }

  /** `data[i] === true`: an element the reply does not hold reads as false. */
  predicate Bit(data: seq<bool>, i: nat) {
    i < |data| && data[i]
  }

  predicate Distinct(keys: seq<string>) {
    forall i, j :: 0 <= i < j < |keys| ==> keys[i] != keys[j]
  }

  /** The system flags, read from coils 90, 91 and 92. */
  const SystemKeys: seq<string> := ["cupHolder", "drinkReady", "waitingRecipe"]

  /** The fields filled from one batched read: key i takes element i of the data. */
  function Decode(keys: seq<string>, data: seq<bool>): (s: Snapshot)
    requires Distinct(keys)
    ensures s.Keys == set k | k in keys
    ensures forall i :: 0 <= i < |keys| ==> s[keys[i]] == Bit(data, i)
  {
    map i | 0 <= i < |keys| :: keys[i] := Bit(data, i)
  }

  /** The fields set to false when their read fails. */
  function AllFalse(keys: seq<string>): (s: Snapshot)
    ensures s.Keys == set k | k in keys
    ensures forall k :: k in s ==> !s[k]
  {
    map k | k in keys :: false
  }
}
