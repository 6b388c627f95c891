/**
 * The robot as a Modbus-TCP client sees it: a memory of coils that answers
 * Read Coils (function 0x01, section 6.1 of the MODBUS Application Protocol
 * Specification V1.1b3) and Write Single Coil (function 0x05, section 6.5),
 * any request of which may fail.
 *
 * Requests are numbered from 0 over the life of the link. Whether request n
 * fails is fixed by the environment (`faults`: time-outs, a dropped socket, a
 * device exception) or by the protocol itself (an illegal address or quantity,
 * exception codes 2 and 3). Reads do not change the coils, so what the device
 * answers to request n is a function of the coils, the faults and n.
 */
module Modbus {
  import opened Wrappers

  /** The largest quantity of coils one Read Coils request may ask for. */
  const MaxReadQuantity: nat := 2000

  datatype Request = Read(start: nat, quantity: nat) | Write(address: nat, value: bool)

  /** Whether request number `n` is served by a device with `size` coils. */
  predicate Accepts(size: nat, faults: set<nat>, n: nat, req: Request) {
    n !in faults &&
    match req
    case Read(start, quantity) => 1 <= quantity <= MaxReadQuantity && start + quantity <= size
    case Write(address, _) => address < size
  }

  /** The data returned by Read Coils as request number `n`, or None if it fails. */
  function ReadAnswer(coils: seq<bool>, faults: set<nat>, n: nat, start: nat, quantity: nat): (r: Option<seq<bool>>)
    ensures r.Some? <==> Accepts(|coils|, faults, n, Read(start, quantity))
    ensures r.Some? ==> |r.value| == quantity && forall i :: 0 <= i < quantity ==> r.value[i] == coils[start + i]
  {
    if Accepts(|coils|, faults, n, Read(start, quantity)) then Some(coils[start..start + quantity]) else None
  }

  /** Write Single Coil requests of `value`, one per address, in order. */
  function Writes(addresses: seq<nat>, value: bool): seq<Request> {
    seq(|addresses|, i requires 0 <= i < |addresses| => Write(addresses[i], value))
  }

  /** The requests for two address lists issued one after the other. */
  lemma WritesAppend(a: seq<nat>, b: seq<nat>, value: bool)
    ensures Writes(a + b, value) == Writes(a, value) + Writes(b, value)
  {
  }

  /** No request numbered n .. n + count - 1 meets an environment fault. */
  predicate FaultFree(faults: set<nat>, n: nat, count: nat) {
    forall j :: n <= j < n + count ==> j !in faults
  }

  /**
   * The coils after writing `value` to `addresses` in order, the first write
   * being request number `n`: each write takes effect iff it is accepted.
   */
  function Apply(coils: seq<bool>, addresses: seq<nat>, value: bool, n: nat, faults: set<nat>): (r: seq<bool>)
    ensures |r| == |coils|
    decreases |addresses|
  {
    if addresses == [] then coils
    else
      var last := |addresses| - 1;
      var before := Apply(coils, addresses[..last], value, n, faults);
      if Accepts(|coils|, faults, n + last, Write(addresses[last], value)) then before[addresses[last] := value]
      else before
  }

  /** Issuing one more write of a list: that write's effect on top of those before it. */
  lemma ApplyStep(coils: seq<bool>, addresses: seq<nat>, i: nat, value: bool, n: nat, faults: set<nat>)
    requires i < |addresses|
    ensures Apply(coils, addresses[..i + 1], value, n, faults) ==
      var before := Apply(coils, addresses[..i], value, n, faults);
      if Accepts(|coils|, faults, n + i, Write(addresses[i], value)) then before[addresses[i] := value] else before
    ensures Writes(addresses[..i + 1], value) == Writes(addresses[..i], value) + [Write(addresses[i], value)]
  {
    assert addresses[..i + 1][..i] == addresses[..i];
  }

  /**
   * How many writes of `addresses`, the first being request number `n`, are
   * accepted before the first one that fails (|addresses| if none fails).
   */
  function FirstRejected(size: nat, faults: set<nat>, n: nat, addresses: seq<nat>, value: bool): (k: nat)
    ensures k <= |addresses|
    ensures forall j :: 0 <= j < k ==> Accepts(size, faults, n + j, Write(addresses[j], value))
    ensures k < |addresses| ==> !Accepts(size, faults, n + k, Write(addresses[k], value))
    decreases |addresses|
  {
    if addresses == [] || !Accepts(size, faults, n, Write(addresses[0], value)) then 0
    else 1 + FirstRejected(size, faults, n + 1, addresses[1..], value)
  }

  /** Issuing two lists of writes one after the other is issuing their concatenation. */
  lemma {:induction false} ApplyAppend(coils: seq<bool>, a: seq<nat>, b: seq<nat>, value: bool, n: nat, faults: set<nat>)
    ensures Apply(coils, a + b, value, n, faults) == Apply(Apply(coils, a, value, n, faults), b, value, n + |a|, faults)
    decreases |b|
  {
    if b == [] {
      assert a + b == a;
    } else {
      var last := |b| - 1;
      assert (a + b)[..|a| + last] == a + b[..last];
      ApplyAppend(coils, a, b[..last], value, n, faults);
    }
  }

  /**
   * Without faults, coil `c` ends up holding `value` if it was written and keeps
   * its old value otherwise.
   */
  lemma {:induction false} ApplyAt(coils: seq<bool>, addresses: seq<nat>, value: bool, n: nat, faults: set<nat>, c: nat)
    requires FaultFree(faults, n, |addresses|)
    requires c < |coils|
    ensures Apply(coils, addresses, value, n, faults)[c] == if c in addresses then value else coils[c]
    decreases |addresses|
  {
    if addresses != [] {
      var last := |addresses| - 1;
      ApplyAt(coils, addresses[..last], value, n, faults, c);
      assert addresses == addresses[..last] + [addresses[last]];
    }
  }

  /** Without faults, issuing the same writes twice leaves the coils as issuing them once. */
  lemma ApplyIdempotent(coils: seq<bool>, addresses: seq<nat>, value: bool, n: nat, m: nat, faults: set<nat>)
    requires FaultFree(faults, n, |addresses|) && FaultFree(faults, m, |addresses|)
    ensures var once := Apply(coils, addresses, value, n, faults);
            Apply(once, addresses, value, m, faults) == once
  {
    var once := Apply(coils, addresses, value, n, faults);
    var twice := Apply(once, addresses, value, m, faults);
    forall c | 0 <= c < |coils|
      ensures twice[c] == once[c]
    {
      ApplyAt(coils, addresses, value, n, faults, c);
      ApplyAt(once, addresses, value, m, faults, c);
    }
  }

  /**
   * Writing a value every written coil already holds changes nothing, whichever
   * writes fail.
   */
  lemma {:induction false} ApplyNoChange(coils: seq<bool>, addresses: seq<nat>, value: bool, n: nat, faults: set<nat>)
    requires forall a :: a in addresses && a < |coils| ==> coils[a] == value
    ensures Apply(coils, addresses, value, n, faults) == coils
    decreases |addresses|
  {
    if addresses != [] {
      var last := |addresses| - 1;
      forall a | a in addresses[..last] && a < |coils| ensures coils[a] == value {
        assert a in addresses;
      }
      ApplyNoChange(coils, addresses[..last], value, n, faults);
    }
  }

  /** The device seen by a client: its coils and every request made of it so far. */
  class Bus {
    var coils: seq<bool>
    var log: seq<Request>
    const faults: set<nat>

    constructor (coils: seq<bool>, faults: set<nat>)
      ensures this.coils == coils && this.faults == faults && log == []
    {
      this.coils := coils;
      this.faults := faults;
      log := [];
    }

    /** Read Coils: `quantity` coils from `start`, or None if the request fails. */
    method ReadCoils(start: nat, quantity: nat) returns (r: Option<seq<bool>>)
      modifies this`log
      ensures log == old(log) + [Read(start, quantity)]
      ensures r == ReadAnswer(coils, faults, |old(log)|, start, quantity)
    {
      r := ReadAnswer(coils, faults, |log|, start, quantity);
      log := log + [Read(start, quantity)];
    }

    /** Write Single Coil: the coil takes `value` iff the request is accepted. */
    method WriteCoil(address: nat, value: bool) returns (ok: bool)
      modifies this`log, this`coils
      ensures log == old(log) + [Write(address, value)]
      ensures ok == Accepts(|old(coils)|, faults, |old(log)|, Write(address, value))
      ensures coils == if ok then old(coils)[address := value] else old(coils)
    {
      ok := Accepts(|coils|, faults, |log|, Write(address, value));
      if ok {
        coils := coils[address := value];
      }
      log := log + [Write(address, value)];
    }
  }
}
