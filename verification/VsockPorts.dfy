/** The vsock ports the shim hands out for stdio (runtime/service.go): a counter that is never reset. */
module VsockPorts {
  import opened Outcomes

  const MAX_UINT32 := 0xFFFF_FFFF
  const MIN_VSOCK_IO_PORT := 11000

  newtype uint32 = x: int | 0 <= x <= 0xFFFF_FFFF

  /** Addition of uint32 values wraps around. */
  function WrappingAdd(a: uint32, b: uint32): uint32 {
    ((a as int + b as int) % (MAX_UINT32 + 1)) as uint32
  }

  /** The port nextVSockPort computes from the counter; None is the panic. */
  function PortOf(count: uint32): Option<uint32> {
    var port := WrappingAdd(MIN_VSOCK_IO_PORT as uint32, count);
    if port as int == MAX_UINT32 then None else Some(port)
  }

  class PortCounter {
    var vsockIOPortCount: uint32

    constructor ()
      ensures vsockIOPortCount == 0
    {
      vsockIOPortCount := 0;
    }

    method NextVSockPort() returns (port: Option<uint32>)
      modifies this
      ensures port == PortOf(old(vsockIOPortCount))
      ensures vsockIOPortCount == if port.Some? then WrappingAdd(old(vsockIOPortCount), 1) else old(vsockIOPortCount)
    {
      var p := WrappingAdd(MIN_VSOCK_IO_PORT as uint32, vsockIOPortCount);
      if p as int == MAX_UINT32 {
        return None;
      }
      vsockIOPortCount := WrappingAdd(vsockIOPortCount, 1);
      return Some(p);
    }
  }

  /** What `n` requests in a row return, in order; a panic ends the process and the sequence. */
  function Ports(count: uint32, n: nat): seq<uint32>
    decreases n
  {
    if n == 0 then []
    else match PortOf(count)
      case None => []
      case Some(p) => [p] + Ports(WrappingAdd(count, 1), n - 1)
  }

  /** How many ports there are before the panic: 11000 up to 4294967294. */
  const PORT_COUNT: nat := MAX_UINT32 - MIN_VSOCK_IO_PORT

  /** From any counter value short of the end, `n` requests return consecutive ports without any sum wrapping
      around, and stop exactly at the panic. */
  lemma {:induction false} PortsAreConsecutive(count: uint32, n: nat)
    requires count as int <= PORT_COUNT
    ensures var ps := Ports(count, n);
            && |ps| == (if count as int + n <= PORT_COUNT then n else PORT_COUNT - count as int)
            && forall i :: 0 <= i < |ps| ==> ps[i] as int == MIN_VSOCK_IO_PORT + count as int + i
    decreases n
  {
    hide PortOf, WrappingAdd;
    if n > 0 {
      NextPort(count);
      if PortOf(count).Some? {
        PortsAreConsecutive(WrappingAdd(count, 1), n - 1);
      }
    }
  }

  lemma NextPort(count: uint32)
    requires count as int <= PORT_COUNT
    ensures PortOf(count).Some? <==> count as int < PORT_COUNT
    ensures PortOf(count).Some? ==> PortOf(count).value as int == MIN_VSOCK_IO_PORT + count as int
    ensures WrappingAdd(count, 1) as int == count as int + 1
  {
  }

  /** The first `n` requests all succeed exactly when there are fewer than 4294956296 of them; their ports
      are the numbers from 11000 on, each once, in increasing order. */
  lemma AllPortsDistinct(n: nat)
    ensures |Ports(0, n)| == n <==> n < 4294956296
    ensures forall i :: 0 <= i < |Ports(0, n)| ==> Ports(0, n)[i] as int == MIN_VSOCK_IO_PORT + i
    ensures forall i, j :: 0 <= i < j < |Ports(0, n)| ==> Ports(0, n)[i] < Ports(0, n)[j]
  {
    PortsAreConsecutive(0, n);
  }

  /** The requests of many clients interleave: `owner[i]` made the i-th. The ports a client got. */
  ghost function PortsOf(owner: seq<nat>, client: nat): set<uint32> {
    set i | 0 <= i < |Ports(0, |owner|)| && i < |owner| && owner[i] == client :: Ports(0, |owner|)[i]
  }

  /** However the requests interleave, no port goes to two clients; so the stdin, stdout and stderr ports of one
      process are disjoint from those of every other. */
  lemma ClientsShareNoPort(owner: seq<nat>, a: nat, b: nat)
    requires a != b
    ensures PortsOf(owner, a) !! PortsOf(owner, b)
  {
    AllPortsDistinct(|owner|);
  }

  /** What `k` processes, one after the other, get: three ports each. */
  lemma TriplesThatFit(k: nat)
    ensures |Ports(0, 3 * k)| == 3 * k <==> k <= 1431652098
  {
    AllPortsDistinct(3 * k);
  }
}
