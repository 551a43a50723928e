/** How many legs a tunnel has, and on which indices (`QuickTunnelManager`). */
module Manager {
  import Tunnel

  const DEFAULT_HA_CONNECTIONS: nat := 2

  class QuickTunnelManager {
    var haConnections: nat

    constructor ()
      ensures haConnections == 2
    {
      haConnections := DEFAULT_HA_CONNECTIONS;
    }

    method WithHaConnections(n: nat)
      modifies this
      ensures 1 <= n <= 4 ==> haConnections == n
      ensures n == 0 ==> haConnections == 1
      ensures n > 4 ==> haConnections == 4
    {
      haConnections := if n < 1 then 1 else if n > Tunnel.MAX_HA_CONNECTIONS then Tunnel.MAX_HA_CONNECTIONS else n;
    }

    /** The connection indices of the reactors that `start_inner` spawns: always leg 0, and then one for each
        further connection asked for, all distinct. The count is the field's, which need not have been
        clamped. */
    method SpawnReactors() returns (indices: seq<nat>)
      ensures |indices| == if haConnections == 0 then 1 else haConnections
      ensures forall k | 0 <= k < |indices| :: indices[k] == k
    {
      indices := [0];
      var idx := 1;
      while idx < haConnections
        invariant |indices| == idx && 1 <= idx && (haConnections > 0 ==> idx <= haConnections)
        invariant haConnections == 0 ==> idx == 1
        invariant forall k | 0 <= k < idx :: indices[k] == k
      {
        indices := indices + [idx];
        idx := idx + 1;
      }
    }
  }
}
