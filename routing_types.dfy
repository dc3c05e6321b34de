/**
 * Transport addresses and the routing table that maps participant ids to them.
 * The routing table is shared state: the message router reads and updates it,
 * and static capability provisioning fills it at start-up.
 */
module RoutingTypes {

  /**
   * The address kinds a next hop can have. Only `InProcess` is treated specially
   * by the router (no serialization); the others are remote transports whose
   * fields serve as the equality key.
   */
  datatype Address =
    | InProcess
    | Channel(channelId: string)
    | Mqtt(brokerUri: string, topic: string)
    | CommonApiDbus(domain: string, serviceName: string, participantId: string)
    | Browser(windowId: string)
    | WebSocket(protocol: string, host: string, port: int, path: string)
    | WebSocketClient(id: string)

  /** The participant-id to address table, with the four map operations the router uses. */
  class RoutingTable {
    var table: map<string, Address>

    constructor ()
      ensures table == map[]
    {
      table := map[];
    }

    /** Adds or replaces the route of `participantId`: the last writer wins. */
    method Put(participantId: string, address: Address)
      modifies this
      ensures table == old(table)[participantId := address]
      ensures participantId in table && table[participantId] == address
      ensures forall p :: p != participantId ==> (p in table <==> p in old(table))
      ensures forall p :: p != participantId && p in table ==> table[p] == old(table)[p]
    {
      table := table[participantId := address];
    }

    /** Drops the route of `participantId`, if there is one. */
    method Remove(participantId: string)
      modifies this
      ensures table == old(table) - {participantId}
      ensures participantId !in table
      ensures forall p :: p != participantId ==> (p in table <==> p in old(table))
      ensures forall p :: p != participantId && p in table ==> table[p] == old(table)[p]
    {
      table := table - {participantId};
    }

    predicate ContainsKey(participantId: string)
      reads this
    {
      participantId in table
    }

    function Get(participantId: string): Address
      reads this
      requires ContainsKey(participantId)
    {
      table[participantId]
    }
  }
}
