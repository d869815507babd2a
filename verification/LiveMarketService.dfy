/** The service that owns the selected product; a switch opens the hub's next session. */
module LiveMarketServices {
  import opened Wrappers
  import opened VenueEvents
  import opened LiveStreams

  class LiveMarketService {
    const hub: LiveStreamHub
    var product: Product
    var session: nat

    constructor (initial: Product, hub: LiveStreamHub)
      requires hub.Valid()
      modifies hub, hub.subscribers
      ensures this.hub == hub && hub.Valid() && hub.subscribers == old(hub.subscribers)
      ensures product == initial && session == hub.session == old(hub.session) + 1
      ensures hub.Contents() == BeginSession(old(hub.Contents()), initial).hub
    {
      this.hub := hub;
      product := initial;
      var id := hub.BeginProductSession(initial);
      session := id;
    }

    ghost predicate Valid()
      reads this, hub
    {
      hub.Valid() && session == hub.session && hub.product == Some(product)
    }

    method SwitchProduct(next: Product) returns (changed: bool)
      requires Valid()
      modifies this, hub, hub.subscribers
      ensures Valid() && hub.subscribers == old(hub.subscribers)
      ensures changed == (next != old(product)) && product == next
      ensures !changed ==> hub.Contents() == old(hub.Contents()) && session == old(session)
      ensures changed ==>
        session == old(session) + 1 && hub.Contents() == BeginSession(old(hub.Contents()), next).hub
      ensures forall k :: 0 <= k < |hub.subscribers| ==>
        hub.subscribers[k].messages
          == if changed then BeginSession(old(hub.Contents()), next).delivery.queue
            else old(hub.subscribers[k].messages)
    {
      if next == product {
        return false;
      }
      product := next;
      session := hub.BeginProductSession(next);
      return true;
    }
  }
}
