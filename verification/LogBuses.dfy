/** The in-process log bus: subscribers by deployment, bounded channels, closing under the lock. */
module LogBuses {

  type Channel = nat

  datatype LogEvent = LogEvent(id: nat, deployment: string, line: string)

  const CHANNEL_SIZE: nat := 32

  /** Every event belongs to this deployment. */
  predicate AllOf(events: seq<LogEvent>, deployment: string) {
    forall i | 0 <= i < |events| :: events[i].deployment == deployment
  }

  class LogBus {
    var subscribers: map<string, set<Channel>>
    var buffers: map<Channel, seq<LogEvent>>
    var closed: set<Channel>

    /**
      Every subscribed channel is open, has at most its capacity of events, all of
      its own deployment, and is registered under that deployment only.
     */
    ghost predicate Valid()
      reads this
    {
      && closed <= buffers.Keys
      && (forall d | d in subscribers :: subscribers[d] != {} && subscribers[d] <= buffers.Keys - closed)
      && (forall d, e | d in subscribers && e in subscribers && d != e :: subscribers[d] !! subscribers[e])
      && (forall c | c in buffers :: |buffers[c]| <= CHANNEL_SIZE)
      && (forall d, c | d in subscribers && c in subscribers[d] :: AllOf(buffers[c], d))
    }

    function Listeners(deployment: string): set<Channel>
      reads this
    {
      if deployment in subscribers then subscribers[deployment] else {}
    }

    constructor ()
      ensures Valid() && subscribers == map[] && buffers == map[] && closed == {}
    {
      subscribers, buffers, closed := map[], map[], {};
    }

    /** A send on a channel; sending on a closed one would panic. A full channel drops the event. */
    method Offer(c: Channel, event: LogEvent)
      requires c in buffers && c !in closed
      modifies this`buffers
      ensures buffers == old(buffers)[c := Offered(old(buffers[c]), event)]
    {
      if |buffers[c]| < CHANNEL_SIZE {
        buffers := buffers[c := buffers[c] + [event]];
      } else {
        assert buffers == buffers[c := buffers[c]];
      }
    }

    /**
      Every open channel of the event's deployment with room gets it behind what it
      holds, a full one stays as it is, and no other channel changes.
     */
    method Publish(event: LogEvent)
      requires Valid()
      modifies this`buffers
      ensures Valid()
      ensures buffers.Keys == old(buffers.Keys)
      ensures forall c | c in Listeners(event.deployment) && |old(buffers)[c]| < 32 ::
                buffers[c] == old(buffers)[c] + [event]
      ensures forall c | c in Listeners(event.deployment) && |old(buffers)[c]| >= 32 :: buffers[c] == old(buffers)[c]
      ensures forall c | c in buffers && c !in Listeners(event.deployment) :: buffers[c] == old(buffers)[c]
    {
      OfferAll(event);
    }

    method OfferAll(event: LogEvent)
      requires Valid()
      modifies this`buffers
      ensures Valid()
      ensures buffers.Keys == old(buffers.Keys)
      ensures forall c | c in buffers ::
                buffers[c] == if c in Listeners(event.deployment)
                              then Offered(old(buffers)[c], event) else old(buffers)[c]
    {
      var remaining := Listeners(event.deployment);
      while remaining != {}
        invariant remaining <= Listeners(event.deployment)
        invariant buffers.Keys == old(buffers.Keys)
        invariant forall c | c in buffers ::
                    buffers[c] == if c in Listeners(event.deployment) - remaining
                                  then Offered(old(buffers)[c], event) else old(buffers)[c]
        decreases |remaining|
      {
        var c :| c in remaining;
        Offer(c, event);
        remaining := remaining - {c};
      }
    }

    /** subscribeLocal: a fresh, empty, open channel that hears its deployment from now on. */
    method Subscribe(deployment: string) returns (c: Channel)
      requires Valid()
      modifies this`subscribers, this`buffers
      ensures Valid()
      ensures c !in old(buffers) && buffers == old(buffers)[c := []]
      ensures Listeners(deployment) == old(Listeners(deployment)) + {c}
      ensures forall d | d != deployment :: Listeners(d) == old(Listeners(d))
    {
      c := FreshChannel();
      buffers := buffers[c := []];
      subscribers := subscribers[deployment := Listeners(deployment) + {c}];
    }

    method FreshChannel() returns (c: Channel)
      ensures c !in buffers
    {
      c := 0;
      var used := buffers.Keys;
      while c in used
        invariant used <= buffers.Keys
        invariant forall d | d in buffers :: d < c || d in used
        decreases |used|
      {
        used := used - {c};
        c := c + 1;
      }
    }

    /** The end of a subscription: unregistered and closed in one critical section. */
    method Close(deployment: string, c: Channel)
      requires Valid() && c in Listeners(deployment)
      modifies this`subscribers, this`closed
      ensures Valid()
      ensures closed == old(closed) + {c}
      ensures Listeners(deployment) == old(Listeners(deployment)) - {c}
      ensures forall d | d != deployment :: Listeners(d) == old(Listeners(d))
      ensures forall d :: c !in Listeners(d)
    {
      var left := subscribers[deployment] - {c};
      if left == {} {
        subscribers := subscribers - {deployment};
      } else {
        subscribers := subscribers[deployment := left];
      }
      closed := closed + {c};
    }
  }

  function Offered(buffer: seq<LogEvent>, event: LogEvent): seq<LogEvent> {
    if |buffer| < CHANNEL_SIZE then buffer + [event] else buffer
  }
}
