/**
 * The subscriber map with its channels as objects updated in place: the publish loops of
 * `MemoryBus.Publish` and `Server.broadcastEvent`, and the critical sections of the two
 * `Subscribe` methods (internal/bus/memory/bus.go, internal/bus/server_subscribe.go). Each
 * method is what one goroutine does while it holds the lock.
 */
module SubscriberTable {
  import opened Wrappers
  import opened PubSub

  class Channel {
    var buf: seq<Message>
    var closed: bool

    constructor ()
      ensures buf == [] && !closed
    {
      buf, closed := [], false;
    }

    /** Takes the oldest buffered message. */
    method Receive() returns (m: Message)
      requires buf != []
      modifies this`buf
      ensures [m] + buf == old(buf)
    {
      m := buf[0];
      buf := buf[1..];
    }

    /** Closing twice would panic. */
    method Close()
      requires !closed
      modifies this`closed
      ensures closed
    {
      closed := true;
    }
  }

  class Table {
    var subscribers: map<string, Channel>

    /** Every registered channel is open, and no two clients share one. */
    ghost predicate Valid()
      reads this, subscribers.Values
    {
      && (forall c <- subscribers :: !subscribers[c].closed && |subscribers[c].buf| <= CAPACITY)
      && (forall c <- subscribers, d <- subscribers | c != d :: subscribers[c] != subscribers[d])
    }

    constructor ()
      ensures Valid() && subscribers == map[]
    {
      subscribers := map[];
    }

    /** Offers the message to every subscriber once; one whose buffer is full does not hold up the others. */
    method Publish(message: Option<Message>) returns (accepted: bool)
      requires Valid()
      modifies subscribers.Values
      ensures Valid() && subscribers == old(subscribers)
      ensures accepted == message.Some?
      ensures forall c <- subscribers :: subscribers[c].buf ==
                if message.Some? then Buffered(old(subscribers[c].buf), message.value) else old(subscribers[c].buf)
    {
      if message.None? {
        return false;
      }
      var remaining := subscribers.Keys;
      while remaining != {}
        invariant Valid() && subscribers == old(subscribers) && remaining <= subscribers.Keys
        invariant forall c <- subscribers :: subscribers[c].buf ==
                    if c in remaining then old(subscribers[c].buf) else Buffered(old(subscribers[c].buf), message.value)
        decreases |remaining|
      {
        var client :| client in remaining;
        var ch := subscribers[client];
        if |ch.buf| < CAPACITY {
          ch.buf := ch.buf + [message.value];
        }
        remaining := remaining - {client};
      }
      return true;
    }

    /** MemoryBus: an empty or taken client id is refused. */
    method RegisterUnique(client: string) returns (r: Result<Channel, string>)
      requires Valid()
      modifies this
      ensures Valid()
      ensures r.Ok? <==> client != "" && client !in old(subscribers)
      ensures r.Ok? ==> fresh(r.value) && r.value.buf == [] && subscribers == old(subscribers)[client := r.value]
      ensures r.Err? ==> subscribers == old(subscribers)
    {
      if client == "" {
        return Err("client_id cannot be empty");
      }
      var ch := new Channel();
      if client in subscribers {
        return Err("client is already subscribed");
      }
      subscribers := subscribers[client := ch];
      return Ok(ch);
    }

    /** Server: a new subscription silently replaces one under the same id. */
    method RegisterOverwriting(client: string) returns (ch: Channel)
      requires Valid()
      modifies this
      ensures Valid() && fresh(ch) && ch.buf == [] && subscribers == old(subscribers)[client := ch]
    {
      ch := new Channel();
      subscribers := subscribers[client := ch];
    }

    /** Removes whatever is registered under the id; the channel itself is left as it is. */
    method Unregister(client: string)
      requires Valid()
      modifies this
      ensures Valid() && subscribers == old(subscribers) - {client}
    {
      subscribers := subscribers - {client};
    }

    /** MemoryBus: the leaver's own channel leaves the map and is closed under one lock. */
    method UnregisterAndClose(client: string, ch: Channel)
      requires Valid() && client in subscribers && subscribers[client] == ch
      modifies this, ch
      ensures Valid() && subscribers == old(subscribers) - {client} && ch.closed
      ensures ch.buf == old(ch.buf)
    {
      subscribers := subscribers - {client};
      ch.Close();
    }
  }
}
