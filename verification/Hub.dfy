/** Broadcasting to the clients of a conversation through bounded send queues. */
module Hubs {

  const SEND_QUEUE: nat := 64

  class Client {
    var queue: seq<string>
    var closed: bool

    constructor ()
      ensures queue == [] && !closed
    {
      queue, closed := [], false;
    }

    predicate HasRoom()
      reads this
    {
      !closed && |queue| < SEND_QUEUE
    }

    /** Never blocks: a full or closed queue refuses the frame. */
    method TrySend(payload: string) returns (ok: bool)
      modifies this
      ensures ok == old(HasRoom()) && closed == old(closed)
      ensures queue == if ok then old(queue) + [payload] else old(queue)
    {
      ok := !closed && |queue| < SEND_QUEUE;
      if ok {
        queue := queue + [payload];
      }
    }

    method Close()
      modifies this
      ensures closed && queue == old(queue)
    {
      closed := true;
    }
  }

  class Hub {
    var clients: map<string, set<Client>>

    /** Conversations without clients are not kept. */
    ghost predicate Valid()
      reads this
    {
      forall id :: id in clients ==> clients[id] != {}
    }

    function Members(id: string): set<Client>
      reads this
    {
      if id in clients then clients[id] else {}
    }

    constructor ()
      ensures Valid() && clients == map[]
    {
      clients := map[];
    }

    method Register(id: string, c: Client)
      requires Valid()
      modifies this
      ensures Valid() && Members(id) == old(Members(id)) + {c}
      ensures forall k :: k in clients <==> Members(k) != {}
      ensures forall k :: k != id ==> Members(k) == old(Members(k))
    {
      if id !in clients {
        clients := clients[id := {}];
      }
      clients := clients[id := clients[id] + {c}];
    }

    method Unregister(id: string, c: Client)
      requires Valid()
      modifies this
      ensures Valid() && Members(id) == old(Members(id)) - {c}
      ensures forall k :: k in clients <==> Members(k) != {}
      ensures forall k :: k != id ==> Members(k) == old(Members(k))
    {
      if id in clients {
        var bucket := clients[id] - {c};
        clients := if bucket == {} then clients - {id} else clients[id := bucket];
      }
    }

    /** Every registered client with room gets the frame exactly once; one without room is closed. */
    method Broadcast(id: string, payload: string)
      requires Valid()
      modifies Members(id)
      ensures forall c :: c in Members(id) ==>
                if old(c.HasRoom()) then c.queue == old(c.queue) + [payload] && !c.closed
                else c.queue == old(c.queue) && c.closed
    {
      ghost var all := Members(id);
      var todo := if id in clients then clients[id] else {};
      while todo != {}
        modifies Members(id)
        invariant todo <= all
        invariant forall c :: c in todo ==> c.queue == old(c.queue) && c.closed == old(c.closed)
        invariant forall c :: c in all - todo ==>
            if old(c.HasRoom()) then c.queue == old(c.queue) + [payload] && !c.closed
            else c.queue == old(c.queue) && c.closed
        decreases |todo|
      {
        var c :| c in todo;
        todo := todo - {c};
        var ok := c.TrySend(payload);
        if !ok {
          c.Close();
        }
      }
    }
  }
}
