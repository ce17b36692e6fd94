/** The hub's own methods and loops, changing its fields in place, proved to perform the actions of the
    state machine in module Hub: enqueueing, sending, the broadcast loop, draining and closing. */
module HubCode {
  import opened Hub

  const SEND_CAPACITY: nat := 256

  datatype Reply = Accepted | HubStopped | HubNotRunning | QueueFull

  /** Whether a connection takes a message: it is open and its send queue has room. */
  predicate CanTake(c: Conn, closed: set<Conn>, queues: map<Conn, seq<Message>>) {
    c !in closed && HasRoom(c, queues)
  }

  predicate HasRoom(c: Conn, queues: map<Conn, seq<Message>>) { |Waiting(c, queues)| < SEND_CAPACITY }

  function Waiting(c: Conn, queues: map<Conn, seq<Message>>): seq<Message> {
    if c in queues then queues[c] else []
  }

  /** The loop can take the actions one after the other, starting in s. */
  ghost predicate Possible(s: State, actions: seq<RunAction>)
    decreases |actions|, 0
  {
    actions == [] || (Possible(s, Before(actions)) && RunEnabled(After(s, Before(actions)), Last(actions)))
  }

  ghost function After(s: State, actions: seq<RunAction>): State
    requires Possible(s, actions)
    decreases |actions|, 1
  {
    if actions == [] then s else RunStep(After(s, Before(actions)), Last(actions))
  }

  function Before(actions: seq<RunAction>): seq<RunAction>
    requires actions != []
  {
    actions[..|actions| - 1]
  }

  function Last(actions: seq<RunAction>): RunAction
    requires actions != []
  {
    actions[|actions| - 1]
  }

  lemma OneMore(s: State, actions: seq<RunAction>, a: RunAction)
    requires Possible(s, actions) && RunEnabled(After(s, actions), a)
    ensures Possible(s, actions + [a]) && After(s, actions + [a]) == RunStep(After(s, actions), a)
  {
    assert Before(actions + [a]) == actions;
  }

  lemma NoActions(s: State)
    ensures Possible(s, []) && After(s, []) == s
  {
  }

  lemma SendIsEnabled(s: State, actions: seq<RunAction>, conn: Conn, room: bool)
    requires Possible(s, actions) && After(s, actions).runner.Casting? && conn in After(s, actions).runner.todo
    ensures RunEnabled(After(s, actions), Sends(conn, room))
    ensures RunStep(After(s, actions), Sends(conn, room)) == Sent(After(s, actions), conn, room)
  {
  }

  /** A connection is taken from its queue and closed. */
  lemma DrainsConn(s: State, actions: seq<RunAction>, q: Queue)
    requires Possible(s, actions) && After(s, actions).runner == Draining
    requires NonEmpty(After(s, actions), q) && !q.BroadcastQueue?
    ensures var more := actions + [RunAction.Drains(q), RunAction.Discards];
      var t := After(s, actions);
      && Possible(s, more)
      && After(s, more) == Popped(t, q).(closed := t.closed + {HeadConn(t, q)}, runner := Draining)
  {
    var t := After(s, actions);
    OneMore(s, actions, RunAction.Drains(q));
    OneMore(s, actions + [RunAction.Drains(q)], RunAction.Discards);
    assert actions + [RunAction.Drains(q)] + [RunAction.Discards]
      == actions + [RunAction.Drains(q), RunAction.Discards];
    hide Possible, After;
  }

  lemma DrainsMessage(s: State, actions: seq<RunAction>)
    requires Possible(s, actions) && After(s, actions).runner == Draining && After(s, actions).broadcast != []
    ensures var more := actions + [RunAction.Drains(BroadcastQueue)];
      Possible(s, more) && After(s, more) == Popped(After(s, actions), BroadcastQueue).(runner := Draining)
  {
    OneMore(s, actions, RunAction.Drains(BroadcastQueue));
    hide Possible, After;
  }

  /** What a call with its checks and its enqueue comes to when nothing happens in between. */
  function EnqueuedAtOnce(s: State, r: Request, requireStarted: bool): State {
    if s.stopped || (requireStarted && !s.runStarted) then Refused(s, r) else Enqueued(s, r)
  }

  lemma EnqueuedKeepsPending(s: State, id: nat, r: Request)
    requires id !in s.pending
    ensures var t := s.(pending := s.pending[id := r]);
      Enqueued(t, r).(pending := t.pending - {id}) == Enqueued(s, r)
  {
    assert s.pending[id := r] - {id} == s.pending;
  }

  lemma AtOnceIsTwoActions(s: State, id: nat, r: Request, requireStarted: bool)
    requires ClientEnabled(s, BeginEnqueue(id, r, requireStarted))
    ensures var t := ClientStep(s, BeginEnqueue(id, r, requireStarted));
      EnqueuedAtOnce(s, r, requireStarted) == if id in t.pending then ClientStep(t, FinishEnqueue(id)) else t
  {
    hide Enqueued, Refused, StopHoldsLock;
    EnqueuedKeepsPending(s, id, r);
    if s.stopped || (requireStarted && !s.runStarted) { RefusedKeepsPending(s, r); }
  }

  lemma RefusedKeepsPending(s: State, r: Request)
    ensures Refused(s, r).pending == s.pending
  {
  }

  class HubObject {
    var members: set<Conn>
    var register: seq<Conn>
    var unregister: seq<Conn>
    var broadcast: seq<Message>
    var stopped: bool
    var runStarted: bool
    var closed: set<Conn>                   // of the connections: their closed marks
    var queues: map<Conn, seq<Message>>     // and what waits in their send queues

    constructor ()
      ensures members == {} && register == [] && unregister == [] && broadcast == []
      ensures !stopped && !runStarted && closed == {} && queues == map[]
    {
      members, register, unregister, broadcast := {}, [], [], [];
      stopped, runStarted, closed, queues := false, false, {}, map[];
    }

    /** The machine's state s has these fields. */
    ghost predicate Agrees(s: State)
      reads this
    {
      && s.members == members && s.register == register && s.unregister == unregister && s.broadcast == broadcast
      && s.stopped == stopped && s.runStarted == runStarted && s.closed == closed
    }

    /** A refused connection is closed. */
    method EnqueueRegister(conn: Conn, requireStarted: bool, ghost s: State) returns (r: Reply)
      requires Agrees(s)
      modifies `register, `closed
      ensures Agrees(EnqueuedAtOnce(s, Register(conn), requireStarted))
      ensures r == HubStopped <==> stopped
      ensures r == HubNotRunning <==> !stopped && requireStarted && !runStarted
      ensures r == QueueFull <==>
        (!stopped && (requireStarted ==> runStarted) && |old(register)| >= QUEUE_CAPACITY)
      ensures r == Accepted ==> register == old(register) + [conn] && closed == old(closed)
      ensures r != Accepted ==> register == old(register) && closed == old(closed) + {conn}
    {
      if stopped {
        closed := closed + {conn};
        return HubStopped;
      }
      if requireStarted && !runStarted {
        closed := closed + {conn};
        return HubNotRunning;
      }
      if |register| < QUEUE_CAPACITY {
        register := register + [conn];
        return Accepted;
      }
      closed := closed + {conn};
      return QueueFull;
    }

    /** The other two queues refuse for the same reasons but close nothing. */
    method EnqueueUnregister(conn: Conn, requireStarted: bool, ghost s: State) returns (r: Reply)
      requires Agrees(s)
      modifies `unregister
      ensures Agrees(EnqueuedAtOnce(s, Unregister(conn), requireStarted))
      ensures r == HubStopped <==> stopped
      ensures r == HubNotRunning <==> !stopped && requireStarted && !runStarted
      ensures r == QueueFull <==>
        (!stopped && (requireStarted ==> runStarted) && |old(unregister)| >= QUEUE_CAPACITY)
      ensures unregister == if r == Accepted then old(unregister) + [conn] else old(unregister)
    {
      if stopped { return HubStopped; }
      if requireStarted && !runStarted { return HubNotRunning; }
      if |unregister| < QUEUE_CAPACITY {
        unregister := unregister + [conn];
        return Accepted;
      }
      return QueueFull;
    }

    method EnqueueBroadcast(message: Message, requireStarted: bool, ghost s: State) returns (r: Reply)
      requires Agrees(s)
      modifies `broadcast
      ensures Agrees(EnqueuedAtOnce(s, Broadcast(message), requireStarted))
      ensures r == HubStopped <==> stopped
      ensures r == HubNotRunning <==> !stopped && requireStarted && !runStarted
      ensures r == QueueFull <==>
        (!stopped && (requireStarted ==> runStarted) && |old(broadcast)| >= QUEUE_CAPACITY)
      ensures broadcast == if r == Accepted then old(broadcast) + [message] else old(broadcast)
    {
      if stopped { return HubStopped; }
      if requireStarted && !runStarted { return HubNotRunning; }
      if |broadcast| < QUEUE_CAPACITY {
        broadcast := broadcast + [message];
        return Accepted;
      }
      return QueueFull;
    }

    /** What the loop does with a connection taken from the register queue: it joins the set and stays open. */
    method Insert(conn: Conn, ghost s: State)
      requires Agrees(s) && s.runner == Inserting(conn)
      modifies `members
      ensures Agrees(RunStep(s, Inserts))
      ensures members == old(members) + {conn} && closed == old(closed)
    {
      members := members + {conn};
    }

    /** What the loop does with a connection taken from the unregister queue: a member leaves the set and
        is closed; anybody else is left alone. */
    method Remove(conn: Conn, ghost s: State)
      requires Agrees(s) && s.runner == Removing(conn)
      modifies `members, `closed
      ensures Agrees(RunStep(s, Removes))
      ensures members == old(members) - {conn}
      ensures closed == if conn in old(members) then old(closed) + {conn} else old(closed)
    {
      if conn in members {
        members := members - {conn};
        Close(conn);
      }
    }

    method Close(conn: Conn)
      modifies `closed
      ensures closed == old(closed) + {conn}
    {
      closed := closed + {conn};
    }

    /** Never waits: a closed connection or a full queue is an error. */
    method Send(conn: Conn, message: Message) returns (ok: bool)
      modifies `queues
      ensures ok == CanTake(conn, closed, old(queues))
      ensures ok <==> conn !in closed && |Waiting(conn, old(queues))| < SEND_CAPACITY
      ensures queues == if ok then old(queues)[conn := Waiting(conn, old(queues)) + [message]] else old(queues)
    {
      if conn in closed { return false; }
      if conn !in queues { queues := queues[conn := []]; }
      if |queues[conn]| < SEND_CAPACITY {
        queues := queues[conn := queues[conn] + [message]];
        return true;
      }
      return false;
    }

    /** One turn of the broadcast loop. */
    method SendOrDrop(conn: Conn, message: Message, ghost s: State)
      requires Agrees(s) && s.runner.Casting? && s.runner.message == message && conn in s.runner.todo
      modifies `members, `closed, `queues
      ensures Agrees(Sent(s, conn, HasRoom(conn, old(queues))))
      ensures Sent(s, conn, HasRoom(conn, old(queues))).runner == Casting(message, s.runner.todo - {conn})
      ensures members == if CanTake(conn, old(closed), old(queues)) then old(members) else old(members) - {conn}
      ensures closed == if CanTake(conn, old(closed), old(queues)) then old(closed) else old(closed) + {conn}
      ensures queues == if CanTake(conn, old(closed), old(queues))
                        then old(queues)[conn := Waiting(conn, old(queues)) + [message]] else old(queues)
    {
      hide DeliveryTo;
      var ok := Send(conn, message);
      if !ok {
        members := members - {conn};
        Close(conn);
      }
    }

    /** One broadcast: every member that can take it gets it, once, and stays; every other member is
        dropped and closed; nobody else is touched. */
    method SendToAll(message: Message, ghost s: State) returns (ghost actions: seq<RunAction>)
      requires Agrees(s) && s.runner == Casting(message, members)
      modifies `members, `closed, `queues
      ensures Possible(s, actions) && Agrees(After(s, actions)) && After(s, actions).runner == Casting(message, {})
      ensures forall c :: c in members <==> c in old(members) && CanTake(c, old(closed), old(queues))
      ensures forall c :: c in closed <==> c in old(closed) || (c in old(members) && c !in members)
      ensures forall c :: Waiting(c, queues) == Waiting(c, old(queues)) + (if c in members then [message] else [])
    {
      hide Possible, After, RunStep, RunEnabled, Sent;
      var todo := members;
      actions := [];
      NoActions(s);
      while todo != {}
        invariant Possible(s, actions) && Agrees(After(s, actions))
        invariant After(s, actions).runner == Casting(message, todo)
        invariant todo <= members <= old(members)
        invariant forall c :: c in old(members) && c !in todo ==>
          (c in members <==> CanTake(c, old(closed), old(queues)))
        invariant forall c :: c in closed <==> c in old(closed) || (c in old(members) && c !in members)
        invariant forall c ::
          Waiting(c, queues) == Waiting(c, old(queues)) + (if c in members && c !in todo then [message] else [])
        decreases |todo|
      {
        var conn :| conn in todo;
        todo := todo - {conn};
        ghost var room := HasRoom(conn, queues);
        SendIsEnabled(s, actions, conn, room);
        OneMore(s, actions, Sends(conn, room));
        SendOrDrop(conn, message, After(s, actions));
        actions := actions + [Sends(conn, room)];
      }
    }

    /** Empties the queues, whichever the select picks first: queued connections are closed, queued
        messages dropped. */
    method DrainPending(ghost s: State) returns (ghost actions: seq<RunAction>)
      requires Agrees(s) && s.runner == Draining
      modifies `register, `unregister, `broadcast, `closed
      ensures Possible(s, actions) && Agrees(After(s, actions)) && After(s, actions).runner == Draining
      ensures After(s, actions).members == s.members
      ensures register == [] && unregister == [] && broadcast == []
      ensures forall c :: c in closed <==> c in old(closed) || c in old(register) || c in old(unregister)
    {
      hide Possible, After, RunStep, RunEnabled;
      actions := [];
      NoActions(s);
      while register != [] || unregister != [] || broadcast != []
        invariant Possible(s, actions) && Agrees(After(s, actions)) && After(s, actions).runner == Draining
        invariant forall c ::
          (c in closed || c in register || c in unregister)
          <==> (c in old(closed) || c in old(register) || c in old(unregister))
        decreases |register| + |unregister| + |broadcast|
      {
        if {
          case register != [] =>
            var conn := register[0];
            DrainsConn(s, actions, RegisterQueue);
            actions := actions + [RunAction.Drains(RegisterQueue), RunAction.Discards];
            register := register[1..];
            Close(conn);
          case unregister != [] =>
            var conn := unregister[0];
            DrainsConn(s, actions, UnregisterQueue);
            actions := actions + [RunAction.Drains(UnregisterQueue), RunAction.Discards];
            unregister := unregister[1..];
            Close(conn);
          case broadcast != [] =>
            DrainsMessage(s, actions);
            actions := actions + [RunAction.Drains(BroadcastQueue)];
            broadcast := broadcast[1..];
        }
      }
    }

    method CloseAll(ghost s: State)
      requires Agrees(s) && s.runner == ClosingAll
      modifies `members, `closed
      ensures Agrees(RunStep(s, RunAction.ClosesAll))
      ensures members == {} && closed == old(closed) + old(members)
    {
      while members != {}
        invariant members <= old(members) && closed == old(closed) + (old(members) - members)
        decreases |members|
      {
        var conn :| conn in members;
        members := members - {conn};
        Close(conn);
      }
    }

    /** What the loop does when it sees the stop signal, and Stop itself if there is no loop: nothing is
        left and everybody queued or registered is closed. */
    method WindDown(ghost s: State) returns (ghost actions: seq<RunAction>)
      requires Agrees(s) && s.runner == Draining
      modifies `members, `register, `unregister, `broadcast, `closed
      ensures Possible(s, actions) && Agrees(After(s, actions)) && After(s, actions).runner == AllClosed
      ensures members == {} && register == [] && unregister == [] && broadcast == []
      ensures forall c :: c in closed <==>
        c in old(closed) || c in old(register) || c in old(unregister) || c in old(members)
    {
      actions := DrainPending(s);
      hide Possible, After;
      OneMore(s, actions, RunAction.Drained);
      actions := actions + [RunAction.Drained];
      CloseAll(After(s, actions));
      OneMore(s, actions, RunAction.ClosesAll);
      actions := actions + [RunAction.ClosesAll];
    }
  }
}
