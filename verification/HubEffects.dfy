/** What the steps of the hub do to one connection: exactly when it enters the set, leaves it and is
    closed, and that it is served in between. */
module HubEffects {
  import opened Hub

  /** The request cannot be accepted: the hub is stopped, or does not run although it has to. */
  predicate Rejects(s: State, requireStarted: bool) { s.stopped || (requireStarted && !s.runStarted) }

  /** The step closes c: its own handler does, its registration is refused, the loop takes its leave or
      fails to send to it, or the loop or Stop winds down. */
  predicate Closes(s: State, a: Action, c: Conn) {
    match a
    case Client(CloseConnection(d)) => d == c
    case Client(BeginEnqueue(_, r, requireStarted)) => r == Register(c) && Rejects(s, requireStarted)
    case Client(FinishEnqueue(id)) =>
      id in s.pending && s.pending[id] == Register(c) && |s.register| >= QUEUE_CAPACITY
    case Run(Removes) => s.runner == Removing(c) && c in s.members
    case Run(Sends(d, room)) => d == c && (c in s.closed || !room)
    case Run(Discards) => s.runner == Discarding(c)
    case Run(ClosesAll) => c in s.members
    case Stop(Discards) => s.stopper == StopDiscarding(c)
    case Stop(ClosesAll) => c in s.members
    case _ => false
  }

  /** The step takes c out of the set: as before, for the steps that look at the set. */
  predicate Leaves(s: State, a: Action, c: Conn) {
    match a
    case Run(Removes) => s.runner == Removing(c)
    case Run(Sends(d, room)) => d == c && (c in s.closed || !room)
    case Run(ClosesAll) => true
    case Stop(ClosesAll) => true
    case _ => false
  }

  predicate Enters(s: State, a: Action, c: Conn) { a == Run(Inserts) && s.runner == Inserting(c) }

  predicate Exact(s: State, a: Action, t: State, c: Conn) {
    && (c in t.closed <==> c in s.closed || Closes(s, a, c))
    && (c in t.members <==> Enters(s, a, c) || (c in s.members && !Leaves(s, a, c)))
    && (c in t.members || c !in s.members || c in t.closed)
  }

  lemma ClientExact(s: State, a: ClientAction, c: Conn)
    requires ClientEnabled(s, a)
    ensures Exact(s, Client(a), ClientStep(s, a), c)
  {
    match a
    case BeginEnqueue(_, _, _) =>
    case FinishEnqueue(id) => EnqueuedExact(s, s.pending[id], c);
    case CloseConnection(_) =>
  }

  lemma EnqueuedExact(s: State, r: Request, c: Conn)
    ensures c in Enqueued(s, r).closed <==> c in s.closed || (r == Register(c) && |s.register| >= QUEUE_CAPACITY)
    ensures Enqueued(s, r).members == s.members
  {
  }

  lemma RunExact(s: State, a: RunAction, c: Conn)
    requires RunEnabled(s, a)
    ensures Exact(s, Run(a), RunStep(s, a), c)
  {
    if a.Sends? { SentExact(s, a.conn, a.room, c); }
    hide Joined, Sent, Taken, HeadConn, NonEmpty, QueuesEmpty;
  }

  lemma SentExact(s: State, d: Conn, room: bool, c: Conn)
    requires s.runner.Casting?
    ensures Exact(s, Run(Sends(d, room)), Sent(s, d, room), c)
  {
    hide DeliveryTo;
  }

  lemma StopExact(s: State, a: StopAction, c: Conn)
    requires StopEnabled(s, a)
    ensures Exact(s, Stop(a), StopStep(s, a), c)
  {
  }

  lemma CallerExact(s: State, a: CallerAction, c: Conn)
    requires CallerEnabled(s, a)
    ensures Exact(s, Caller(a), CallerStep(s, a), c)
  {
  }

  lemma StepExact(s: State, a: Action, c: Conn)
    requires Enabled(s, a)
    ensures Exact(s, a, Apply(s, a), c)
  {
    hide Exact, ClientStep, RunStep, StopStep, CallerStep, ClientEnabled, RunEnabled, StopEnabled, CallerEnabled;
    match a
    case Client(x) => ClientExact(s, x, c);
    case Run(r) => RunExact(s, r, c);
    case Stop(p) => StopExact(s, p, c);
    case Caller(w) => CallerExact(s, w, c);
  }

  /** In every run: exactly when a connection becomes closed, enters the set and leaves it. */
  lemma ChangesExactly(run: seq<State>, actions: seq<Action>, i: nat, c: Conn)
    requires IsRun(run, actions) && i < |actions|
    ensures c in run[i + 1].closed <==> c in run[i].closed || Closes(run[i], actions[i], c)
    ensures c in run[i + 1].members <==>
      Enters(run[i], actions[i], c) || (c in run[i].members && !Leaves(run[i], actions[i], c))
  {
    hide Enabled, Apply, Initial, Closes, Leaves, Enters;
    StepExact(run[i], actions[i], c);
  }

  /** The request's queue has room. */
  predicate HasRoom(s: State, r: Request) {
    match r
    case Register(_) => |s.register| < QUEUE_CAPACITY
    case Unregister(_) => |s.unregister| < QUEUE_CAPACITY
    case Broadcast(_) => |s.broadcast| < QUEUE_CAPACITY
  }

  /** The loop, or Stop when the loop has never run, takes the head of the queue. */
  predicate TakesFrom(a: Action, q: Queue) {
    a == Run(RunAction.Takes(q)) || a == Run(RunAction.Drains(q)) || a == Stop(StopAction.Drains(q))
  }

  /** Queues grow at the end by what is accepted, and shrink at the head by what is taken. */
  predicate QueuesChange(s: State, a: Action, t: State) {
    && t.register == (if TakesFrom(a, RegisterQueue) && s.register != [] then s.register[1..]
                      else s.register + AcceptedConns(s, a, true))
    && t.unregister == (if TakesFrom(a, UnregisterQueue) && s.unregister != [] then s.unregister[1..]
                        else s.unregister + AcceptedConns(s, a, false))
    && t.broadcast == (if TakesFrom(a, BroadcastQueue) && s.broadcast != [] then s.broadcast[1..]
                       else s.broadcast + AcceptedMessages(s, a))
    && t.offered == s.offered + AcceptedMessages(s, a)
    && t.accepted == s.accepted + set c | c in AcceptedConns(s, a, true)
  }

  function AcceptedConns(s: State, a: Action, registers: bool): seq<Conn> {
    if a.Client? && a.c.FinishEnqueue? && a.c.id in s.pending then
      match s.pending[a.c.id]
      case Register(c) => if registers && HasRoom(s, Register(c)) then [c] else []
      case Unregister(c) => if !registers && HasRoom(s, Unregister(c)) then [c] else []
      case Broadcast(_) => []
    else []
  }

  function AcceptedMessages(s: State, a: Action): seq<Message> {
    if a.Client? && a.c.FinishEnqueue? && a.c.id in s.pending && s.pending[a.c.id].Broadcast?
       && HasRoom(s, s.pending[a.c.id])
    then [s.pending[a.c.id].message] else []
  }

  /** What is taken goes into the taker's hands; the flags follow the steps of Run and Stop; a call that passes its
      checks holds the lock until it has enqueued. */
  predicate HandsChange(s: State, a: Action, t: State) {
    && (a == Run(RunAction.Takes(RegisterQueue)) && s.register != [] ==> t.runner == Inserting(s.register[0]))
    && (a == Run(RunAction.Takes(UnregisterQueue)) && s.unregister != [] ==> t.runner == Removing(s.unregister[0]))
    && (a == Run(RunAction.Takes(BroadcastQueue)) && s.broadcast != [] ==> t.runner == Holding(s.broadcast[0]))
    && (a == Run(Casts) && s.runner.Holding? ==>
          t.runner == Casting(s.runner.message, s.members) && t.processed == s.processed + [s.runner.message])
    && (t.runStarted <==> s.runStarted || a == Run(Starts))
    && (t.stopped <==> s.stopped || a == Stop(SetsFlag))
    && (t.stopClosed <==> s.stopClosed || a == Stop(ClosesChannel))
  }

  predicate PendingChanges(s: State, a: Action, t: State) {
    match a
    case Client(BeginEnqueue(id, r, requireStarted)) =>
      t.pending == if Rejects(s, requireStarted) then s.pending else s.pending[id := r]
    case Client(FinishEnqueue(id)) => t.pending == s.pending - {id}
    case _ => t.pending == s.pending
  }

  lemma ClientMoves(s: State, a: ClientAction)
    requires ClientEnabled(s, a)
    ensures QueuesChange(s, Client(a), ClientStep(s, a)) && HandsChange(s, Client(a), ClientStep(s, a))
    ensures PendingChanges(s, Client(a), ClientStep(s, a))
  {
    hide StopHoldsLock, HandsChange;
    ClientHands(s, a);
    if a.FinishEnqueue? {
      FinishMoves(s, a.id);
    } else {
      hide QueuesChange;
      Unmoved(s, Client(a), ClientStep(s, a));
    }
  }

  lemma ClientHands(s: State, a: ClientAction)
    requires ClientEnabled(s, a)
    ensures HandsChange(s, Client(a), ClientStep(s, a))
  {
    hide StopHoldsLock, RoomFor;
  }

  lemma FinishMoves(s: State, id: nat)
    requires id in s.pending
    ensures QueuesChange(s, Client(FinishEnqueue(id)), ClientStep(s, FinishEnqueue(id)))
  {
    hide AcceptedMessages, AcceptedConns;
    var a, r := Client(FinishEnqueue(id)), s.pending[id];
    AcceptedAre(s, id);
    assert s.register + [] == s.register && s.unregister + [] == s.unregister;
    assert s.broadcast + [] == s.broadcast && s.offered + [] == s.offered;
  }

  lemma AcceptedAre(s: State, id: nat)
    requires id in s.pending
    ensures var a, r := Client(FinishEnqueue(id)), s.pending[id];
      && AcceptedConns(s, a, true) == (if r.Register? && HasRoom(s, r) then [r.conn] else [])
      && AcceptedConns(s, a, false) == (if r.Unregister? && HasRoom(s, r) then [r.conn] else [])
      && AcceptedMessages(s, a) == (if r.Broadcast? && HasRoom(s, r) then [r.message] else [])
  {
  }

  lemma RunMoves(s: State, a: RunAction)
    requires RunEnabled(s, a)
    ensures QueuesChange(s, Run(a), RunStep(s, a)) && HandsChange(s, Run(a), RunStep(s, a))
    ensures PendingChanges(s, Run(a), RunStep(s, a))
  {
    hide QueuesChange, HandsChange, RunStep, RunEnabled;
    RunHands(s, a);
    if a.Takes? || a.Drains? {
      RunTakes(s, a);
      TakingMoves(s, Run(a), a.queue, RunStep(s, a));
    } else {
      RunLeavesQueues(s, a);
      Unmoved(s, Run(a), RunStep(s, a));
    }
  }

  lemma RunTakes(s: State, a: RunAction)
    requires RunEnabled(s, a) && (a.Takes? || a.Drains?)
    ensures NonEmpty(s, a.queue) && SameQueues(Popped(s, a.queue), RunStep(s, a)) && RunStep(s, a).pending == s.pending
  {
    hide Taken, HeadConn;
  }

  lemma RunLeavesQueues(s: State, a: RunAction)
    requires RunEnabled(s, a) && !a.Takes? && !a.Drains?
    ensures SameQueues(s, RunStep(s, a)) && RunStep(s, a).pending == s.pending
  {
    hide Joined, Sent, QueuesEmpty, Taken, HeadConn, Popped, NonEmpty;
    if a.Sends? { SentMoves(s, a.conn, a.room); }
  }

  lemma RunHands(s: State, a: RunAction)
    requires RunEnabled(s, a)
    ensures HandsChange(s, Run(a), RunStep(s, a))
  {
    if a.Sends? { SentMoves(s, a.conn, a.room); }
    hide Joined, Sent, QueuesEmpty, HeadConn;
  }

  lemma TakingMoves(s: State, a: Action, q: Queue, t: State)
    requires !a.Client? && NonEmpty(s, q) && TakesFrom(a, q) && SameQueues(Popped(s, q), t)
    ensures QueuesChange(s, a, t)
  {
    NothingAccepted(s, a);
    hide AcceptedMessages, AcceptedConns;
  }

  lemma SentMoves(s: State, c: Conn, room: bool)
    requires s.runner.Casting?
    ensures var t := Sent(s, c, room);
      && SameQueues(s, t) && t.pending == s.pending
      && t.runStarted == s.runStarted && t.stopped == s.stopped && t.stopClosed == s.stopClosed
  {
    hide DeliveryTo;
  }

  predicate SameQueues(s: State, t: State) {
    && t.register == s.register && t.unregister == s.unregister && t.broadcast == s.broadcast
    && t.offered == s.offered && t.accepted == s.accepted
  }

  lemma NothingAccepted(s: State, a: Action)
    requires !(a.Client? && a.c.FinishEnqueue?)
    ensures AcceptedConns(s, a, true) == [] && AcceptedConns(s, a, false) == [] && AcceptedMessages(s, a) == []
    ensures s.register + [] == s.register && s.unregister + [] == s.unregister
    ensures s.broadcast + [] == s.broadcast && s.offered + [] == s.offered
    ensures (set c | c in AcceptedConns(s, a, true)) == {}
  {
  }

  predicate TakesNothing(a: Action) { forall q: Queue :: !TakesFrom(a, q) }

  lemma Unmoved(s: State, a: Action, t: State)
    requires !(a.Client? && a.c.FinishEnqueue?) && TakesNothing(a)
    requires t.register == s.register && t.unregister == s.unregister && t.broadcast == s.broadcast
    requires t.offered == s.offered && t.accepted == s.accepted
    ensures QueuesChange(s, a, t)
  {
    NothingAccepted(s, a);
    hide AcceptedMessages, AcceptedConns;
  }

  lemma StopMoves(s: State, a: StopAction)
    requires StopEnabled(s, a)
    ensures QueuesChange(s, Stop(a), StopStep(s, a)) && HandsChange(s, Stop(a), StopStep(s, a))
    ensures PendingChanges(s, Stop(a), StopStep(s, a))
  {
    hide QueuesEmpty, HeadConn, QueuesChange;
    if a.Drains? {
      TakingMoves(s, Stop(a), a.queue, StopStep(s, a));
    } else {
      Unmoved(s, Stop(a), StopStep(s, a));
    }
  }

  lemma CallerMoves(s: State, a: CallerAction)
    requires CallerEnabled(s, a)
    ensures QueuesChange(s, Caller(a), CallerStep(s, a)) && HandsChange(s, Caller(a), CallerStep(s, a))
    ensures PendingChanges(s, Caller(a), CallerStep(s, a))
  {
    hide QueuesChange;
    Unmoved(s, Caller(a), CallerStep(s, a));
  }

  /** In every run: what one action does to the queues, to what is accepted, to the requests under way and to the
      flags. */
  lemma MovesExactly(run: seq<State>, actions: seq<Action>, i: nat)
    requires IsRun(run, actions) && i < |actions|
    ensures QueuesChange(run[i], actions[i], run[i + 1]) && HandsChange(run[i], actions[i], run[i + 1])
    ensures PendingChanges(run[i], actions[i], run[i + 1])
  {
    hide QueuesChange, HandsChange, PendingChanges, ClientStep, RunStep, StopStep, CallerStep;
    hide ClientEnabled, RunEnabled, StopEnabled, CallerEnabled;
    match actions[i]
    case Client(x) => ClientMoves(run[i], x);
    case Run(r) => RunMoves(run[i], r);
    case Stop(p) => StopMoves(run[i], p);
    case Caller(w) => CallerMoves(run[i], w);
  }

  /** The connection taken from the register queue is in the set afterwards, and nothing is closed. */
  lemma InsertedIsMember(run: seq<State>, actions: seq<Action>, i: nat, c: Conn)
    requires IsRun(run, actions) && i < |actions| && actions[i] == Run(Inserts) && run[i].runner == Inserting(c)
    ensures run[i + 1].members == run[i].members + {c} && run[i + 1].closed == run[i].closed
  {
    hide Enabled, Apply, Initial;
    forall d ensures d in run[i + 1].members <==> d in run[i].members || d == c { ChangesExactly(run, actions, i, d); }
    forall d ensures d in run[i + 1].closed <==> d in run[i].closed { ChangesExactly(run, actions, i, d); }
  }

  /** The connection has got every broadcast from the one numbered `from` to the one before `done`, in
      order and as the last it got. */
  predicate GotAllSince(d: Delivery, processed: seq<Message>, from: nat, done: int) {
    && from <= done <= |processed| && done - from <= |d.received|
    && d.received[|d.received| - (done - from)..] == processed[from..done]
  }

  lemma ShorterEnd(d: Delivery, processed: seq<Message>, from: nat, done: int)
    requires EndsWith(d, processed, done) && d.joined <= from <= done
    ensures GotAllSince(d, processed, from, done)
  {
    var all := d.received[|d.received| - (done - d.joined)..];
    assert all[from - d.joined..] == d.received[|d.received| - (done - from)..];
    assert processed[d.joined..done][from - d.joined..] == processed[from..done];
  }

  predicate JoinedBy(s: State, c: Conn, n: nat) { c in s.members && c in s.log && s.log[c].joined <= n }

  lemma EntersJoins(run: seq<State>, actions: seq<Action>, i: nat, c: Conn)
    requires IsRun(run, actions) && i < |actions| && Enters(run[i], actions[i], c)
    ensures JoinedBy(run[i + 1], c, |run[i].processed|) && Done(run[i + 1], c) == |run[i].processed|
  {
    hide RunStep, Initial;
    NoGaps(run, actions, i, c);
    InsertedJoins(run[i], c);
  }

  lemma InsertedJoins(s: State, c: Conn)
    requires s.runner == Inserting(c) && (c in s.members ==> JoinedBy(s, c, |s.processed|))
    ensures JoinedBy(RunStep(s, Inserts), c, |s.processed|) && RunStep(s, Inserts).processed == s.processed
    ensures RunStep(s, Inserts).runner == Choosing
  {
  }

  lemma StaysJoined(s: State, a: Action, c: Conn, n: nat)
    requires Enabled(s, a) && JoinedBy(s, c, n) && !Leaves(s, a, c)
    ensures JoinedBy(Apply(s, a), c, n) && Done(s, c) <= Done(Apply(s, a), c)
  {
    StepExact(s, a, c);
    hide ClientStep, StopStep, RunStep, CallerStep, ClientEnabled, RunEnabled, StopEnabled, CallerEnabled, Leaves;
    match a
    case Client(x) => ClientSendsNothing(s, x);
    case Run(r) => RunKeepsJoined(s, r, c);
    case Stop(p) => StopSendsNothing(s, p);
    case Caller(w) => CallerSendsNothing(s, w);
  }

  lemma RunKeepsJoined(s: State, a: RunAction, c: Conn)
    requires RunEnabled(s, a) && c in s.members && c in s.log
    ensures c in RunStep(s, a).log && RunStep(s, a).log[c].joined == s.log[c].joined
    ensures Done(s, c) <= Done(RunStep(s, a), c)
  {
    if !Sending(a) {
      RunSendsNothing(s, a);
      hide RunStep, RunEnabled;
    } else {
      hide Taken, HeadConn, NonEmpty, QueuesEmpty, Popped;
    }
  }

  /** From its insertion on, and until the loop takes its leave, finds it closed or full, or winds down, a
      connection stays in the set and gets every broadcast processed since. */
  lemma {:induction false} ServedWhileIn(run: seq<State>, actions: seq<Action>, i: nat, j: nat, c: Conn)
    requires IsRun(run, actions) && i < j < |run| && Enters(run[i], actions[i], c)
    requires forall k :: i <= k < j ==> !Leaves(run[k], actions[k], c)
    ensures c in run[j].members && c in run[j].log
    ensures GotAllSince(run[j].log[c], run[j].processed, |run[i].processed|, Done(run[j], c))
  {
    hide Enabled, Apply, Initial, Leaves;
    StaysIn(run, actions, i, j, c);
    NoGaps(run, actions, j, c);
    ShorterEnd(run[j].log[c], run[j].processed, |run[i].processed|, Done(run[j], c));
  }

  lemma {:induction false} StaysIn(run: seq<State>, actions: seq<Action>, i: nat, j: nat, c: Conn)
    requires IsRun(run, actions) && i < j < |run| && Enters(run[i], actions[i], c)
    requires forall k :: i <= k < j ==> !Leaves(run[k], actions[k], c)
    ensures JoinedBy(run[j], c, |run[i].processed|) && |run[i].processed| <= Done(run[j], c)
  {
    hide Enabled, Apply, Initial, Leaves;
    if j > i + 1 {
      StaysIn(run, actions, i, j - 1, c);
      StaysJoined(run[j - 1], actions[j - 1], c, |run[i].processed|);
    } else {
      EntersJoins(run, actions, i, c);
    }
  }
}
