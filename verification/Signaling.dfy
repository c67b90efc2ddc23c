/** The request table of the signalling client as a state machine. Requests, receivers and closers run
    concurrently; each step is one of them doing one thing: a critical section of the mutex, a channel
    operation, a write, or a choice of a select. */
module Signaling {
  import opened Wrappers

  type Id = nat
  type Worker = nat

  datatype Message = Message(id: Id, text: string)
  datatype Response = Answer(msg: Message) | ClientClosed

  /** A response channel with room for one response, and how often it has been sent to. */
  datatype Channel = Channel(buffer: seq<Response>, closed: bool, sends: nat)

  /** What a request returns; `Nothing` is neither a message nor an error. */
  datatype Returned = Got(msg: Message) | Failed | Nothing

  datatype Request =
    | Numbered           // has its id and its channel
    | Registered         // is in the table, about to write
    | WriteFailed        // about to take the mutex
    | Waiting            // in the select
    | TimedOut           // about to take the mutex
    | Done(result: Returned)

  /** A receiver that took a channel out of the table: before sending, before closing. */
  datatype Delivery = Sending(msg: Message) | Closing(id: Id)

  /** Who holds the mutex between steps: only Close, with the channels it has still to close and the one
      it has sent to but not closed. */
  datatype Lock = Free | Held(todo: set<Id>, half: Option<Id>)

  datatype State = State(
    last: Id,
    pending: set<Id>,
    closed: bool,
    lock: Lock,
    channels: map<Id, Channel>,
    requests: map<Id, Request>,
    deliveries: map<Worker, Delivery>,
    doneCloses: nat,
    doneClosed: bool,
    fault: bool
  )

  const INITIAL := State(0, {}, false, Free, map[], map[], map[], 0, false, false)

  datatype Action =
    | Begin
    | Register(id: Id)
    | Write(id: Id, ok: bool)
    | DropUnwritten(id: Id)
    | Cancel(id: Id)
    | SeeDone(id: Id)
    | Timeout(id: Id)
    | DropTimedOut(id: Id)
    | Receive(id: Id)
    | Take(worker: Worker, msg: Message)
    | Deliver(worker: Worker)
    | Finish(worker: Worker)
    | CloseBegin
    | CloseSend(id: Id)
    | CloseChannel
    | CloseEnd
    | CloseDone

  predicate At(s: State, id: Id, r: Request) {
    id in s.requests && s.requests[id] == r
  }

  predicate Enabled(s: State, a: Action) {
    match a
    case Begin => true
    case Register(id) => s.lock == Free && At(s, id, Numbered)
    case Write(id, _) => At(s, id, Registered)
    case DropUnwritten(id) => s.lock == Free && At(s, id, WriteFailed)
    case Cancel(id) => At(s, id, Waiting)
    case SeeDone(id) => At(s, id, Waiting) && s.doneClosed
    case Timeout(id) => At(s, id, Waiting)
    case DropTimedOut(id) => s.lock == Free && At(s, id, TimedOut)
    case Receive(id) =>
      At(s, id, Waiting) && id in s.channels && (s.channels[id].buffer != [] || s.channels[id].closed)
    case Take(w, _) => s.lock == Free && w !in s.deliveries
    case Deliver(w) => w in s.deliveries && s.deliveries[w].Sending?
    case Finish(w) => w in s.deliveries && s.deliveries[w].Closing?
    case CloseBegin => s.lock == Free
    case CloseSend(id) => s.lock.Held? && s.lock.half == None && id in s.lock.todo
    case CloseChannel => s.lock.Held? && s.lock.half.Some?
    case CloseEnd => s.lock == Held({}, None)
    case CloseDone => s.doneCloses > 0
  }

  /** Sending to a closed channel panics and sending to a full one blocks: both are faults. */
  function Send(s: State, id: Id, r: Response): State {
    if id !in s.channels || s.channels[id].closed || s.channels[id].buffer != [] then s.(fault := true)
    else
      var ch := s.channels[id];
      s.(channels := s.channels[id := ch.(buffer := [r], sends := ch.sends + 1)])
  }

  /** Closing a closed channel panics. */
  function CloseOne(s: State, id: Id): State {
    if id !in s.channels || s.channels[id].closed then s.(fault := true)
    else s.(channels := s.channels[id := s.channels[id].(closed := true)])
  }

  function Set(s: State, id: Id, r: Request): State {
    s.(requests := s.requests[id := r])
  }

  function Step(s: State, a: Action): State
    requires Enabled(s, a)
  {
    match a
    case Begin =>
      var id := s.last + 1;
      Set(s.(last := id, channels := s.channels[id := Channel([], false, 0)]), id, Numbered)
    case Register(id) =>
      if s.closed then Set(s, id, Done(Failed))
      else Set(s.(pending := s.pending + {id}), id, Registered)
    case Write(id, ok) => Set(s, id, if ok then Waiting else WriteFailed)
    case DropUnwritten(id) => Set(s.(pending := s.pending - {id}), id, Done(Failed))
    case Cancel(id) => Set(s, id, Done(Failed))
    case SeeDone(id) => Set(s, id, Done(Failed))
    case Timeout(id) => Set(s, id, TimedOut)
    case DropTimedOut(id) => Set(s.(pending := s.pending - {id}), id, Done(Failed))
    case Receive(id) =>
      var ch := s.channels[id];
      if ch.buffer == [] then Set(s, id, Done(Nothing))
      else
        var s' := s.(channels := s.channels[id := ch.(buffer := ch.buffer[1..])]);
        Set(s', id, Done(if ch.buffer[0].Answer? then Got(ch.buffer[0].msg) else Failed))
    case Take(w, msg) =>
      if msg.id in s.pending then
        s.(pending := s.pending - {msg.id}, deliveries := s.deliveries[w := Sending(msg)])
      else s
    case Deliver(w) =>
      var msg := s.deliveries[w].msg;
      Send(s.(deliveries := s.deliveries[w := Closing(msg.id)]), msg.id, Answer(msg))
    case Finish(w) =>
      CloseOne(s.(deliveries := s.deliveries - {w}), s.deliveries[w].id)
    case CloseBegin =>
      if s.closed then s else s.(closed := true, lock := Held(s.pending, None))
    case CloseSend(id) => Send(s.(lock := Held(s.lock.todo, Some(id))), id, ClientClosed)
    case CloseChannel =>
      var id := s.lock.half.value;
      CloseOne(s.(lock := Held(s.lock.todo - {id}, None)), id)
    case CloseEnd => s.(pending := {}, lock := Free, doneCloses := s.doneCloses + 1)
    case CloseDone =>
      if s.doneClosed then s.(fault := true)
      else s.(doneCloses := s.doneCloses - 1, doneClosed := true)
  }

  // ----- what every reachable state satisfies

  function IdOf(d: Delivery): Id {
    match d
    case Sending(msg) => msg.id
    case Closing(id) => id
  }

  /** Close has finished with this channel of the table, or has sent to it. */
  predicate Handled(s: State, id: Id) {
    s.lock.Held? && (id !in s.lock.todo || s.lock.half == Some(id))
  }

  predicate Delivering(s: State, id: Id) {
    exists w :: w in s.deliveries && IdOf(s.deliveries[w]) == id
  }

  /** A channel nobody has used. */
  predicate Untouched(ch: Channel) {
    ch == Channel([], false, 0)
  }

  ghost predicate KeysInv(s: State) {
    && s.channels.Keys == s.requests.Keys && s.pending <= s.channels.Keys
    && (forall id :: id in s.channels ==> id <= s.last)
  }

  /** A registered or waiting request will be answered, is being answered, or has its answer. */
  predicate Served(s: State, id: Id)
    requires id in s.channels
  {
    id in s.pending || Delivering(s, id) || s.channels[id].buffer != []
  }

  /** The response is in the channel, or the request is over. */
  predicate Settled(s: State, id: Id)
    requires id in s.channels && id in s.requests
  {
    s.channels[id].buffer != [] || s.requests[id].Done?
  }

  ghost predicate RequestInv(s: State, id: Id)
    requires id in s.channels && id in s.requests
  {
    var ch, r := s.channels[id], s.requests[id];
    && (r == Numbered ==> id !in s.pending && !Delivering(s, id) && Untouched(ch))
    && (r == Registered || r == WriteFailed || r == Waiting || r == TimedOut ==> Served(s, id))
    && (r.Done? ==> r.result != Nothing && (r.result.Got? ==> r.result.msg.id == id))
    && ch.sends <= 1 && |ch.buffer| <= 1
    && (ch.buffer != [] && ch.buffer[0].Answer? ==> ch.buffer[0].msg.id == id)
    && (ch.closed ==> Settled(s, id))
  }

  /** A channel in the table has not been used, unless Close is at it. */
  ghost predicate PendingInv(s: State, id: Id)
    requires id in s.channels && id in s.requests
  {
    var ch := s.channels[id];
    && !Delivering(s, id)
    && (if Handled(s, id) then Settled(s, id) else Untouched(ch))
    && (s.lock.Held? && s.lock.half == Some(id) ==> !ch.closed)
  }

  ghost predicate DeliveryInv(s: State, w: Worker)
    requires w in s.deliveries
  {
    var id := IdOf(s.deliveries[w]);
    && id in s.channels && id in s.requests && id !in s.pending && !s.channels[id].closed
    && (if s.deliveries[w].Sending? then Untouched(s.channels[id]) else Settled(s, id))
    && forall v :: v in s.deliveries && IdOf(s.deliveries[v]) == id ==> v == w
  }

  ghost predicate LockInv(s: State) {
    && (s.lock.Held? ==>
        s.closed && s.lock.todo <= s.pending && (s.lock.half.Some? ==> s.lock.half.value in s.lock.todo))
    && (s.closed && s.lock == Free ==> s.pending == {})
    && (!s.closed || s.lock.Held? ==> s.doneCloses == 0 && !s.doneClosed)
    && s.doneCloses <= 1 && (s.doneClosed ==> s.doneCloses == 0)
  }

  ghost predicate Inv(s: State) {
    && !s.fault && KeysInv(s) && LockInv(s)
    && (forall id :: id in s.requests ==> RequestInv(s, id))
    && (forall id :: id in s.pending ==> PendingInv(s, id))
    && (forall w :: w in s.deliveries ==> DeliveryInv(s, w))
  }

  lemma BeginKeeps(s: State, a: Action)
    requires Inv(s) && Enabled(s, a) && a.Begin?
    ensures Inv(Step(s, a))
  {
  }

  /** A request may change its own state as long as that state fits its channel. */
  lemma SetKeeps(s: State, id: Id, r: Request)
    requires Inv(s) && id in s.requests && (s.requests[id].Done? ==> r.Done?)
    requires RequestInv(Set(s, id, r), id)
    ensures Inv(Set(s, id, r))
  {
    var s' := Set(s, id, r);
    forall other | other in s'.requests ensures RequestInv(s', other) {
      assert RequestInv(s, other);
    }
    forall other | other in s'.pending ensures PendingInv(s', other) {
      assert PendingInv(s, other);
    }
    forall w | w in s'.deliveries ensures DeliveryInv(s', w) {
      assert DeliveryInv(s, w);
    }
  }

  lemma ChoiceKeeps(s: State, a: Action)
    requires Inv(s) && Enabled(s, a) && (a.Write? || a.Cancel? || a.SeeDone? || a.Timeout?)
    ensures Inv(Step(s, a))
  {
    assert RequestInv(s, a.id);
    SetKeeps(s, a.id, Step(s, a).requests[a.id]);
  }

  lemma ForgetKeeps(s: State, id: Id)
    requires Inv(s) && s.lock == Free && At(s, id, Done(Failed))
    ensures Inv(s.(pending := s.pending - {id}))
  {
    var s' := s.(pending := s.pending - {id});
    forall other | other in s'.requests ensures RequestInv(s', other) {
      assert RequestInv(s, other);
    }
    forall other | other in s'.pending ensures PendingInv(s', other) {
      assert PendingInv(s, other);
    }
    forall w | w in s'.deliveries ensures DeliveryInv(s', w) {
      assert DeliveryInv(s, w);
    }
  }

  lemma DropKeeps(s: State, a: Action)
    requires Inv(s) && Enabled(s, a) && (a.DropUnwritten? || a.DropTimedOut?)
    ensures Inv(Step(s, a))
  {
    assert RequestInv(s, a.id);
    SetKeeps(s, a.id, Done(Failed));
    ForgetKeeps(Set(s, a.id, Done(Failed)), a.id);
  }

  lemma RegisterKeeps(s: State, id: Id)
    requires Inv(s) && Enabled(s, Register(id))
    ensures Inv(Step(s, Register(id)))
  {
    var s' := Step(s, Register(id));
    assert RequestInv(s, id);
    forall other | other in s'.requests ensures RequestInv(s', other) {
      assert RequestInv(s, other);
    }
    forall other | other in s'.pending ensures PendingInv(s', other) {
      assert other != id ==> PendingInv(s, other);
    }
    forall w | w in s'.deliveries ensures DeliveryInv(s', w) {
      assert DeliveryInv(s, w);
    }
  }

  lemma ReceiveKeeps(s: State, id: Id)
    requires Inv(s) && Enabled(s, Receive(id))
    ensures Inv(Step(s, Receive(id)))
  {
    var s' := Step(s, Receive(id));
    assert RequestInv(s, id);
    forall other | other in s'.requests ensures RequestInv(s', other) {
      assert RequestInv(s, other);
    }
    forall other | other in s'.pending ensures PendingInv(s', other) {
      assert PendingInv(s, other);
    }
    forall w | w in s'.deliveries ensures DeliveryInv(s', w) {
      assert DeliveryInv(s, w);
    }
  }

  /** The only change of who is being served that a step of one receiver can make is to its own id. */
  lemma DeliveringChanges(s: State, w: Worker, d: Option<Delivery>, id: Id)
    requires w in s.deliveries ==> d.None? || IdOf(d.value) == IdOf(s.deliveries[w])
    ensures var s' := s.(deliveries := if d.Some? then s.deliveries[w := d.value] else s.deliveries - {w});
      && (d.Some? ==> (Delivering(s', id) <==> Delivering(s, id) || id == IdOf(d.value)))
      && (d.None? && w in s.deliveries && IdOf(s.deliveries[w]) != id ==> (Delivering(s', id) <==> Delivering(s, id)))
  {
    var s' := s.(deliveries := if d.Some? then s.deliveries[w := d.value] else s.deliveries - {w});
    if Delivering(s, id) {
      var v :| v in s.deliveries && IdOf(s.deliveries[v]) == id;
      assert d.Some? || v != w ==> v in s'.deliveries;
    }
    if d.Some? {
      assert w in s'.deliveries;
    }
  }

  lemma TakeKeeps(s: State, w: Worker, msg: Message)
    requires Inv(s) && Enabled(s, Take(w, msg))
    ensures Inv(Step(s, Take(w, msg)))
  {
    var s' := Step(s, Take(w, msg));
    if msg.id in s.pending {
      forall id ensures Delivering(s', id) <==> Delivering(s, id) || id == msg.id {
        DeliveringChanges(s, w, Some(Sending(msg)), id);
        assert Delivering(s', id) == Delivering(s.(deliveries := s'.deliveries), id);
      }
      assert PendingInv(s, msg.id);
      forall v | v in s'.deliveries ensures DeliveryInv(s', v) {
        if v != w {
          assert DeliveryInv(s, v);
        }
      }
    }
  }

  /** A send that finds its channel open and empty, and concerns nothing else. */
  ghost predicate Delivered(s: State, s': State, w: Worker) {
    && w in s.deliveries && s.deliveries[w].Sending? && DeliveryInv(s, w)
    && var msg := s.deliveries[w].msg;
      && msg.id in s.channels
      && s' == s.(deliveries := s.deliveries[w := Closing(msg.id)],
                  channels := s.channels[msg.id := Channel([Answer(msg)], false, 1)])
  }

  lemma DeliveredRequest(s: State, s': State, w: Worker, id: Id)
    requires Inv(s) && Delivered(s, s', w) && id in s.requests
    ensures RequestInv(s', id)
  {
    SameDelivering(s, s', w);
    hide Delivering;
    assert RequestInv(s, id);
  }

  lemma DeliveredPending(s: State, s': State, w: Worker, id: Id)
    requires Inv(s) && Delivered(s, s', w) && id in s.pending
    ensures PendingInv(s', id)
  {
    SameDelivering(s, s', w);
    hide Delivering;
    assert PendingInv(s, id);
  }

  lemma DeliveredOthers(s: State, s': State, w: Worker, v: Worker)
    requires Inv(s) && Delivered(s, s', w) && v in s.deliveries
    ensures DeliveryInv(s', v)
  {
    assert DeliveryInv(s, v);
  }

  lemma DeliveredBy(s: State, w: Worker)
    requires Inv(s) && Enabled(s, Deliver(w))
    ensures Delivered(s, Step(s, Deliver(w)), w)
  {
    hide RequestInv, PendingInv;
    assert DeliveryInv(s, w);
  }

  lemma DeliverKeeps(s: State, w: Worker)
    requires Inv(s) && Enabled(s, Deliver(w))
    ensures Inv(Step(s, Deliver(w)))
  {
    hide RequestInv, PendingInv, DeliveryInv, Step, Enabled;
    var s' := Step(s, Deliver(w));
    DeliveredBy(s, w);
    forall id | id in s'.requests ensures RequestInv(s', id) {
      DeliveredRequest(s, s', w, id);
    }
    forall id | id in s'.pending ensures PendingInv(s', id) {
      DeliveredPending(s, s', w, id);
    }
    forall v | v in s'.deliveries ensures DeliveryInv(s', v) {
      DeliveredOthers(s, s', w, v);
    }
  }

  /** A receiver that goes on to close its channel still serves the same id. */
  lemma SameDelivering(s: State, s': State, w: Worker)
    requires w in s.deliveries && s'.deliveries == s.deliveries[w := Closing(IdOf(s.deliveries[w]))]
    ensures forall id :: Delivering(s', id) <==> Delivering(s, id)
  {
    forall id ensures Delivering(s', id) <==> Delivering(s, id) {
      DeliveringChanges(s, w, Some(Closing(IdOf(s.deliveries[w]))), id);
      assert Delivering(s', id) == Delivering(s.(deliveries := s'.deliveries), id);
    }
  }

  /** A close that finds its channel open, and concerns nothing else. */
  ghost predicate Finished(s: State, s': State, w: Worker) {
    && w in s.deliveries && s.deliveries[w].Closing? && DeliveryInv(s, w)
    && var id := s.deliveries[w].id;
      && id in s.channels
      && s' == s.(deliveries := s.deliveries - {w}, channels := s.channels[id := s.channels[id].(closed := true)])
  }

  lemma OthersDelivering(s: State, s': State, w: Worker, id: Id)
    requires Finished(s, s', w) && id != s.deliveries[w].id
    ensures Delivering(s', id) <==> Delivering(s, id)
  {
    DeliveringChanges(s, w, None, id);
    assert Delivering(s', id) == Delivering(s.(deliveries := s'.deliveries), id);
  }

  lemma FinishedRequest(s: State, s': State, w: Worker, id: Id)
    requires Inv(s) && Finished(s, s', w) && id in s.requests
    ensures RequestInv(s', id)
  {
    assert RequestInv(s, id);
    if id != s.deliveries[w].id {
      OthersDelivering(s, s', w, id);
    } else {
      assert Delivering(s, id);
    }
  }

  lemma FinishedPending(s: State, s': State, w: Worker, id: Id)
    requires Inv(s) && Finished(s, s', w) && id in s.pending
    ensures PendingInv(s', id)
  {
    assert PendingInv(s, id);
    OthersDelivering(s, s', w, id);
    hide Delivering;
  }

  lemma FinishedOthers(s: State, s': State, w: Worker, v: Worker)
    requires Inv(s) && Finished(s, s', w) && v in s'.deliveries
    ensures DeliveryInv(s', v)
  {
    assert DeliveryInv(s, v);
  }

  lemma FinishedBy(s: State, w: Worker)
    requires Inv(s) && Enabled(s, Finish(w))
    ensures Finished(s, Step(s, Finish(w)), w)
  {
    hide RequestInv, PendingInv;
    assert DeliveryInv(s, w);
  }

  lemma FinishKeeps(s: State, w: Worker)
    requires Inv(s) && Enabled(s, Finish(w))
    ensures Inv(Step(s, Finish(w)))
  {
    hide RequestInv, PendingInv, DeliveryInv, Step, Enabled;
    var s' := Step(s, Finish(w));
    FinishedBy(s, w);
    forall id | id in s'.requests ensures RequestInv(s', id) {
      FinishedRequest(s, s', w, id);
    }
    forall id | id in s'.pending ensures PendingInv(s', id) {
      FinishedPending(s, s', w, id);
    }
    forall v | v in s'.deliveries ensures DeliveryInv(s', v) {
      FinishedOthers(s, s', w, v);
    }
  }

  lemma CloseSendKeeps(s: State, a: Action)
    requires Inv(s) && Enabled(s, a) && a.CloseSend?
    ensures Inv(Step(s, a))
  {
  }

  lemma CloseChannelKeeps(s: State, a: Action)
    requires Inv(s) && Enabled(s, a) && a.CloseChannel?
    ensures Inv(Step(s, a))
  {
  }

  lemma CloseBeginKeeps(s: State)
    requires Inv(s) && Enabled(s, CloseBegin)
    ensures Inv(Step(s, CloseBegin))
  {
    var s' := Step(s, CloseBegin);
    forall id | id in s'.requests ensures RequestInv(s', id) {
      assert RequestInv(s, id);
    }
    forall id | id in s'.pending ensures PendingInv(s', id) {
      assert PendingInv(s, id);
    }
    forall w | w in s'.deliveries ensures DeliveryInv(s', w) {
      assert DeliveryInv(s, w);
    }
  }

  lemma CloseEndKeeps(s: State)
    requires Inv(s) && Enabled(s, CloseEnd)
    ensures Inv(Step(s, CloseEnd))
  {
    var s' := Step(s, CloseEnd);
    forall id | id in s'.requests ensures RequestInv(s', id) {
      assert RequestInv(s, id) && (id in s.pending ==> PendingInv(s, id));
    }
    forall w | w in s'.deliveries ensures DeliveryInv(s', w) {
      assert DeliveryInv(s, w);
    }
  }

  lemma CloseDoneKeeps(s: State)
    requires Inv(s) && Enabled(s, CloseDone)
    ensures Inv(Step(s, CloseDone))
  {
    var s' := Step(s, CloseDone);
    forall id | id in s'.requests ensures RequestInv(s', id) {
      assert RequestInv(s, id);
    }
    forall id | id in s'.pending ensures PendingInv(s', id) {
      assert PendingInv(s, id);
    }
    forall w | w in s'.deliveries ensures DeliveryInv(s', w) {
      assert DeliveryInv(s, w);
    }
  }

  /** Whatever one of them does next, the invariant is kept. */
  lemma StepKeeps(s: State, a: Action)
    requires Inv(s) && Enabled(s, a)
    ensures Inv(Step(s, a))
  {
    hide Inv, Step, Enabled;
    match a
    case Begin => BeginKeeps(s, a);
    case Register(id) => RegisterKeeps(s, id);
    case Receive(id) => ReceiveKeeps(s, id);
    case DropUnwritten(_) => DropKeeps(s, a);
    case DropTimedOut(_) => DropKeeps(s, a);
    case Take(w, msg) => TakeKeeps(s, w, msg);
    case Deliver(w) => DeliverKeeps(s, w);
    case Finish(w) => FinishKeeps(s, w);
    case CloseSend(_) => CloseSendKeeps(s, a);
    case CloseChannel => CloseChannelKeeps(s, a);
    case CloseBegin => CloseBeginKeeps(s);
    case CloseEnd => CloseEndKeeps(s);
    case CloseDone => CloseDoneKeeps(s);
    case _ => ChoiceKeeps(s, a);
  }

  // ----- runs

  /** The states of a run: each follows from the one before it by a step that was possible there. */
  ghost predicate IsRun(states: seq<State>, actions: seq<Action>) {
    && |states| == |actions| + 1 && states[0] == INITIAL
    && forall k :: 0 <= k < |actions| ==> Enabled(states[k], actions[k]) && states[k + 1] == Step(states[k], actions[k])
  }

  lemma {:induction false} RunKeeps(states: seq<State>, actions: seq<Action>, n: nat)
    requires IsRun(states, actions) && n <= |actions|
    ensures Inv(states[n])
  {
    hide Step, Enabled;
    if n > 0 {
      RunKeeps(states, actions, n - 1);
      StepKeeps(states[n - 1], actions[n - 1]);
      assert states[n] == states[n - 1 + 1];
    }
  }

  /** Under every interleaving no channel is sent to twice, closed twice or sent to after it was closed,
      no send blocks, done is closed once; a request that returns a message returns one with its own id,
      and none returns neither a message nor an error. */
  lemma EveryRunIsSafe(states: seq<State>, actions: seq<Action>, n: nat)
    requires IsRun(states, actions) && n <= |actions|
    ensures !states[n].fault
    ensures forall id :: id in states[n].channels ==> states[n].channels[id].sends <= 1
    ensures forall id :: id in states[n].requests && states[n].requests[id].Done? ==>
      var result := states[n].requests[id].result;
      result != Nothing && (result.Got? ==> result.msg.id == id)
  {
    RunKeeps(states, actions, n);
    var s := states[n];
    forall id | id in s.requests
      ensures s.channels[id].sends <= 1
      ensures s.requests[id].Done? ==>
        s.requests[id].result != Nothing && (s.requests[id].result.Got? ==> s.requests[id].result.msg.id == id)
    {
      assert RequestInv(s, id);
    }
  }

  /** Under every interleaving a request that waits is still in the table, or a receiver is about to
      answer it, or its response is there to be taken; once the client is closed and unlocked it is no
      longer in the table. */
  lemma NoRequestIsForgotten(states: seq<State>, actions: seq<Action>, n: nat, id: Id)
    requires IsRun(states, actions) && n <= |actions| && At(states[n], id, Waiting)
    ensures var s := states[n];
      && id in s.channels
      && (id in s.pending || Delivering(s, id) || s.channels[id].buffer != [])
      && (s.closed && s.lock == Free ==> Delivering(s, id) || Enabled(s, Receive(id)))
  {
    RunKeeps(states, actions, n);
    assert RequestInv(states[n], id);
  }

  // ----- how requests end

  /** A step that ends a request without a message, for one of the reasons there are. */
  ghost predicate FailsAt(s: State, a: Action, id: Id) {
    || a == Cancel(id)
    || (a == SeeDone(id) && s.doneClosed)
    || (a == DropUnwritten(id) && At(s, id, WriteFailed))
    || (a == DropTimedOut(id) && At(s, id, TimedOut))
    || (a == Register(id) && s.closed)
    || (a == Receive(id) && id in s.channels && s.channels[id].buffer == [ClientClosed])
  }

  /** The action is a step of this request. */
  predicate IsOwn(a: Action, id: Id) {
    match a
    case Register(i) => i == id
    case Write(i, _) => i == id
    case DropUnwritten(i) => i == id
    case Cancel(i) => i == id
    case SeeDone(i) => i == id
    case Timeout(i) => i == id
    case DropTimedOut(i) => i == id
    case Receive(i) => i == id
    case _ => false
  }

  lemma OthersLeaveRequest(s: State, a: Action, id: Id)
    requires Enabled(s, a) && id in s.requests && id <= s.last && !IsOwn(a, id)
    ensures id in Step(s, a).requests && Step(s, a).requests[id] == s.requests[id]
  {
  }

  lemma OwnMoves(s: State, a: Action, id: Id)
    requires Enabled(s, a) && IsOwn(a, id) && id in s.requests && id in s.channels && RequestInv(s, id)
    ensures var s' := Step(s, a);
      && id in s'.requests && !s.requests[id].Done?
      && (s'.requests[id] in {Registered, Waiting, WriteFailed, TimedOut}
          || (s'.requests[id] == Done(Failed) && FailsAt(s, a, id))
          || (a == Receive(id) && exists m :: s.channels[id].buffer == [Answer(m)] && s'.requests[id] == Done(Got(m))))
      && (s'.requests[id] == WriteFailed ==> a == Write(id, false))
      && (s'.requests[id] == TimedOut ==> a == Timeout(id))
      && (s'.requests[id] == Waiting ==> a == Write(id, true))
  {
    BufferIsOne(s, id);
    hide RequestInv;
  }

  lemma KnownRequest(s: State, id: Id)
    requires Inv(s) && id in s.requests
    ensures id <= s.last && id in s.channels && RequestInv(s, id)
  {
  }

  /** What one step makes of a request: it ends with the message it receives, it ends for a reason, or it
      does not end; once ended it stays as it is. */
  lemma RequestMoves(s: State, a: Action, id: Id)
    requires Inv(s) && Enabled(s, a) && id in s.requests
    ensures var s' := Step(s, a);
      && id in s'.requests
      && (s.requests[id].Done? ==> s'.requests[id] == s.requests[id])
      && (s'.requests[id] == s.requests[id] || s'.requests[id] in {Registered, Waiting, WriteFailed, TimedOut}
          || (s'.requests[id] == Done(Failed) && FailsAt(s, a, id))
          || (a == Receive(id) && exists m :: s.channels[id].buffer == [Answer(m)] && s'.requests[id] == Done(Got(m))))
      && (s'.requests[id] == WriteFailed && s.requests[id] != WriteFailed ==> a == Write(id, false))
      && (s'.requests[id] == TimedOut && s.requests[id] != TimedOut ==> a == Timeout(id))
      && (s'.requests[id] == Waiting && s.requests[id] != Waiting ==> a == Write(id, true))
  {
    KnownRequest(s, id);
    hide Inv, Step, Enabled, FailsAt, RequestInv, IsOwn;
    if IsOwn(a, id) {
      OwnMoves(s, a, id);
    } else {
      OthersLeaveRequest(s, a, id);
    }
  }

  lemma BufferIsOne(s: State, id: Id)
    requires id in s.channels && id in s.requests && RequestInv(s, id)
    ensures s.channels[id].buffer == [] || s.channels[id].buffer == [ClientClosed]
      || exists m :: s.channels[id].buffer == [Answer(m)]
    ensures s.requests[id] == Waiting && s.channels[id].closed ==> s.channels[id].buffer != []
  {
    var buffer := s.channels[id].buffer;
    if buffer != [] && buffer[0].Answer? {
      assert buffer == [Answer(buffer[0].msg)];
    }
  }

  lemma NewRequest(s: State, a: Action, id: Id)
    requires Inv(s) && Enabled(s, a) && id !in s.requests && id in Step(s, a).requests
    ensures Step(s, a).requests[id] == Numbered
  {
  }

  ghost predicate HappensAt(actions: seq<Action>, n: nat, a: Action, k: nat) {
    k < n && k < |actions| && actions[k] == a
  }

  ghost predicate FailedAt(states: seq<State>, actions: seq<Action>, n: nat, id: Id, k: nat) {
    k < n && k < |actions| && k < |states| && FailsAt(states[k], actions[k], id)
  }

  ghost predicate ReceivedAt(states: seq<State>, actions: seq<Action>, n: nat, id: Id, m: Message, k: nat) {
    k < n && k < |actions| && k < |states| && actions[k] == Receive(id)
    && id in states[k].channels && states[k].channels[id].buffer == [Answer(m)]
  }

  /** Under every interleaving an ended request has a history: one that returns a message received it from
      its channel; one that fails was cancelled, saw the client closed, could not be written, timed out,
      came too late, or received the closing of the client. */
  lemma {:induction false} EveryEndHasItsCause(states: seq<State>, actions: seq<Action>, n: nat, id: Id)
    requires IsRun(states, actions) && n <= |actions| && id in states[n].requests
    ensures states[n].requests[id] == WriteFailed ==> exists k :: HappensAt(actions, n, Write(id, false), k)
    ensures states[n].requests[id] == TimedOut ==> exists k :: HappensAt(actions, n, Timeout(id), k)
    ensures states[n].requests[id] == Done(Failed) ==> exists k :: FailedAt(states, actions, n, id, k)
    ensures states[n].requests[id].Done? && states[n].requests[id].result.Got? ==>
      exists k :: ReceivedAt(states, actions, n, id, states[n].requests[id].result.msg, k)
  {
    if n > 0 {
      var s, a := states[n - 1], actions[n - 1];
      assert Enabled(s, a) && states[n - 1 + 1] == Step(s, a);
      RunKeeps(states, actions, n - 1);
      hide Inv, Step, Enabled, FailsAt;
      if id in s.requests {
        EveryEndHasItsCause(states, actions, n - 1, id);
        RequestMoves(s, a, id);
        CausesStay(states, actions, n - 1, n, id);
        if FailsAt(s, a, id) {
          assert FailedAt(states, actions, n, id, n - 1);
        }
        if a == Write(id, false) {
          assert HappensAt(actions, n, Write(id, false), n - 1);
        }
        if a == Timeout(id) {
          assert HappensAt(actions, n, Timeout(id), n - 1);
        }
        if a == Receive(id) && states[n].requests[id].Done? && states[n].requests[id].result.Got?
           && s.requests[id] != states[n].requests[id]
        {
          InChannels(s, id);
          assert ReceivedAt(states, actions, n, id, states[n].requests[id].result.msg, n - 1);
        }
      } else {
        NewRequest(s, a, id);
      }
    }
  }

  lemma InChannels(s: State, id: Id)
    requires Inv(s) && id in s.requests
    ensures id in s.channels
  {
  }

  lemma CausesStay(states: seq<State>, actions: seq<Action>, m: nat, n: nat, id: Id)
    requires m <= n
    ensures forall a, k :: HappensAt(actions, m, a, k) ==> HappensAt(actions, n, a, k)
    ensures forall k :: FailedAt(states, actions, m, id, k) ==> FailedAt(states, actions, n, id, k)
    ensures forall x, k :: ReceivedAt(states, actions, m, id, x, k) ==> ReceivedAt(states, actions, n, id, x, k)
  {
  }

  lemma ReceiveReturns(s: State, id: Id, m: Message)
    requires Enabled(s, Receive(id)) && s.channels[id].buffer == [Answer(m)]
    ensures At(Step(s, Receive(id)), id, Done(Got(m)))
  {
  }

  lemma EndStays(s: State, a: Action, id: Id, m: Message)
    requires Inv(s) && Enabled(s, a) && At(s, id, Done(Got(m)))
    ensures At(Step(s, a), id, Done(Got(m)))
  {
    hide Inv, Step, Enabled, FailsAt;
    RequestMoves(s, a, id);
  }

  lemma RunStep(states: seq<State>, actions: seq<Action>, n: nat)
    requires IsRun(states, actions) && n < |actions|
    ensures |states| == |actions| + 1 && Enabled(states[n], actions[n]) && states[n + 1] == Step(states[n], actions[n])
  {
    hide Enabled, Step;
  }

  /** A request that takes a message from its channel has returned that message for good. */
  lemma {:induction false} ReceivedIsReturned(states: seq<State>, actions: seq<Action>, n: nat, id: Id, m: Message,
                                              later: nat)
    requires IsRun(states, actions) && later <= |actions| && ReceivedAt(states, actions, later, id, m, n)
    ensures At(states[later], id, Done(Got(m)))
    decreases later
  {
    hide IsRun, Inv, Step, Enabled, At;
    RunKeeps(states, actions, later - 1);
    RunStep(states, actions, later - 1);
    if n < later - 1 {
      ReceivedIsReturned(states, actions, n, id, m, later - 1);
      EndStays(states[later - 1], actions[later - 1], id, m);
    } else {
      ReceiveReturns(states[n], id, m);
    }
  }

  // ----- messages come from the server

  ghost predicate TakenAt(actions: seq<Action>, n: nat, m: Message, k: nat) {
    k < n && k < |actions| && actions[k].Take? && actions[k].msg == m
  }

  /** The message was read from the connection before step n. */
  ghost predicate WasRead(actions: seq<Action>, n: nat, m: Message) {
    exists k :: TakenAt(actions, n, m, k)
  }

  ghost predicate AllRead(s: State, actions: seq<Action>, n: nat) {
    && (forall w :: w in s.deliveries && s.deliveries[w].Sending? ==> WasRead(actions, n, s.deliveries[w].msg))
    && (forall id, m :: id in s.channels && Answer(m) in s.channels[id].buffer ==> WasRead(actions, n, m))
  }

  lemma SendsMove(s: State, a: Action, w: Worker)
    requires Enabled(s, a) && w in Step(s, a).deliveries && Step(s, a).deliveries[w].Sending?
    ensures (a.Take? && Step(s, a).deliveries[w].msg == a.msg)
      || (w in s.deliveries && Step(s, a).deliveries[w] == s.deliveries[w])
  {
  }

  lemma AnswersMove(s: State, a: Action, id: Id, m: Message)
    requires Enabled(s, a) && id in Step(s, a).channels && Answer(m) in Step(s, a).channels[id].buffer
    ensures (a.Deliver? && s.deliveries[a.worker].msg == m) || (id in s.channels && Answer(m) in s.channels[id].buffer)
  {
    hide Step, Enabled;
    if IsQuiet(a) {
      QuietStep(s, a);
    } else {
      LoudAnswers(s, a, id, m);
    }
  }

  lemma LoudAnswers(s: State, a: Action, id: Id, m: Message)
    requires Enabled(s, a) && !IsQuiet(a)
    requires id in Step(s, a).channels && Answer(m) in Step(s, a).channels[id].buffer
    ensures (a.Deliver? && s.deliveries[a.worker].msg == m) || (id in s.channels && Answer(m) in s.channels[id].buffer)
  {
  }

  lemma StepReads(s: State, a: Action, actions: seq<Action>, n: nat)
    requires Enabled(s, a) && n < |actions| && actions[n] == a && AllRead(s, actions, n)
    ensures AllRead(Step(s, a), actions, n + 1)
  {
    assert forall m, k :: TakenAt(actions, n, m, k) ==> TakenAt(actions, n + 1, m, k);
    assert forall m :: WasRead(actions, n, m) ==> WasRead(actions, n + 1, m);
    if a.Take? {
      assert TakenAt(actions, n + 1, a.msg, n);
      assert WasRead(actions, n + 1, a.msg);
    }
    if a.Deliver? {
      assert WasRead(actions, n, s.deliveries[a.worker].msg);
    }
    hide WasRead, Step, Enabled;
    var s' := Step(s, a);
    forall w | w in s'.deliveries && s'.deliveries[w].Sending? ensures WasRead(actions, n + 1, s'.deliveries[w].msg) {
      SendsMove(s, a, w);
    }
    forall id, m | id in s'.channels && Answer(m) in s'.channels[id].buffer ensures WasRead(actions, n + 1, m) {
      AnswersMove(s, a, id, m);
    }
  }

  lemma {:induction false} RunReads(states: seq<State>, actions: seq<Action>, n: nat)
    requires IsRun(states, actions) && n <= |actions|
    ensures AllRead(states[n], actions, n)
  {
    if n > 0 {
      RunReads(states, actions, n - 1);
      assert Enabled(states[n - 1], actions[n - 1]) && states[n - 1 + 1] == Step(states[n - 1], actions[n - 1]);
      hide Step, Enabled, AllRead;
      StepReads(states[n - 1], actions[n - 1], actions, n - 1);
    }
  }

  /** A returned message was read from the connection, and bears the id of the request. */
  lemma NothingIsInvented(states: seq<State>, actions: seq<Action>, n: nat, id: Id, m: Message)
    requires IsRun(states, actions) && n <= |actions| && At(states[n], id, Done(Got(m)))
    ensures m.id == id && WasRead(actions, n, m)
  {
    hide Step, Enabled, WasRead, FailedAt, HappensAt;
    EveryRunIsSafe(states, actions, n);
    EveryEndHasItsCause(states, actions, n, id);
    var k: nat :| ReceivedAt(states, actions, n, id, m, k);
    RunReads(states, actions, k);
    assert Answer(m) in states[k].channels[id].buffer;
    ReadStays(actions, k, n, m);
  }

  lemma ReadStays(actions: seq<Action>, k: nat, n: nat, m: Message)
    requires WasRead(actions, k, m) && k <= n
    ensures WasRead(actions, n, m)
  {
    var j :| TakenAt(actions, k, m, j);
    assert TakenAt(actions, n, m, j);
  }

  // ----- answers arrive

  /** While the mutex is free a receiver that reads the answer to a waiting request can hand it over, and
      then the request can return it. */
  lemma AnswerArrives(s: State, id: Id, text: string, w: Worker)
    requires Inv(s) && At(s, id, Waiting) && id in s.pending && s.lock == Free && w !in s.deliveries
    ensures var m := Message(id, text);
      && Enabled(s, Take(w, m))
      && var taken := Step(s, Take(w, m));
      && Enabled(taken, Deliver(w))
      && var delivered := Step(taken, Deliver(w));
      && Enabled(delivered, Receive(id))
      && At(Step(delivered, Receive(id)), id, Done(Got(m)))
      && !delivered.fault
  {
    assert PendingInv(s, id);
  }

  // ----- nobody gets stuck

  /** Apart from waiting for the mutex, which only a closing client keeps, every request that has not ended
      can go on; a waiting one can be cancelled, can time out, and sees that the client was closed. */
  lemma RequestsGoOn(s: State, id: Id)
    requires id in s.requests
    ensures match s.requests[id]
      case Numbered => s.lock == Free ==> Enabled(s, Register(id))
      case Registered => Enabled(s, Write(id, true)) && Enabled(s, Write(id, false))
      case WriteFailed => s.lock == Free ==> Enabled(s, DropUnwritten(id))
      case Waiting => Enabled(s, Cancel(id)) && Enabled(s, Timeout(id)) && (s.doneClosed ==> Enabled(s, SeeDone(id)))
      case TimedOut => s.lock == Free ==> Enabled(s, DropTimedOut(id))
      case Done(_) => true
  {
  }

  /** So can every receiver, and whoever closes the client. */
  lemma OthersGoOn(s: State, w: Worker)
    ensures w in s.deliveries ==> Enabled(s, Deliver(w)) || Enabled(s, Finish(w))
    ensures w !in s.deliveries && s.lock == Free ==> forall m :: Enabled(s, Take(w, m))
    ensures s.lock == Free ==> Enabled(s, CloseBegin)
    ensures s.lock.Held? ==> Enabled(s, CloseChannel) || Enabled(s, CloseEnd) || exists k :: Enabled(s, CloseSend(k))
    ensures s.doneCloses > 0 ==> Enabled(s, CloseDone)
  {
    if s.lock.Held? && s.lock.half == None && s.lock.todo != {} {
      var k :| k in s.lock.todo;
      assert Enabled(s, CloseSend(k));
    }
  }

  /** Where the steps of a request lead, and that those which end it take it out of the table. */
  lemma StepsLead(s: State, a: Action, id: Id)
    requires Enabled(s, a) && id in s.requests
    ensures var s' := Step(s, a);
      && (a == Register(id) ==>
            At(s', id, if s.closed then Done(Failed) else Registered) && (!s.closed ==> id in s'.pending))
      && (a == Write(id, true) ==> At(s', id, Waiting)) && (a == Write(id, false) ==> At(s', id, WriteFailed))
      && (a == Timeout(id) ==> At(s', id, TimedOut))
      && (a == DropUnwritten(id) || a == DropTimedOut(id) ==> At(s', id, Done(Failed)) && id !in s'.pending)
      && (a == Cancel(id) || a == SeeDone(id) ==> At(s', id, Done(Failed)))
  {
  }

  // ----- who changes what

  /** An entry leaves the table only with its answer, with its failure to be written or its time-out, or
      when the client has been closed. */
  lemma TableChanges(s: State, a: Action, id: Id)
    requires Enabled(s, a)
    ensures id in s.pending && id !in Step(s, a).pending ==>
      a in {DropUnwritten(id), DropTimedOut(id), CloseEnd} || (a.Take? && a.msg.id == id)
    ensures id !in s.pending && id in Step(s, a).pending ==> a == Register(id) && !s.closed
  {
  }

  /** The action is none that makes, fills, empties or closes a channel. */
  predicate IsQuiet(a: Action) {
    !a.Begin? && !a.Receive? && !a.Deliver? && !a.Finish? && !a.CloseSend? && !a.CloseChannel?
  }

  lemma QuietStep(s: State, a: Action)
    requires Enabled(s, a) && IsQuiet(a)
    ensures Step(s, a).channels == s.channels
  {
  }

  /** A response gets into a channel only from the receiver that took its message, or from closing; and a
      channel is closed by the receiver that answered, or by closing the client. */
  ghost predicate ChannelMoves(s: State, s': State, a: Action, id: Id)
    requires Enabled(s, a) && id in s.channels
  {
    && id in s'.channels
    && (s'.channels[id].buffer == s.channels[id].buffer
        || (a.Deliver? && s.deliveries[a.worker].msg.id == id
            && s'.channels[id].buffer == [Answer(s.deliveries[a.worker].msg)])
        || (a == CloseSend(id) && s'.channels[id].buffer == [ClientClosed])
        || (a == Receive(id) && s.channels[id].buffer != []
            && s'.channels[id].buffer == s.channels[id].buffer[1..]))
    && (!s'.fault ==>
          (s'.channels[id].closed <==>
             || s.channels[id].closed
             || (a.Finish? && s.deliveries[a.worker].id == id) || (a.CloseChannel? && s.lock.half == Some(id))))
  }

  lemma SendMoves(s: State, a: Action, id: Id)
    requires Enabled(s, a) && (a.Deliver? || a.CloseSend?) && id in s.channels
    ensures ChannelMoves(s, Step(s, a), a, id)
  {
  }

  lemma CloseMoves(s: State, a: Action, id: Id)
    requires Enabled(s, a) && (a.Finish? || a.CloseChannel?) && id in s.channels
    ensures ChannelMoves(s, Step(s, a), a, id)
  {
  }

  lemma RequestStepMoves(s: State, a: Action, id: Id)
    requires Enabled(s, a) && (a.Begin? || a.Receive?) && id in s.channels && id <= s.last
    ensures ChannelMoves(s, Step(s, a), a, id)
  {
  }

  /** Who changes a channel, whatever the step is. */
  lemma ChannelChanges(s: State, a: Action, id: Id)
    requires Enabled(s, a) && id in s.channels && id <= s.last
    ensures ChannelMoves(s, Step(s, a), a, id)
  {
    hide Step;
    if IsQuiet(a) {
      QuietStep(s, a);
    } else if a.Deliver? || a.CloseSend? {
      SendMoves(s, a, id);
    } else if a.Finish? || a.CloseChannel? {
      CloseMoves(s, a, id);
    } else {
      RequestStepMoves(s, a, id);
    }
  }

  /** Once the client is closed and the mutex free, requests are told, or are about to be. */
  lemma {:induction false} ClosingIsAnnounced(states: seq<State>, actions: seq<Action>, n: nat)
    requires IsRun(states, actions) && n <= |actions|
    ensures states[n].closed && states[n].lock == Free ==> states[n].doneClosed || states[n].doneCloses > 0
  {
    if n > 0 {
      RunKeeps(states, actions, n - 1);
      ClosingIsAnnounced(states, actions, n - 1);
      var s, a := states[n - 1], actions[n - 1];
      assert Enabled(s, a) && states[n - 1 + 1] == Step(s, a);
    }
  }
}
