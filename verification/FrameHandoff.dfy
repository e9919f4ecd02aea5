/** One bounded hand-off slot per direction, between the sockets that deliver frames and the one coordinator. */
module FrameHandoff {
  import opened StableSort

  const MAX_AGE_MS := 2500

  /** A frame as received: its place in the order of arrival, its approach and its arrival time. */
  datatype Packet = Packet(id: nat, direction: string, at: int)

  /** What the coordinator is doing between two of its awaits, and the frames it holds. */
  datatype Phase =
    | Waiting
    | Woken
    | Judging(ready: seq<Packet>, todo: seq<Packet>)
    | Finishing(results: seq<Packet>, todo: seq<Packet>, detected: set<string>)
    | Delivering(todo: seq<Packet>)
  {
    function Held(): seq<Packet> {
      match this
      case Waiting => []
      case Woken => []
      case Judging(ready, todo) => ready + todo
      case Finishing(results, todo, _) => results + todo
      case Delivering(todo) => todo
    }
  }

  datatype Counters = Counters(received: nat, dropped: nat, decodeFailed: nat, processed: nat, overwritten: nat,
                               errors: nat)

  /** Why a frame left without being counted: too old by then and without a detection, or an exception in its batch. */
  datatype Cause = TooOld(now: int, detected: set<string>) | BatchError

  /** Where every frame went, in order, and why the lost ones were lost. */
  datatype Log = Log(received: seq<Packet>, overwritten: seq<Packet>, refused: seq<Packet>,
                     undecodable: seq<Packet>, processed: seq<Packet>, lost: seq<Packet>, causes: seq<Cause>)

  datatype State = State(slots: seq<Packet>, flag: bool, phase: Phase, count: Counters, log: Log)

  const START := State([], false, Waiting, Counters(0, 0, 0, 0, 0, 0), Log([], [], [], [], [], [], []))

  datatype Decode = Decoded | Undecodable | DecodeCrash

  datatype Reply = SessionGone | Acknowledged | AcknowledgeCrash | PublishCrash

  /** One step of the event loop or of the worker thread; in between anything may run. */
  datatype Event =
    | Receive(direction: string, now: int, running: bool)
    | Wake
    | Take
    | Judge(now: int, running: bool, decode: Decode)
    | Infer(due: set<string>, ok: bool)
    | Finish(now: int, ok: bool)
    | Deliver(reply: Reply)

  // ----- the slots, in the order a dictionary keeps them -----------------------------------------

  function Find(slots: seq<Packet>, direction: string): (i: nat)
    ensures i <= |slots| && (i < |slots| ==> slots[i].direction == direction)
    ensures forall j | 0 <= j < i :: slots[j].direction != direction
  {
    if slots == [] || slots[0].direction == direction then 0 else 1 + Find(slots[1..], direction)
  }

  function Replace(slots: seq<Packet>, p: Packet): seq<Packet> {
    var i := Find(slots, p.direction);
    if i < |slots| then slots[i := p] else slots + [p]
  }

  // ----- the steps -------------------------------------------------------------------------------

  function Overwrite(s: State, p: Packet): State {
    var i := Find(s.slots, p.direction);
    if i == |s.slots| then s
    else s.(count := s.count.(dropped := s.count.dropped + 1, overwritten := s.count.overwritten + 1),
            log := s.log.(overwritten := s.log.overwritten + [s.slots[i]]))
  }

  function Receiving(s: State, direction: string, now: int): State {
    var p := Packet(|s.log.received|, direction, now);
    var t := Overwrite(s, p);
    t.(slots := Replace(s.slots, p), flag := true, count := t.count.(received := t.count.received + 1),
       log := t.log.(received := t.log.received + [p]))
  }

  function Refuse(s: State, p: Packet, next: Phase): State {
    s.(phase := next, count := s.count.(dropped := s.count.dropped + 1), log := s.log.(refused := s.log.refused + [p]))
  }

  function Failures(n: nat): seq<Cause> {
    seq(n, _ => BatchError)
  }

  /** An exception in the worker or while publishing: what the batch still holds is gone. */
  function Abort(s: State): State {
    s.(phase := Waiting, count := s.count.(errors := s.count.errors + 1),
       log := s.log.(lost := s.log.lost + s.phase.Held(), causes := s.log.causes + Failures(|s.phase.Held()|)))
  }

  predicate Stale(p: Packet, now: int) {
    now - p.at > MAX_AGE_MS
  }

  function JudgeOne(s: State, now: int, running: bool, decode: Decode): State
    requires s.phase.Judging? && s.phase.todo != []
  {
    var p, rest := s.phase.todo[0], s.phase.todo[1..];
    var next := Judging(s.phase.ready, rest);
    if !running || Stale(p, now) then Refuse(s, p, next)
    else match decode
      case Decoded => s.(phase := Judging(s.phase.ready + [p], rest))
      case Undecodable =>
        s.(phase := next, count := s.count.(decodeFailed := s.count.decodeFailed + 1),
           log := s.log.(undecodable := s.log.undecodable + [p]))
      case DecodeCrash => Abort(s)
  }

  /** A frame without a detection of its own that has grown too old by now leaves without being counted. */
  function FinishOne(s: State, now: int, ok: bool): State
    requires s.phase.Finishing? && s.phase.todo != []
  {
    var p, rest := s.phase.todo[0], s.phase.todo[1..];
    if p.direction !in s.phase.detected && Stale(p, now) then
      s.(phase := Finishing(s.phase.results, rest, s.phase.detected),
         log := s.log.(lost := s.log.lost + [p], causes := s.log.causes + [TooOld(now, s.phase.detected)]))
    else if ok then s.(phase := Finishing(s.phase.results + [p], rest, s.phase.detected))
    else Abort(s)
  }

  function Publish(s: State): State
    requires s.phase.Delivering? && s.phase.todo != []
  {
    s.(phase := Delivering(s.phase.todo[1..]), count := s.count.(processed := s.count.processed + 1),
       log := s.log.(processed := s.log.processed + [s.phase.todo[0]]))
  }

  function DeliverOne(s: State, reply: Reply): State
    requires s.phase.Delivering? && s.phase.todo != []
  {
    match reply
    case SessionGone => Refuse(s, s.phase.todo[0], Delivering(s.phase.todo[1..]))
    case Acknowledged => Publish(s)
    case AcknowledgeCrash => Abort(Publish(s))
    case PublishCrash => Abort(s)
  }

  function Step(s: State, e: Event): State {
    match e
    case Receive(direction, now, running) => if running then Receiving(s, direction, now) else s
    case Wake => if s.phase.Waiting? && s.flag then s.(phase := Woken) else s
    case Take => if s.phase.Woken? then s.(slots := [], flag := false, phase := Judging([], s.slots)) else s
    case Judge(now, running, decode) =>
      if s.phase.Judging? && s.phase.todo != [] then JudgeOne(s, now, running, decode) else s
    case Infer(due, ok) =>
      if !(s.phase.Judging? && s.phase.todo == []) then s
      else if s.phase.ready == [] then s.(phase := Delivering([]))
      else if ok then s.(phase := Finishing([], s.phase.ready, due))
      else Abort(s)
    case Finish(now, ok) =>
      if !s.phase.Finishing? then s
      else if s.phase.todo == [] then s.(phase := Delivering(s.phase.results))
      else FinishOne(s, now, ok)
    case Deliver(reply) =>
      if !s.phase.Delivering? then s
      else if s.phase.todo == [] then s.(phase := Waiting)
      else DeliverOne(s, reply)
  }

  function Steps(s: State, events: seq<Event>): State {
    if events == [] then s else Step(Steps(s, events[..|events| - 1]), events[|events| - 1])
  }

  // ----- the invariant ---------------------------------------------------------------------------

  ghost predicate OnePerDirection(ps: seq<Packet>) {
    forall i, j | 0 <= i < j < |ps| :: ps[i].direction != ps[j].direction
  }

  /** Frames of one approach stand in the order they came in. */
  ghost predicate InOrder(ps: seq<Packet>) {
    forall i, j | 0 <= i < j < |ps| :: ps[i].direction == ps[j].direction ==> ps[i].id < ps[j].id
  }

  ghost predicate Newest(p: Packet, received: seq<Packet>) {
    p in received && forall q | q in received :: q.direction == p.direction ==> q.id <= p.id
  }

  ghost predicate Superseded(p: Packet, received: seq<Packet>) {
    exists q :: q in received && q.direction == p.direction && p.id < q.id
  }

  /** The processed frames, then those in flight, then those in the slots. */
  function Queue(s: State): seq<Packet> {
    s.log.processed + s.phase.Held() + s.slots
  }

  /** The frames that left a batch without being processed. */
  function Aside(log: Log): multiset<Packet> {
    multiset(log.refused) + multiset(log.undecodable) + multiset(log.lost)
  }

  function Everywhere(s: State): multiset<Packet> {
    multiset(Queue(s)) + multiset(s.log.overwritten) + Aside(s.log)
  }

  ghost predicate Numbered(received: seq<Packet>) {
    forall i | 0 <= i < |received| :: received[i].id == i
  }

  ghost predicate SlotsFresh(s: State) {
    && OnePerDirection(s.slots)
    && (s.flag <==> s.slots != [])
    && forall i | 0 <= i < |s.slots| :: Newest(s.slots[i], s.log.received)
  }

  ghost predicate Counted(s: State) {
    && s.count.received == |s.log.received|
    && s.count.dropped == |s.log.overwritten| + |s.log.refused|
    && s.count.overwritten == |s.log.overwritten|
    && s.count.decodeFailed == |s.log.undecodable|
    && s.count.processed == |s.log.processed|
  }

  ghost predicate Inv(s: State) {
    && Numbered(s.log.received)
    && Everywhere(s) == multiset(s.log.received)
    && SlotsFresh(s)
    && OnePerDirection(s.phase.Held())
    && InOrder(Queue(s))
    && (forall i | 0 <= i < |s.log.overwritten| :: Superseded(s.log.overwritten[i], s.log.received))
    && Counted(s)
  }

  // ----- every step keeps the invariant ----------------------------------------------------------

  lemma DropMiddle(a: seq<Packet>, b: seq<Packet>, c: seq<Packet>)
    requires InOrder(a + b + c)
    ensures InOrder(a + c)
  {
    var all, some := a + b + c, a + c;
    forall i, j | 0 <= i < j < |some| && some[i].direction == some[j].direction ensures some[i].id < some[j].id {
      var i', j' := if i < |a| then i else i + |b|, if j < |a| then j else j + |b|;
      assert some[i] == all[i'] && some[j] == all[j'];
    }
  }

  /** The frames `gone` leave the batch for the logs and nothing else moves. */
  ghost predicate Leaves(s: State, t: State, done: seq<Packet>, gone: seq<Packet>, rest: seq<Packet>) {
    && s.phase.Held() == done + gone + rest && t.phase.Held() == done + rest
    && t.slots == s.slots && t.flag == s.flag && t.log.received == s.log.received
    && t.log.overwritten == s.log.overwritten && t.log.processed == s.log.processed
    && Aside(t.log) == Aside(s.log) + multiset(gone) && Counted(t)
  }

  lemma LeavesQueue(s: State, t: State, done: seq<Packet>, gone: seq<Packet>, rest: seq<Packet>)
    requires InOrder(Queue(s)) && Leaves(s, t, done, gone, rest)
    ensures InOrder(Queue(t)) && multiset(Queue(s)) == multiset(Queue(t)) + multiset(gone)
  {
    hide Counted, Aside, InOrder;
    var a, c := s.log.processed + done, rest + s.slots;
    assert Queue(s) == a + gone + c && Queue(t) == a + c;
    DropMiddle(a, gone, c);
  }

  lemma LeavesKeeps(s: State, t: State, done: seq<Packet>, gone: seq<Packet>, rest: seq<Packet>)
    requires Inv(s) && Leaves(s, t, done, gone, rest)
    ensures Inv(t)
  {
    hide Counted, Numbered, Superseded, Aside, InOrder, OnePerDirection, Queue;
    LeavesQueue(s, t, done, gone, rest);
    LeavesOne(done, gone, rest);
  }

  lemma LeavesOne(done: seq<Packet>, gone: seq<Packet>, rest: seq<Packet>)
    requires OnePerDirection(done + gone + rest)
    ensures OnePerDirection(done + rest)
  {
    forall i, j | 0 <= i < j < |done + rest| ensures (done + rest)[i].direction != (done + rest)[j].direction {
      var i', j' := if i < |done| then i else i + |gone|, if j < |done| then j else j + |gone|;
      assert (done + rest)[i] == (done + gone + rest)[i'] && (done + rest)[j] == (done + gone + rest)[j'];
    }
  }

  lemma AbortKeeps(s: State)
    requires Inv(s)
    ensures Inv(Abort(s))
  {
    hide InOrder, SlotsFresh, OnePerDirection, Queue, Everywhere, Numbered, Superseded;
    LeavesKeeps(s, Abort(s), [], s.phase.Held(), []);
  }

  /** The queue as a whole stays as it is; a frame in it may have moved on. */
  lemma MovesKeep(s: State, t: State)
    requires Inv(s) && Queue(t) == Queue(s) && SlotsFresh(t) && OnePerDirection(t.phase.Held()) && Counted(t)
    requires Aside(t.log) == Aside(s.log) && t.log.received == s.log.received && t.log.overwritten == s.log.overwritten
    ensures Inv(t)
  {
    hide InOrder, SlotsFresh, OnePerDirection, Aside, Numbered, Superseded, Counted, Queue;
  }

  lemma TailOne(ps: seq<Packet>)
    requires OnePerDirection(ps) && ps != []
    ensures OnePerDirection(ps[1..])
  {
  }

  lemma PublishQueue(processed: seq<Packet>, batch: seq<Packet>, slots: seq<Packet>)
    requires batch != []
    ensures processed + [batch[0]] + batch[1..] + slots == processed + batch + slots
  {
  }

  lemma PublishFacts(s: State)
    requires s.phase.Delivering? && s.phase.todo != [] && OnePerDirection(s.phase.todo) && Counted(s) && SlotsFresh(s)
    ensures var t := Publish(s);
      && Queue(t) == Queue(s) && OnePerDirection(t.phase.Held()) && Counted(t) && SlotsFresh(t)
      && Aside(t.log) == Aside(s.log) && t.log.received == s.log.received && t.log.overwritten == s.log.overwritten
  {
    hide SlotsFresh, OnePerDirection;
    TailOne(s.phase.todo);
    PublishQueue(s.log.processed, s.phase.todo, s.slots);
    SlotsOnly(s, Publish(s));
  }

  lemma PublishKeeps(s: State)
    requires Inv(s) && s.phase.Delivering? && s.phase.todo != []
    ensures Inv(Publish(s))
  {
    hide InOrder, SlotsFresh, OnePerDirection, Everywhere, Numbered, Superseded, Counted, Queue, Aside, Publish;
    PublishFacts(s);
    MovesKeep(s, Publish(s));
  }

  lemma SlotsOnly(s: State, t: State)
    requires SlotsFresh(s) && t.slots == s.slots && t.flag == s.flag && t.log.received == s.log.received
    ensures SlotsFresh(t)
  {
  }

  lemma RefuseKeeps(s: State, done: seq<Packet>, p: Packet, rest: seq<Packet>, next: Phase)
    requires Inv(s) && s.phase.Held() == done + [p] + rest && next.Held() == done + rest
    ensures Inv(Refuse(s, p, next))
  {
    hide InOrder, SlotsFresh, OnePerDirection, Queue, Everywhere, Numbered, Superseded;
    LeavesKeeps(s, Refuse(s, p, next), done, [p], rest);
  }

  lemma JudgeKeeps(s: State, now: int, running: bool, decode: Decode)
    requires Inv(s) && s.phase.Judging? && s.phase.todo != []
    ensures Inv(JudgeOne(s, now, running, decode))
  {
    hide InOrder, SlotsFresh, OnePerDirection, Queue, Everywhere, Numbered, Superseded;
    var done, p, rest := s.phase.ready, s.phase.todo[0], s.phase.todo[1..];
    assert s.phase.Held() == done + [p] + rest;
    if !running || Stale(p, now) {
      RefuseKeeps(s, done, p, rest, Judging(done, rest));
    } else if decode.Undecodable? {
      LeavesKeeps(s, JudgeOne(s, now, running, decode), done, [p], rest);
    } else if decode.DecodeCrash? {
      AbortKeeps(s);
    } else {
      SameHeld(s, JudgeOne(s, now, running, decode));
    }
  }

  /** The worker passing a frame on changes nothing that matters. */
  lemma SameHeld(s: State, t: State)
    requires Inv(s) && t == s.(phase := t.phase) && t.phase.Held() == s.phase.Held()
    ensures Inv(t)
  {
    hide InOrder, OnePerDirection, Aside, Numbered, Superseded;
  }

  lemma FinishKeeps(s: State, now: int, ok: bool)
    requires Inv(s) && s.phase.Finishing? && s.phase.todo != []
    ensures Inv(FinishOne(s, now, ok))
  {
    hide InOrder, SlotsFresh, OnePerDirection, Queue, Everywhere, Numbered, Superseded;
    var done, p, rest := s.phase.results, s.phase.todo[0], s.phase.todo[1..];
    assert s.phase.Held() == done + [p] + rest;
    if p.direction !in s.phase.detected && Stale(p, now) {
      LeavesKeeps(s, FinishOne(s, now, ok), done, [p], rest);
    } else if ok {
      SameHeld(s, FinishOne(s, now, ok));
    } else {
      AbortKeeps(s);
    }
  }

  lemma DeliverKeeps(s: State, reply: Reply)
    requires Inv(s) && s.phase.Delivering? && s.phase.todo != []
    ensures Inv(DeliverOne(s, reply))
  {
    hide Inv, Publish, Refuse, Abort;
    var p, rest := s.phase.todo[0], s.phase.todo[1..];
    match reply
    case SessionGone =>
      assert s.phase.Held() == [] + [p] + rest && Delivering(rest).Held() == [] + rest;
      RefuseKeeps(s, [], p, rest, Delivering(rest));
    case Acknowledged => PublishKeeps(s);
    case AcknowledgeCrash =>
      PublishKeeps(s);
      AbortKeeps(Publish(s));
    case PublishCrash => AbortKeeps(s);
  }

  lemma TakeKeeps(s: State)
    requires Inv(s) && s.phase.Woken?
    ensures Inv(Step(s, Take))
  {
    hide InOrder, Numbered, Superseded, Aside;
    assert Queue(Step(s, Take)) == Queue(s);
  }

  lemma QueueIsReceived(s: State)
    requires Numbered(s.log.received) && Everywhere(s) == multiset(s.log.received)
    ensures forall i | 0 <= i < |Queue(s)| :: Queue(s)[i].id < |s.log.received|
  {
    hide Queue, Aside;
    forall i | 0 <= i < |Queue(s)| ensures Queue(s)[i].id < |s.log.received| {
      assert Queue(s)[i] in Everywhere(s);
      assert Queue(s)[i] in s.log.received;
    }
  }

  /** The frame that arrives takes its predecessor's slot, or a new one at the end. */
  lemma ReceiveQueue(front: seq<Packet>, slots: seq<Packet>, p: Packet)
    requires InOrder(front + slots) && OnePerDirection(slots)
    requires forall i | 0 <= i < |front + slots| :: (front + slots)[i].id < p.id
    ensures InOrder(front + Replace(slots, p)) && OnePerDirection(Replace(slots, p))
  {
    var k, after := Find(slots, p.direction), Replace(slots, p);
    forall i, j | 0 <= i < j < |after| ensures after[i].direction != after[j].direction {
    }
    var was, now := front + slots, front + after;
    forall i, j | 0 <= i < j < |now| && now[i].direction == now[j].direction ensures now[i].id < now[j].id {
      if i == |front| + k {
        assert false;
      } else {
        assert now[i] == was[i];
        if j != |front| + k {
          assert now[j] == was[j];
        }
      }
    }
  }

  lemma ReplaceKeepsOne(slots: seq<Packet>, p: Packet)
    requires OnePerDirection(slots)
    ensures OnePerDirection(Replace(slots, p)) && Replace(slots, p) != []
    ensures forall i | 0 <= i < |Replace(slots, p)| ::
      Replace(slots, p)[i] == p
      || (i < |slots| && Replace(slots, p)[i] == slots[i] && slots[i].direction != p.direction)
  {
  }

  /** The last to arrive is the newest of its approach, and the others' newest are as they were. */
  lemma NewestAfter(received: seq<Packet>, p: Packet, q: Packet)
    requires Numbered(received + [p])
    ensures Newest(p, received + [p])
    ensures q.direction != p.direction && Newest(q, received) ==> Newest(q, received + [p])
  {
    var all := received + [p];
    forall r | r in all ensures r == p || r in received {
    }
    assert all[|received|] == p;
    forall i | 0 <= i < |all| ensures all[i].id <= p.id {
    }
  }

  lemma ReceiveSlots(s: State, direction: string, now: int)
    requires SlotsFresh(s) && Numbered(s.log.received)
    ensures SlotsFresh(Receiving(s, direction, now)) && Numbered(Receiving(s, direction, now).log.received)
  {
    hide Newest, Find, Replace, OnePerDirection;
    var p := Packet(|s.log.received|, direction, now);
    ReplaceKeepsOne(s.slots, p);
    var slots := Replace(s.slots, p);
    forall i | 0 <= i < |slots| ensures Newest(slots[i], s.log.received + [p]) {
      NewestAfter(s.log.received, p, slots[i]);
    }
  }

  lemma SupersededStays(p: Packet, received: seq<Packet>, q: Packet)
    requires Superseded(p, received) || (p.direction == q.direction && p.id < q.id)
    ensures Superseded(p, received + [q])
  {
    var all := received + [q];
    if Superseded(p, received) {
      var r :| r in received && r.direction == p.direction && p.id < r.id;
      assert r in all;
    } else {
      assert q in all;
    }
  }

  lemma ReceiveOverwrites(s: State, direction: string, now: int)
    requires SlotsFresh(s) && Numbered(s.log.received)
    requires forall i | 0 <= i < |s.log.overwritten| :: Superseded(s.log.overwritten[i], s.log.received)
    ensures var s' := Receiving(s, direction, now);
      forall i | 0 <= i < |s'.log.overwritten| :: Superseded(s'.log.overwritten[i], s'.log.received)
  {
    hide Superseded, Find, Replace, OnePerDirection;
    var p, k := Packet(|s.log.received|, direction, now), Find(s.slots, direction);
    var overwritten := Receiving(s, direction, now).log.overwritten;
    forall i | 0 <= i < |overwritten| ensures Superseded(overwritten[i], s.log.received + [p]) {
      if i < |s.log.overwritten| {
        assert Superseded(s.log.overwritten[i], s.log.received);
      } else {
        assert Newest(s.slots[k], s.log.received);
      }
      SupersededStays(overwritten[i], s.log.received, p);
    }
  }

  lemma ReceiveConserves(slots: seq<Packet>, p: Packet)
    ensures var k := Find(slots, p.direction);
      multiset(Replace(slots, p)) + (if k < |slots| then multiset{slots[k]} else multiset{})
      == multiset(slots) + multiset{p}
  {
    hide Find;
  }

  lemma Balance(rest: multiset<Packet>, slots: multiset<Packet>, slots': multiset<Packet>, out: multiset<Packet>,
                out': multiset<Packet>,
                displaced: multiset<Packet>, arrived: multiset<Packet>)
    requires slots' + displaced == slots + arrived && out' == out + displaced
    ensures rest + slots' + out' == rest + slots + out + arrived
  {
    assert rest + slots' + (out + displaced) == rest + out + (slots' + displaced);
    assert rest + out + (slots + arrived) == rest + slots + out + arrived;
  }

  lemma Parts(s: State)
    ensures Everywhere(s) == multiset(s.log.processed) + multiset(s.phase.Held()) + Aside(s.log)
                             + multiset(s.slots) + multiset(s.log.overwritten)
  {
    hide Aside;
  }

  lemma ReceiveAdds(s: State, direction: string, now: int)
    ensures Everywhere(Receiving(s, direction, now))
            == Everywhere(s) + multiset{Packet(|s.log.received|, direction, now)}
  {
    hide Replace, Find, Everywhere;
    var p, k := Packet(|s.log.received|, direction, now), Find(s.slots, direction);
    var s' := Receiving(s, direction, now);
    ReceiveConserves(s.slots, p);
    Parts(s);
    Parts(s');
    Balance(multiset(s.log.processed) + multiset(s.phase.Held()) + Aside(s.log), multiset(s.slots), multiset(s'.slots),
      multiset(s.log.overwritten), multiset(s'.log.overwritten),
      if k < |s.slots| then multiset{s.slots[k]} else multiset{}, multiset{p});
  }

  lemma ReceiveFacts(s: State, direction: string, now: int)
    requires Everywhere(s) == multiset(s.log.received) && Counted(s)
    ensures var s' := Receiving(s, direction, now); Everywhere(s') == multiset(s'.log.received) && Counted(s')
  {
    hide Replace, Find, Everywhere;
    ReceiveAdds(s, direction, now);
  }

  lemma ReceiveOrder(s: State, direction: string, now: int)
    requires Inv(s)
    ensures InOrder(Queue(Receiving(s, direction, now)))
  {
    hide OnePerDirection, InOrder, Replace, Superseded, Newest, Find;
    QueueIsReceived(s);
    ReceiveQueue(s.log.processed + s.phase.Held(), s.slots, Packet(|s.log.received|, direction, now));
  }

  lemma ReceiveKeeps(s: State, direction: string, now: int)
    requires Inv(s)
    ensures Inv(Receiving(s, direction, now))
  {
    hide OnePerDirection, InOrder, Replace, Superseded, SlotsFresh, Everywhere, Queue, Counted, Find;
    ReceiveOrder(s, direction, now);
    ReceiveSlots(s, direction, now);
    ReceiveOverwrites(s, direction, now);
    ReceiveFacts(s, direction, now);
  }

  lemma StepKeeps(s: State, e: Event)
    requires Inv(s)
    ensures Inv(Step(s, e))
  {
    hide Inv, Receiving, JudgeOne, FinishOne, DeliverOne, Abort;
    match e
    case Receive(direction, now, running) => ReceiveKeeps(s, direction, now);
    case Wake => if s.phase.Waiting? && s.flag { SameHeld(s, Step(s, e)); }
    case Take => if s.phase.Woken? { TakeKeeps(s); }
    case Judge(now, running, decode) =>
      if s.phase.Judging? && s.phase.todo != [] { JudgeKeeps(s, now, running, decode); }
    case Infer(due, ok) =>
      if s.phase.Judging? && s.phase.todo == [] {
        if s.phase.ready == [] || ok { SameHeld(s, Step(s, e)); } else { AbortKeeps(s); }
      }
    case Finish(now, ok) =>
      if s.phase.Finishing? {
        if s.phase.todo == [] { SameHeld(s, Step(s, e)); } else { FinishKeeps(s, now, ok); }
      }
    case Deliver(reply) =>
      if s.phase.Delivering? {
        if s.phase.todo == [] { SameHeld(s, Step(s, e)); } else { DeliverKeeps(s, reply); }
      }
  }

  /** The invariant holds after every interleaving of arrivals and coordinator steps. */
  lemma {:induction false} HandoffInvariant(events: seq<Event>)
    ensures Inv(Steps(START, events))
  {
    hide Inv, Step;
    if events == [] {
      StartKeeps();
    } else {
      HandoffInvariant(events[..|events| - 1]);
      StepKeeps(Steps(START, events[..|events| - 1]), events[|events| - 1]);
    }
  }

  lemma StartKeeps()
    ensures Inv(START)
  {
  }

  // ----- what it gives ---------------------------------------------------------------------------

  /** A state some interleaving of arrivals and coordinator steps leads to. */
  ghost predicate Reachable(s: State) {
    exists events :: Steps(START, events) == s
  }

  lemma ReachableKeeps(s: State)
    requires Reachable(s)
    ensures Inv(s)
  {
    hide Inv, Step;
    var events :| Steps(START, events) == s;
    HandoffInvariant(events);
  }

  lemma {:induction false} StepsOn(s: State, a: seq<Event>, b: seq<Event>)
    ensures Steps(Steps(s, a), b) == Steps(s, a + b)
  {
    hide Step;
    if b == [] {
      assert a + b == a;
    } else {
      StepsOn(s, a, b[..|b| - 1]);
      assert (a + b)[..|a + b| - 1] == a + b[..|b| - 1];
    }
  }

  lemma ReachableOn(s: State, events: seq<Event>)
    requires Reachable(s)
    ensures Reachable(Steps(s, events))
  {
    hide Steps;
    var before :| Steps(START, before) == s;
    StepsOn(START, before, events);
  }

  /** Every frame received is in exactly one place: a slot, a batch or one of the logs. */
  lemma EveryFrameOnce(s: State, p: Packet)
    requires Reachable(s) && p in s.log.received
    ensures Everywhere(s)[p] == 1
  {
    hide InOrder, SlotsFresh, OnePerDirection, Superseded, Step, Aside, Queue, Everywhere, Counted;
    ReachableKeeps(s);
    var i :| 0 <= i < |s.log.received| && s.log.received[i] == p;
    OnceInNumbered(s.log.received, i);
  }

  /** The counters account for every frame, but for those lost to age or to an exception. */
  lemma CountersAddUp(s: State)
    requires Reachable(s)
    ensures s.count.received
            == |s.slots| + |s.phase.Held()| + s.count.dropped + s.count.decodeFailed + s.count.processed + |s.log.lost|
  {
    hide InOrder, SlotsFresh, OnePerDirection, Superseded, Step, Aside, Queue, Everywhere, Numbered;
    ReachableKeeps(s);
    Parts(s);
    SizeOfAside(s.log);
  }

  lemma SizeOfAside(log: Log)
    ensures |Aside(log)| == |log.refused| + |log.undecodable| + |log.lost|
  {
  }

  lemma OnceInNumbered(received: seq<Packet>, i: nat)
    requires Numbered(received) && i < |received|
    ensures multiset(received)[received[i]] == 1
  {
    var p, a, b := received[i], received[..i], received[i + 1..];
    assert received == a + [p] + b;
    assert p !in a && p !in b;
  }

  /** Each lost frame has its cause; without an exception it was too old and its approach had no detection. */
  ghost predicate Explained(s: State) {
    && |s.log.causes| == |s.log.lost|
    && (forall i | 0 <= i < |s.log.lost| && s.log.causes[i].TooOld? ::
          Stale(s.log.lost[i], s.log.causes[i].now) && s.log.lost[i].direction !in s.log.causes[i].detected)
    && (s.count.errors == 0 ==> forall i | 0 <= i < |s.log.lost| :: s.log.causes[i].TooOld?)
  }

  lemma AbortExplains(s: State)
    requires Explained(s)
    ensures Explained(Abort(s))
  {
  }

  lemma SameLost(s: State, t: State)
    requires Explained(s) && t.log.lost == s.log.lost && t.log.causes == s.log.causes
             && t.count.errors == s.count.errors
    ensures Explained(t)
  {
  }

  lemma TooOldExplains(s: State, now: int, ok: bool)
    requires Explained(s) && s.phase.Finishing? && s.phase.todo != []
    ensures Explained(FinishOne(s, now, ok))
  {
    hide Abort;
    var p := s.phase.todo[0];
    if p.direction !in s.phase.detected && Stale(p, now) {
    } else if ok {
      SameLost(s, FinishOne(s, now, ok));
    } else {
      AbortExplains(s);
    }
  }

  lemma DeliverExplains(s: State, reply: Reply)
    requires Explained(s) && s.phase.Delivering? && s.phase.todo != []
    ensures Explained(DeliverOne(s, reply))
  {
    hide Abort, Explained;
    match reply
    case SessionGone => SameLost(s, DeliverOne(s, reply));
    case Acknowledged => SameLost(s, Publish(s));
    case AcknowledgeCrash =>
      SameLost(s, Publish(s));
      AbortExplains(Publish(s));
    case PublishCrash => AbortExplains(s);
  }

  lemma StepExplains(s: State, e: Event)
    requires Explained(s)
    ensures Explained(Step(s, e))
  {
    hide Explained, Abort, FinishOne, DeliverOne;
    match e
    case Receive(_, _, _) => SameLost(s, Step(s, e));
    case Wake => SameLost(s, Step(s, e));
    case Take => SameLost(s, Step(s, e));
    case Judge(now, running, decode) =>
      if s.phase.Judging? && s.phase.todo != [] && running && !Stale(s.phase.todo[0], now) && decode.DecodeCrash? {
        AbortExplains(s);
      } else {
        SameLost(s, Step(s, e));
      }
    case Infer(due, ok) =>
      if s.phase.Judging? && s.phase.todo == [] && s.phase.ready != [] && !ok {
        AbortExplains(s);
      } else {
        SameLost(s, Step(s, e));
      }
    case Finish(now, ok) =>
      if s.phase.Finishing? && s.phase.todo != [] {
        TooOldExplains(s, now, ok);
      } else {
        SameLost(s, Step(s, e));
      }
    case Deliver(reply) =>
      if s.phase.Delivering? && s.phase.todo != [] {
        DeliverExplains(s, reply);
      } else {
        SameLost(s, Step(s, e));
      }
  }

  lemma {:induction false} StepsExplain(events: seq<Event>)
    ensures Explained(Steps(START, events))
  {
    hide Step;
    if events != [] {
      StepsExplain(events[..|events| - 1]);
      StepExplains(Steps(START, events[..|events| - 1]), events[|events| - 1]);
    }
  }

  /** Until an exception happens the only frames lost are those that grew too old without a detection. */
  lemma LostIsExplained(s: State)
    requires Reachable(s)
    ensures Explained(s)
  {
    hide Step, Explained;
    var events :| Steps(START, events) == s;
    StepsExplain(events);
  }

  /** The frames processed for an approach are some of those received, in the same order. */
  lemma ProcessedInOrder(s: State, i: nat, j: nat)
    requires Reachable(s) && i < j < |s.log.processed|
    ensures var p, q := s.log.processed[i], s.log.processed[j];
      && p in s.log.received && q in s.log.received
      && (p.direction == q.direction ==> p.id < q.id)
  {
    hide SlotsFresh, OnePerDirection, Superseded, Step, Aside, Counted, Numbered;
    ReachableKeeps(s);
    assert Queue(s)[i] == s.log.processed[i] && Queue(s)[j] == s.log.processed[j];
    assert s.log.processed[i] in Everywhere(s) && s.log.processed[j] in Everywhere(s);
  }

  /**
   * No wake-up is lost: with a frame in a slot the idle coordinator can run, and the batch it then takes is the newest
   * frame of every approach that has one waiting.
   */
  lemma NextBatchIsNewest(s: State)
    requires Reachable(s) && s.phase.Waiting? && s.slots != []
    ensures var t := Step(Step(s, Wake), Take);
      && t.phase == Judging([], s.slots) && t.slots == [] && !t.flag
      && OnePerDirection(s.slots) && forall i | 0 <= i < |s.slots| :: Newest(s.slots[i], s.log.received)
  {
    hide InOrder, Superseded, Aside, Counted, Numbered, Queue, Everywhere;
    ReachableKeeps(s);
  }

  /** A frame is overwritten only by a later one of the same approach. */
  lemma OverwrittenByNewer(s: State, i: nat)
    requires Reachable(s) && i < |s.log.overwritten|
    ensures Superseded(s.log.overwritten[i], s.log.received)
  {
    hide InOrder, SlotsFresh, Superseded, Step, Aside, Counted, Numbered, Queue, Everywhere;
    ReachableKeeps(s);
  }

  // ----- why a frame is where it is ------------------------------------------------------------------

  /** The frame at the head of the worker's list is p. */
  predicate UpNext(s: State, e: Event, p: Packet) {
    match e
    case Judge(_, _, _) => s.phase.Judging? && s.phase.todo != [] && s.phase.todo[0] == p
    case Finish(_, _) => s.phase.Finishing? && s.phase.todo != [] && s.phase.todo[0] == p
    case Deliver(_) => s.phase.Delivering? && s.phase.todo != [] && s.phase.todo[0] == p
    case _ => false
  }

  predicate ReceivedAt(s: State, e: Event, p: Packet) {
    e.Receive? && e.running && p == Packet(|s.log.received|, e.direction, e.now)
  }

  /** The frame that waits for an approach is displaced when another one arrives for it. */
  predicate OverwrittenAt(s: State, e: Event, p: Packet) {
    e.Receive? && e.running && p in s.slots && p.direction == e.direction
  }

  /** A frame is refused when it is judged while the system is paused or too late, or when its session is gone. */
  predicate RefusedAt(s: State, e: Event, p: Packet) {
    && UpNext(s, e, p)
    && ((e.Judge? && (!e.running || e.now - p.at > MAX_AGE_MS)) || (e.Deliver? && e.reply.SessionGone?))
  }

  predicate SpoiltAt(s: State, e: Event, p: Packet) {
    UpNext(s, e, p) && e.Judge? && e.running && e.now - p.at <= MAX_AGE_MS && e.decode.Undecodable?
  }

  predicate ProcessedAt(s: State, e: Event, p: Packet) {
    UpNext(s, e, p) && e.Deliver? && (e.reply.Acknowledged? || e.reply.AcknowledgeCrash?)
  }

  /** A frame without a detection that is too late for the pipeline. */
  predicate TooLateAt(s: State, e: Event, p: Packet) {
    UpNext(s, e, p) && e.Finish? && e.now - p.at > MAX_AGE_MS && p.direction !in s.phase.detected
  }

  /** An exception: a decoder crash, a failed inference, a failed frame in the pipeline, or a failure in publishing. */
  predicate CrashAt(s: State, e: Event) {
    match e
    case Judge(now, running, decode) =>
      s.phase.Judging? && s.phase.todo != [] && running && now - s.phase.todo[0].at <= MAX_AGE_MS && decode.DecodeCrash?
    case Infer(_, ok) => s.phase.Judging? && s.phase.todo == [] && s.phase.ready != [] && !ok
    case Finish(now, ok) =>
      s.phase.Finishing? && s.phase.todo != [] && !TooLateAt(s, e, s.phase.todo[0]) && !ok
    case Deliver(reply) =>
      s.phase.Delivering? && s.phase.todo != [] && (reply.AcknowledgeCrash? || reply.PublishCrash?)
    case _ => false
  }

  /** Lost: too late, or held when an exception ended the batch and not published by that very step. */
  predicate LostAt(s: State, e: Event, p: Packet) {
    TooLateAt(s, e, p)
    || (CrashAt(s, e) && p in if e == Deliver(AcknowledgeCrash) then s.phase.Held()[1..] else s.phase.Held())
  }

  /** At some step of the run this happened to p. */
  ghost predicate Happened(events: seq<Event>, what: (State, Event, Packet) -> bool, p: Packet) {
    exists j | 0 <= j < |events| :: what(Steps(START, events[..j]), events[j], p)
  }

  lemma HappenedGrows(events: seq<Event>, what: (State, Event, Packet) -> bool, p: Packet)
    requires events != []
    ensures var n := |events| - 1;
      Happened(events, what, p) <==> Happened(events[..n], what, p) || what(Steps(START, events[..n]), events[n], p)
  {
    hide Steps;
    var n := |events| - 1;
    assert forall j | 0 <= j < n :: events[..n][..j] == events[..j];
    if Happened(events[..n], what, p) {
      var j :| 0 <= j < n && what(Steps(START, events[..n][..j]), events[..n][j], p);
      assert what(Steps(START, events[..j]), events[j], p);
    }
  }

  /** One step adds to each log just the frames it does that to. */
  ghost predicate Outcome(s: State, e: Event, p: Packet) {
    var before, after := s.log, Step(s, e).log;
    && (p in after.received <==> p in before.received || ReceivedAt(s, e, p))
    && (p in after.overwritten <==> p in before.overwritten || OverwrittenAt(s, e, p))
    && (p in after.refused <==> p in before.refused || RefusedAt(s, e, p))
    && (p in after.undecodable <==> p in before.undecodable || SpoiltAt(s, e, p))
    && (p in after.processed <==> p in before.processed || ProcessedAt(s, e, p))
    && (p in after.lost <==> p in before.lost || LostAt(s, e, p))
  }

  lemma AbortLog(s: State)
    ensures Abort(s).log.refused == s.log.refused && Abort(s).log.undecodable == s.log.undecodable
    ensures Abort(s).log.processed == s.log.processed && Abort(s).log.lost == s.log.lost + s.phase.Held()
    ensures Abort(s).log.received == s.log.received && Abort(s).log.overwritten == s.log.overwritten
  {}

  lemma JudgesOnly(s: State, e: Event, p: Packet)
    requires e.Judge?
    ensures !ReceivedAt(s, e, p) && !OverwrittenAt(s, e, p) && !ProcessedAt(s, e, p) && !TooLateAt(s, e, p)
  {}

  lemma JudgeOutcome(s: State, e: Event, p: Packet)
    requires e.Judge?
    ensures Outcome(s, e, p)
  {
    hide Abort, ReceivedAt, OverwrittenAt, ProcessedAt, TooLateAt;
    JudgesOnly(s, e, p);
    AbortLog(s);
  }

  lemma FinishesOnly(s: State, e: Event, p: Packet)
    requires e.Finish? || e.Infer?
    ensures !ReceivedAt(s, e, p) && !OverwrittenAt(s, e, p) && !ProcessedAt(s, e, p)
    ensures !RefusedAt(s, e, p) && !SpoiltAt(s, e, p)
  {}

  lemma FinishOutcome(s: State, e: Event, p: Packet)
    requires e.Finish?
    ensures Outcome(s, e, p)
  {
    hide Abort, ReceivedAt, OverwrittenAt, ProcessedAt, RefusedAt, SpoiltAt;
    FinishesOnly(s, e, p);
    AbortLog(s);
  }

  lemma InferOutcome(s: State, e: Event, p: Packet)
    requires e.Infer?
    ensures Outcome(s, e, p)
  {
    hide Abort, ReceivedAt, OverwrittenAt, ProcessedAt, RefusedAt, SpoiltAt;
    FinishesOnly(s, e, p);
    AbortLog(s);
  }

  lemma DeliversOnly(s: State, e: Event, p: Packet)
    requires e.Deliver?
    ensures !ReceivedAt(s, e, p) && !OverwrittenAt(s, e, p) && !SpoiltAt(s, e, p) && !TooLateAt(s, e, p)
  {}

  lemma DeliverOutcome(s: State, e: Event, p: Packet)
    requires e.Deliver?
    ensures Outcome(s, e, p)
  {
    hide Abort, ReceivedAt, OverwrittenAt, SpoiltAt, TooLateAt;
    DeliversOnly(s, e, p);
    AbortLog(s);
    if s.phase.Delivering? && s.phase.todo != [] {
      AbortLog(Publish(s));
    }
  }

  lemma OtherOutcome(s: State, e: Event, p: Packet)
    requires OnePerDirection(s.slots) && (e.Receive? || e.Wake? || e.Take?)
    ensures Outcome(s, e, p)
  {
    hide Find, Replace;
  }

  lemma StepOutcome(s: State, e: Event, p: Packet)
    requires OnePerDirection(s.slots)
    ensures Outcome(s, e, p)
  {
    hide Outcome, OnePerDirection;
    match e
    case Judge(_, _, _) => JudgeOutcome(s, e, p);
    case Finish(_, _) => FinishOutcome(s, e, p);
    case Infer(_, _) => InferOutcome(s, e, p);
    case Deliver(_) => DeliverOutcome(s, e, p);
    case _ => OtherOutcome(s, e, p);
  }

  /** After every interleaving a frame is in a log exactly when some step put it there for that log's reason. */
  lemma {:induction false} OutcomeExactly(events: seq<Event>, p: Packet)
    ensures var log := Steps(START, events).log;
      && (p in log.received <==> Happened(events, ReceivedAt, p))
      && (p in log.overwritten <==> Happened(events, OverwrittenAt, p))
      && (p in log.refused <==> Happened(events, RefusedAt, p))
      && (p in log.undecodable <==> Happened(events, SpoiltAt, p))
      && (p in log.processed <==> Happened(events, ProcessedAt, p))
      && (p in log.lost <==> Happened(events, LostAt, p))
  {
    hide Step, ReceivedAt, OverwrittenAt, RefusedAt, SpoiltAt, ProcessedAt, LostAt, Happened, OnePerDirection;
    if events == [] {
      NothingHappened(p);
    } else {
      var n := |events| - 1;
      OutcomeExactly(events[..n], p);
      OneSlotEach(events[..n]);
      HappenedGrows(events, ReceivedAt, p);
      HappenedGrows(events, OverwrittenAt, p);
      HappenedGrows(events, RefusedAt, p);
      HappenedGrows(events, SpoiltAt, p);
      HappenedGrows(events, ProcessedAt, p);
      HappenedGrows(events, LostAt, p);
      StepOutcome(Steps(START, events[..n]), events[n], p);
    }
  }

  lemma OneSlotEach(events: seq<Event>)
    ensures OnePerDirection(Steps(START, events).slots)
  {
    hide Steps, InOrder, Queue, Everywhere, Numbered, Superseded, Counted;
    HandoffInvariant(events);
  }

  lemma NothingHappened(p: Packet)
    ensures !Happened([], ReceivedAt, p) && !Happened([], OverwrittenAt, p) && !Happened([], RefusedAt, p)
            && !Happened([], SpoiltAt, p) && !Happened([], ProcessedAt, p) && !Happened([], LostAt, p)
  {}

  // ----- the handler and the coordinator -----------------------------------------------------------

  datatype Verdict = Verdict(now: int, running: bool, decode: Decode)

  datatype Reading = Reading(now: int, ok: bool)

  function Judgements(vs: seq<Verdict>): seq<Event> {
    seq(|vs|, i requires 0 <= i < |vs| => Judge(vs[i].now, vs[i].running, vs[i].decode))
  }

  function Finishes(rs: seq<Reading>): seq<Event> {
    seq(|rs|, i requires 0 <= i < |rs| => Finish(rs[i].now, rs[i].ok))
  }

  function Deliveries(rs: seq<Reply>): seq<Event> {
    seq(|rs|, i requires 0 <= i < |rs| => Deliver(rs[i]))
  }

  /** Once the batch is abandoned its remaining steps do nothing. */
  lemma {:induction false} IdleSteps(s: State, events: seq<Event>, i: nat)
    requires i <= |events| && Steps(s, events[..i]).phase.Waiting?
    requires forall j | i <= j < |events| :: events[j].Judge? || events[j].Finish? || events[j].Deliver?
    ensures Steps(s, events) == Steps(s, events[..i])
    decreases |events|
  {
    if i < |events| {
      var init := events[..|events| - 1];
      assert init[..i] == events[..i];
      IdleSteps(s, init, i);
    } else {
      assert events[..i] == events;
    }
  }

  lemma OneMore(s: State, events: seq<Event>, i: nat)
    requires i < |events|
    ensures Steps(s, events[..i + 1]) == Step(Steps(s, events[..i]), events[i])
  {
    assert events[..i + 1][..i] == events[..i];
  }

  // ----- a round without exceptions ----------------------------------------------------------------

  function Fit(judge: Packet -> Verdict): Packet -> bool {
    (p: Packet) => judge(p).running && judge(p).now - p.at <= MAX_AGE_MS && judge(p).decode.Decoded?
  }

  function Unfit(judge: Packet -> Verdict): Packet -> bool {
    (p: Packet) => !judge(p).running || judge(p).now - p.at > MAX_AGE_MS
  }

  function Spoilt(judge: Packet -> Verdict): Packet -> bool {
    (p: Packet) => judge(p).running && judge(p).now - p.at <= MAX_AGE_MS && judge(p).decode.Undecodable?
  }

  function TooLate(due: set<string>, read: Packet -> Reading): Packet -> bool {
    (p: Packet) => p.direction !in due && read(p).now - p.at > MAX_AGE_MS
  }

  function InTime(due: set<string>, read: Packet -> Reading): Packet -> bool {
    (p: Packet) => p.direction in due || read(p).now - p.at <= MAX_AGE_MS
  }

  function Gone(reply: Packet -> Reply): Packet -> bool {
    (p: Packet) => reply(p).SessionGone?
  }

  function Present(reply: Packet -> Reply): Packet -> bool {
    (p: Packet) => !reply(p).SessionGone?
  }

  function Verdicts(batch: seq<Packet>, judge: Packet -> Verdict): seq<Verdict> {
    seq(|batch|, i requires 0 <= i < |batch| => judge(batch[i]))
  }

  function Readings(ready: seq<Packet>, read: Packet -> Reading): seq<Reading> {
    seq(|ready|, i requires 0 <= i < |ready| => read(ready[i]))
  }

  function Replies(results: seq<Packet>, reply: Packet -> Reply): seq<Reply> {
    seq(|results|, i requires 0 <= i < |results| => reply(results[i]))
  }

  /** Where the frames of a batch end up: refused, undecodable, lost and processed. */
  ghost predicate Ends(before: Log, after: Log, refused: seq<Packet>, undecodable: seq<Packet>, lost: seq<Packet>,
                       processed: seq<Packet>) {
    && after.refused == before.refused + refused && after.undecodable == before.undecodable + undecodable
    && after.lost == before.lost + lost && after.processed == before.processed + processed
  }

  lemma FilterOneMore(batch: seq<Packet>, n: nat, keep: Packet -> bool)
    requires n < |batch|
    ensures Filter(batch[..n + 1], keep) == Filter(batch[..n], keep) + (if keep(batch[n]) then [batch[n]] else [])
  {
    assert batch[..n + 1] == batch[..n] + [batch[n]];
    FilterConcat(batch[..n], [batch[n]], keep);
  }

  lemma JudgeFate(s: State, v: Verdict)
    requires s.phase.Judging? && s.phase.todo != [] && !v.decode.DecodeCrash?
    ensures var p := s.phase.todo[0]; var t := Step(s, Judge(v.now, v.running, v.decode));
      var unfit := !v.running || v.now - p.at > MAX_AGE_MS;
      && t.phase == Judging(s.phase.ready + (if !unfit && v.decode.Decoded? then [p] else []), s.phase.todo[1..])
      && Ends(s.log, t.log, if unfit then [p] else [], if !unfit && v.decode.Undecodable? then [p] else [], [], [])
  {}

  lemma {:induction false} JudgeBatch(s: State, batch: seq<Packet>, judge: Packet -> Verdict, n: nat)
    requires s.phase == Judging([], batch) && n <= |batch|
    requires forall i | 0 <= i < |batch| :: !judge(batch[i]).decode.DecodeCrash?
    ensures var t := Steps(s, Judgements(Verdicts(batch, judge))[..n]); var done := batch[..n];
      && t.phase == Judging(Filter(done, Fit(judge)), batch[n..])
      && Ends(s.log, t.log, Filter(done, Unfit(judge)), Filter(done, Spoilt(judge)), [], [])
  {
    hide Step, Filter;
    var events := Judgements(Verdicts(batch, judge));
    if n == 0 {
      NothingKept(Fit(judge));
      NothingKept(Unfit(judge));
      NothingKept(Spoilt(judge));
      assert events[..0] == [] && batch[..0] == [];
    } else {
      JudgeBatch(s, batch, judge, n - 1);
      OneMore(s, events, n - 1);
      JudgeFate(Steps(s, events[..n - 1]), judge(batch[n - 1]));
      FilterOneMore(batch, n - 1, Fit(judge));
      FilterOneMore(batch, n - 1, Unfit(judge));
      FilterOneMore(batch, n - 1, Spoilt(judge));
      assert batch[n - 1..][1..] == batch[n..];
    }
  }

  lemma NothingKept(keep: Packet -> bool)
    ensures Filter([], keep) == []
  {}

  lemma FinishFate(s: State, r: Reading)
    requires s.phase.Finishing? && s.phase.todo != [] && r.ok
    ensures var p := s.phase.todo[0]; var t := Step(s, Finish(r.now, r.ok)); var due := s.phase.detected;
      var late := p.direction !in due && r.now - p.at > MAX_AGE_MS;
      && t.phase == Finishing(s.phase.results + (if late then [] else [p]), s.phase.todo[1..], due)
      && Ends(s.log, t.log, [], [], if late then [p] else [], [])
  {}

  lemma {:induction false} FinishReady(s: State, ready: seq<Packet>, due: set<string>, read: Packet -> Reading, n: nat)
    requires s.phase == Finishing([], ready, due) && n <= |ready| && forall i | 0 <= i < |ready| :: read(ready[i]).ok
    ensures var t := Steps(s, Finishes(Readings(ready, read))[..n]); var done := ready[..n];
      && t.phase == Finishing(Filter(done, InTime(due, read)), ready[n..], due)
      && Ends(s.log, t.log, [], [], Filter(done, TooLate(due, read)), [])
  {
    hide Step, Filter;
    var events := Finishes(Readings(ready, read));
    if n == 0 {
      NothingKept(InTime(due, read));
      NothingKept(TooLate(due, read));
      assert events[..0] == [] && ready[..0] == [];
    } else {
      FinishReady(s, ready, due, read, n - 1);
      OneMore(s, events, n - 1);
      FinishFate(Steps(s, events[..n - 1]), read(ready[n - 1]));
      FilterOneMore(ready, n - 1, InTime(due, read));
      FilterOneMore(ready, n - 1, TooLate(due, read));
      assert ready[n - 1..][1..] == ready[n..];
    }
  }

  lemma DeliverFate(s: State, reply: Reply)
    requires s.phase.Delivering? && s.phase.todo != [] && (reply.SessionGone? || reply.Acknowledged?)
    ensures var p := s.phase.todo[0]; var t := Step(s, Deliver(reply));
      && t.phase == Delivering(s.phase.todo[1..])
      && Ends(s.log, t.log, if reply.SessionGone? then [p] else [], [], [], if reply.SessionGone? then [] else [p])
  {}

  lemma {:induction false} DeliverResults(s: State, results: seq<Packet>, reply: Packet -> Reply, n: nat)
    requires s.phase == Delivering(results) && n <= |results|
    requires forall i | 0 <= i < |results| :: reply(results[i]).SessionGone? || reply(results[i]).Acknowledged?
    ensures var t := Steps(s, Deliveries(Replies(results, reply))[..n]); var done := results[..n];
      && t.phase == Delivering(results[n..])
      && Ends(s.log, t.log, Filter(done, Gone(reply)), [], [], Filter(done, Present(reply)))
  {
    hide Step, Filter;
    var events := Deliveries(Replies(results, reply));
    if n == 0 {
      NothingKept(Gone(reply));
      NothingKept(Present(reply));
      assert events[..0] == [] && results[..0] == [];
    } else {
      DeliverResults(s, results, reply, n - 1);
      OneMore(s, events, n - 1);
      DeliverFate(Steps(s, events[..n - 1]), reply(results[n - 1]));
      FilterOneMore(results, n - 1, Gone(reply));
      FilterOneMore(results, n - 1, Present(reply));
      assert results[n - 1..][1..] == results[n..];
    }
  }

  /** No decoder crash, no failed inference, no failed frame, no failed publication. */
  ghost predicate Smooth(batch: seq<Packet>, judge: Packet -> Verdict, detected: bool, read: Packet -> Reading,
                         reply: Packet -> Reply) {
    detected && forall i | 0 <= i < |batch| ::
      var p := batch[i];
      !judge(p).decode.DecodeCrash? && read(p).ok && (reply(p).SessionGone? || reply(p).Acknowledged?)
  }

  /** What a round does to the logs: each frame of the batch to the one its verdict, reading and reply call for. */
  ghost predicate RoundEnds(before: Log, after: Log, batch: seq<Packet>, judge: Packet -> Verdict, due: set<string>,
                            read: Packet -> Reading, reply: Packet -> Reply) {
    var ready := Filter(batch, Fit(judge));
    var results := Filter(ready, InTime(due, read));
    Ends(before, after, Filter(batch, Unfit(judge)) + Filter(results, Gone(reply)), Filter(batch, Spoilt(judge)),
         Filter(ready, TooLate(due, read)), Filter(results, Present(reply)))
  }

  lemma EndsTwice(a: Log, b: Log, c: Log, refused: seq<Packet>, undecodable: seq<Packet>, gone: seq<Packet>,
                  lost: seq<Packet>, processed: seq<Packet>)
    requires Ends(a, b, refused, undecodable, [], []) && Ends(b, c, gone, [], lost, processed)
    ensures Ends(a, c, refused + gone, undecodable, lost, processed)
  {}

  lemma NothingReady(before: Log, after: Log, batch: seq<Packet>, judge: Packet -> Verdict, due: set<string>,
                     read: Packet -> Reading, reply: Packet -> Reply)
    requires Filter(batch, Fit(judge)) == []
    requires Ends(before, after, Filter(batch, Unfit(judge)), Filter(batch, Spoilt(judge)), [], [])
    ensures RoundEnds(before, after, batch, judge, due, read, reply)
  {
    hide Filter;
    NothingKept(InTime(due, read));
    NothingKept(TooLate(due, read));
    NothingKept(Gone(reply));
    NothingKept(Present(reply));
  }

  /** Every frame is judged while running and in time, decodes, is still in time or detected, and is acknowledged. */
  ghost predicate Clear(batch: seq<Packet>, judge: Packet -> Verdict, due: set<string>, read: Packet -> Reading,
                        reply: Packet -> Reply) {
    forall p | p in batch ::
      Fit(judge)(p) && InTime(due, read)(p) && read(p).ok && reply(p).Acknowledged?
  }

  /** When all goes well a round processes its whole batch, in order, and sets no frame aside. */
  lemma ClearRound(before: Log, after: Log, batch: seq<Packet>, judge: Packet -> Verdict, due: set<string>,
                   read: Packet -> Reading, reply: Packet -> Reply)
    requires Clear(batch, judge, due, read, reply)
    ensures Smooth(batch, judge, true, read, reply)
    ensures RoundEnds(before, after, batch, judge, due, read, reply) ==> Ends(before, after, [], [], [], batch)
  {
    FilterAll(batch, Fit(judge));
    FilterAll(batch, Unfit(judge));
    FilterAll(batch, Spoilt(judge));
    FilterAll(batch, InTime(due, read));
    FilterAll(batch, TooLate(due, read));
    FilterAll(batch, Gone(reply));
    FilterAll(batch, Present(reply));
  }

  ghost predicate NoCrash(batch: seq<Packet>, judge: Packet -> Verdict) {
    forall i | 0 <= i < |batch| :: !judge(batch[i]).decode.DecodeCrash?
  }

  ghost predicate Orderly(ready: seq<Packet>, read: Packet -> Reading, reply: Packet -> Reply) {
    forall p | p in ready :: read(p).ok && (reply(p).SessionGone? || reply(p).Acknowledged?)
  }

  ghost predicate BatchEnds(before: Log, after: Log, ready: seq<Packet>, due: set<string>, read: Packet -> Reading,
                            reply: Packet -> Reply) {
    var results := Filter(ready, InTime(due, read));
    Ends(before, after, Filter(results, Gone(reply)), [], Filter(ready, TooLate(due, read)),
         Filter(results, Present(reply)))
  }

  lemma EndsOnward(a: Log, b: Log, c: Log, lost: seq<Packet>, gone: seq<Packet>, processed: seq<Packet>)
    requires Ends(a, b, [], [], lost, []) && Ends(b, c, gone, [], [], processed)
    ensures Ends(a, c, gone, [], lost, processed)
  {}

  lemma FinishedReady(s: State, ready: seq<Packet>, due: set<string>, read: Packet -> Reading, reply: Packet -> Reply)
    requires s.phase == Finishing([], ready, due) && Orderly(ready, read, reply)
    ensures var t := Steps(s, Finishes(Readings(ready, read)));
      && t.phase == Finishing(Filter(ready, InTime(due, read)), [], due)
      && Ends(s.log, t.log, [], [], Filter(ready, TooLate(due, read)), [])
  {
    hide Steps, Filter, Ends;
    var events := Finishes(Readings(ready, read));
    FinishReady(s, ready, due, read, |ready|);
    assert ready[..|ready|] == ready && events[..|ready|] == events;
  }

  lemma DeliveredResults(s: State, ready: seq<Packet>, results: seq<Packet>, due: set<string>, read: Packet -> Reading,
                         reply: Packet -> Reply)
    requires s.phase == Delivering(results) && Orderly(ready, read, reply)
    requires results == Filter(ready, InTime(due, read))
    ensures var t := Steps(s, Deliveries(Replies(results, reply)));
      Ends(s.log, t.log, Filter(results, Gone(reply)), [], [], Filter(results, Present(reply)))
  {
    hide Steps, Filter, Ends;
    var events := Deliveries(Replies(results, reply));
    FilterFacts(ready, InTime(due, read));
    DeliverResults(s, results, reply, |results|);
    assert results[..|results|] == results && events[..|results|] == events;
  }

  lemma RoundLogs(before: Log, prepared: Log, after: Log, batch: seq<Packet>, judge: Packet -> Verdict,
                  due: set<string>, read: Packet -> Reading, reply: Packet -> Reply)
    requires var ready := Filter(batch, Fit(judge));
      && Ends(before, prepared, Filter(batch, Unfit(judge)), Filter(batch, Spoilt(judge)), [], [])
      && (if ready == [] then after == prepared else BatchEnds(prepared, after, ready, due, read, reply))
    ensures RoundEnds(before, after, batch, judge, due, read, reply)
  {
    hide Filter, Ends;
    var ready := Filter(batch, Fit(judge));
    if ready == [] {
      NothingReady(before, after, batch, judge, due, read, reply);
    } else {
      var results := Filter(ready, InTime(due, read));
      EndsTwice(before, prepared, after, Filter(batch, Unfit(judge)), Filter(batch, Spoilt(judge)),
        Filter(results, Gone(reply)), Filter(ready, TooLate(due, read)), Filter(results, Present(reply)));
    }
  }

  /** What smoothness says of the two halves of a round. */
  lemma SmoothParts(batch: seq<Packet>, judge: Packet -> Verdict, detected: bool, read: Packet -> Reading,
                    reply: Packet -> Reply)
    requires Smooth(batch, judge, detected, read, reply)
    ensures detected && NoCrash(batch, judge) && Orderly(Filter(batch, Fit(judge)), read, reply)
  {
    FilterFacts(batch, Fit(judge));
  }

  class MessageHandler {
    var latestFrames: seq<Packet>
    var batchReady: bool
    var counters: Counters
    ghost var phase: Phase
    ghost var log: Log

    constructor ()
      ensures View() == START
    {
      latestFrames, batchReady, counters := [], false, START.count;
      phase, log := Waiting, START.log;
    }

    ghost function View(): State
      reads this
    {
      State(latestFrames, batchReady, phase, counters, log)
    }

    /** The place of an approach's slot, or the end. */
    method FindSlot(direction: string) returns (i: nat)
      ensures i == Find(latestFrames, direction)
    {
      i := 0;
      while i < |latestFrames| && latestFrames[i].direction != direction
        modifies {}
        invariant i <= |latestFrames| && Find(latestFrames, direction) == i + Find(latestFrames[i..], direction)
      {
        assert latestFrames[i..][1..] == latestFrames[i + 1..];
        i := i + 1;
      }
    }

    method HandleVideoFrame(direction: string, now: int, running: bool) returns (accepted: bool)
      requires counters.received == |log.received|
      modifies this
      ensures View() == Step(old(View()), Receive(direction, now, running)) && accepted == running
    {
      hide Find;
      if !running {
        return false;
      }
      var p := Packet(counters.received, direction, now);
      counters := counters.(received := counters.received + 1);
      var i := FindSlot(direction);
      if i < |latestFrames| {
        counters := counters.(dropped := counters.dropped + 1, overwritten := counters.overwritten + 1);
        log := log.(overwritten := log.overwritten + [latestFrames[i]]);
        latestFrames := latestFrames[i := p];
      } else {
        latestFrames := latestFrames + [p];
      }
      log := log.(received := log.received + [p]);
      batchReady := true;
      accepted := true;
    }

    method TakeBatch() returns (packets: seq<Packet>)
      requires phase.Woken?
      modifies this
      ensures View() == Step(old(View()), Take) && packets == old(latestFrames)
    {
      packets := latestFrames;
      latestFrames := [];
      batchReady := false;
      phase := Judging([], packets);
    }

    method Drop(p: Packet, ghost next: Phase)
      modifies `counters, `phase, `log
      ensures View() == Refuse(old(View()), p, next) && phase == next
    {
      counters := counters.(dropped := counters.dropped + 1);
      log := log.(refused := log.refused + [p]);
      phase := next;
    }

    method Fail()
      modifies `counters, `phase, `log
      ensures View() == Abort(old(View())) && phase == Waiting
    {
      counters := counters.(errors := counters.errors + 1);
      log := log.(lost := log.lost + phase.Held(), causes := log.causes + Failures(|phase.Held()|));
      phase := Waiting;
    }

    method JudgeFrame(ready: seq<Packet>, packets: seq<Packet>, i: nat, v: Verdict)
        returns (ready': seq<Packet>, raised: bool)
      requires i < |packets| && phase == Judging(ready, packets[i..])
      modifies `counters, `phase, `log
      ensures View() == Step(old(View()), Judge(v.now, v.running, v.decode))
      ensures if raised then phase.Waiting? else phase == Judging(ready', packets[i + 1..])
    {
      hide Refuse, Abort;
      ready', raised := ready, false;
      var p := packets[i];
      ghost var rest := packets[i + 1..];
      assert packets[i..][0] == p && packets[i..][1..] == rest;
      if !v.running || v.now - p.at > MAX_AGE_MS {
        Drop(p, Judging(ready, rest));
      } else if v.decode.Decoded? {
        ready' := ready + [p];
        phase := Judging(ready', rest);
      } else if v.decode.Undecodable? {
        counters := counters.(decodeFailed := counters.decodeFailed + 1);
        log := log.(undecodable := log.undecodable + [p]);
        phase := Judging(ready, rest);
      } else {
        Fail();
        raised := true;
      }
    }

    /** The first loop of a batch: freshness and decoding. */
    method Prepare(packets: seq<Packet>, verdicts: seq<Verdict>) returns (ready: seq<Packet>, raised: bool)
      requires phase == Judging([], packets) && |verdicts| == |packets|
      modifies `counters, `phase, `log
      ensures View() == Steps(old(View()), Judgements(verdicts))
      ensures if raised then phase.Waiting? else phase == Judging(ready, [])
    {
      hide Step;
      ready, raised := [], false;
      ghost var start, events := View(), Judgements(verdicts);
      var i := 0;
      while i < |packets|
        invariant i <= |packets| && View() == Steps(start, events[..i]) && phase == Judging(ready, packets[i..])
      {
        OneMore(start, events, i);
        ready, raised := JudgeFrame(ready, packets, i, verdicts[i]);
        i := i + 1;
        if raised {
          IdleSteps(start, events, i);
          return;
        }
      }
      assert events[..i] == events;
    }

    method CompleteFrame(results: seq<Packet>, ready: seq<Packet>, i: nat, detected: set<string>, r: Reading)
        returns (results': seq<Packet>, raised: bool)
      requires i < |ready| && phase == Finishing(results, ready[i..], detected)
      modifies `counters, `phase, `log
      ensures View() == Step(old(View()), Finish(r.now, r.ok))
      ensures if raised then phase.Waiting? else phase == Finishing(results', ready[i + 1..], detected)
    {
      hide Abort;
      results', raised := results, false;
      var p := ready[i];
      ghost var rest := ready[i + 1..];
      assert ready[i..][0] == p && ready[i..][1..] == rest;
      if p.direction !in detected && r.now - p.at > MAX_AGE_MS {
        log := log.(lost := log.lost + [p], causes := log.causes + [TooOld(r.now, detected)]);
        phase := Finishing(results, rest, detected);
      } else if r.ok {
        results' := results + [p];
        phase := Finishing(results', rest, detected);
      } else {
        Fail();
        raised := true;
      }
    }

    /** The last loop of a batch: the pipeline runs over each frame that is still fresh or has a detection. */
    method Complete(ready: seq<Packet>, detected: set<string>, readings: seq<Reading>)
        returns (results: seq<Packet>, raised: bool)
      requires phase == Finishing([], ready, detected) && |readings| == |ready|
      modifies `counters, `phase, `log
      ensures View() == Steps(old(View()), Finishes(readings))
      ensures if raised then phase.Waiting? else phase == Finishing(results, [], detected)
    {
      hide Step;
      results, raised := [], false;
      ghost var start, events := View(), Finishes(readings);
      var i := 0;
      while i < |ready|
        invariant i <= |ready| && View() == Steps(start, events[..i])
                  && phase == Finishing(results, ready[i..], detected)
      {
        OneMore(start, events, i);
        results, raised := CompleteFrame(results, ready, i, detected, readings[i]);
        i := i + 1;
        if raised {
          IdleSteps(start, events, i);
          return;
        }
      }
      assert events[..i] == events;
    }

    method DeliverFrame(results: seq<Packet>, i: nat, reply: Reply) returns (raised: bool)
      requires i < |results| && phase == Delivering(results[i..])
      modifies `counters, `phase, `log
      ensures View() == Step(old(View()), Deliver(reply))
      ensures if raised then phase.Waiting? else phase == Delivering(results[i + 1..])
    {
      hide Refuse, Abort;
      raised := false;
      var p := results[i];
      ghost var rest := results[i + 1..];
      assert results[i..][0] == p && results[i..][1..] == rest;
      if reply.SessionGone? {
        Drop(p, Delivering(rest));
      } else if reply.PublishCrash? {
        Fail();
        raised := true;
      } else {
        counters := counters.(processed := counters.processed + 1);
        log := log.(processed := log.processed + [p]);
        phase := Delivering(rest);
        if reply.AcknowledgeCrash? {
          Fail();
          raised := true;
        }
      }
    }

    /** The publishing loop of the coordinator. */
    method DeliverAll(results: seq<Packet>, replies: seq<Reply>)
      requires phase == Delivering(results) && |replies| == |results|
      modifies `counters, `phase, `log
      ensures View() == Steps(old(View()), Deliveries(replies)) && (phase == Waiting || phase == Delivering([]))
    {
      hide Step;
      ghost var start, events := View(), Deliveries(replies);
      var i := 0;
      while i < |results|
        invariant i <= |results| && View() == Steps(start, events[..i]) && phase == Delivering(results[i..])
      {
        OneMore(start, events, i);
        var raised := DeliverFrame(results, i, replies[i]);
        i := i + 1;
        if raised {
          IdleSteps(start, events, i);
          return;
        }
      }
      assert events[..i] == events;
    }

    /** One round of the coordinator, given what clock, decoder, pipeline and sockets do to each frame. */
    method RunRound(judge: Packet -> Verdict, due: set<string>, detected: bool, read: Packet -> Reading,
                    reply: Packet -> Reply)
        returns (ghost done: seq<Event>)
      requires phase.Waiting? && batchReady
      modifies this
      ensures View() == Steps(old(View()), done) && (old(Reachable(View())) ==> Reachable(View()))
      ensures phase.Waiting? && latestFrames == [] && !batchReady
      ensures Smooth(old(latestFrames), judge, detected, read, reply) ==>
                RoundEnds(old(log), log, old(latestFrames), judge, due, read, reply)
      ensures detected && Clear(old(latestFrames), judge, due, read, reply) ==>
                Ends(old(log), log, [], [], [], old(latestFrames))
    {
      hide Reachable, Step, Steps, Smooth, RoundEnds, Clear, Ends, Filter, NoCrash, Orderly, BatchEnds;
      ghost var start := View();
      var packets := StartRound();
      done := [Wake, Take];
      ghost var verdicts := Verdicts(packets, judge);
      StepsOn(start, done, Judgements(verdicts));
      done := done + Judgements(verdicts);
      if Smooth(packets, judge, detected, read, reply) {
        SmoothParts(packets, judge, detected, read, reply);
      }
      var ready, raised := PrepareBatch(packets, judge);
      ghost var prepared := log;
      if !raised {
        if ready == [] || !detected {
          OneStep(start, done, Infer(due, detected));
          InferStep(View(), due, detected);
          done := done + [Infer(due, detected)];
          if ready == [] {
            phase := Delivering([]);
          } else {
            Fail();
          }
        } else {
          ghost var rest := FinishBatch(ready, due, read, reply);
          StepsOn(start, done, rest);
          done := done + rest;
        }
      }
      if phase.Delivering? {
        OneStep(start, done, Deliver(Acknowledged));
        DoneStep(View());
        done := done + [Deliver(Acknowledged)];
        phase := Waiting;
      }
      if Reachable(start) {
        ReachableOn(start, done);
      }
      if detected && Clear(packets, judge, due, read, reply) {
        ClearRound(start.log, log, packets, judge, due, read, reply);
      }
      if Smooth(packets, judge, detected, read, reply) {
        RoundLogs(start.log, prepared, log, packets, judge, due, read, reply);
      }
    }

    /** The first loop, with every frame's verdict when its turn comes. */
    method PrepareBatch(packets: seq<Packet>, judge: Packet -> Verdict) returns (ready: seq<Packet>, raised: bool)
      requires phase == Judging([], packets)
      modifies `counters, `phase, `log
      ensures View() == Steps(old(View()), Judgements(Verdicts(packets, judge)))
      ensures if raised then phase.Waiting? else phase == Judging(ready, [])
      ensures NoCrash(packets, judge) ==>
                !raised && ready == Filter(packets, Fit(judge))
                && Ends(old(log), log, Filter(packets, Unfit(judge)), Filter(packets, Spoilt(judge)), [], [])
    {
      hide Steps, Ends, Filter;
      ghost var before := View();
      var verdicts := Verdicts(packets, judge);
      ready, raised := Prepare(packets, verdicts);
      if NoCrash(packets, judge) {
        JudgeBatch(before, packets, judge, |packets|);
        assert packets[..|packets|] == packets && Judgements(verdicts)[..|packets|] == Judgements(verdicts);
      }
    }

    method StartRound() returns (packets: seq<Packet>)
      requires phase.Waiting? && batchReady
      modifies this
      ensures View() == Steps(old(View()), [Wake, Take])
      ensures latestFrames == [] && !batchReady && phase == Judging([], packets)
      ensures packets == old(latestFrames) && log == old(log)
    {
      hide Steps;
      ghost var s := View();
      OneStep(s, [], Wake);
      OneStep(s, [Wake], Take);
      NoSteps(s);
      assert [] + [Wake] == [Wake] && [Wake] + [Take] == [Wake, Take];
      phase := Woken;
      packets := TakeBatch();
    }

    /** From the detections to the end of publishing. */
    method FinishBatch(ready: seq<Packet>, due: set<string>, read: Packet -> Reading, reply: Packet -> Reply)
        returns (ghost done: seq<Event>)
      requires phase == Judging(ready, []) && ready != []
      modifies `counters, `phase, `log
      ensures View() == Steps(old(View()), done) && (phase == Waiting || phase == Delivering([]))
      ensures Orderly(ready, read, reply) ==> BatchEnds(old(log), log, ready, due, read, reply)
    {
      hide Step, Steps, Filter, Ends, Orderly;
      ghost var start := View();
      OneStep(start, [], Infer(due, true));
      InferStep(start, due, true);
      NoSteps(start);
      done := [] + [Infer(due, true)];
      phase := Finishing([], ready, due);
      ghost var inferred := View();
      var readings := Readings(ready, read);
      StepsOn(start, done, Finishes(readings));
      done := done + Finishes(readings);
      var results, failed := Complete(ready, due, readings);
      if Orderly(ready, read, reply) {
        FinishedReady(inferred, ready, due, read, reply);
      }
      if !failed {
        OneStep(start, done, Finish(0, true));
        ReturnStep(View());
        done := done + [Finish(0, true)];
        phase := Delivering(results);
        ghost var returned := View();
        var replies := Replies(results, reply);
        StepsOn(start, done, Deliveries(replies));
        done := done + Deliveries(replies);
        DeliverAll(results, replies);
        if Orderly(ready, read, reply) {
          DeliveredResults(returned, ready, results, due, read, reply);
          EndsOnward(inferred.log, returned.log, log, Filter(ready, TooLate(due, read)), Filter(results, Gone(reply)),
            Filter(results, Present(reply)));
        }
      }
    }
  }

  lemma OneStep(s: State, done: seq<Event>, e: Event)
    ensures Steps(s, done + [e]) == Step(Steps(s, done), e)
  {
    hide Step;
    assert (done + [e])[..|done|] == done;
  }

  lemma NoSteps(s: State)
    ensures Steps(s, []) == s
  {
  }

  lemma InferStep(s: State, due: set<string>, detected: bool)
    requires s.phase.Judging? && s.phase.todo == []
    ensures Step(s, Infer(due, detected))
            == if s.phase.ready == [] then s.(phase := Delivering([]))
               else if detected then s.(phase := Finishing([], s.phase.ready, due)) else Abort(s)
  {
  }

  lemma ReturnStep(s: State)
    requires s.phase.Finishing? && s.phase.todo == []
    ensures Step(s, Finish(0, true)) == s.(phase := Delivering(s.phase.results))
  {
  }

  lemma DoneStep(s: State)
    requires s.phase == Delivering([])
    ensures Step(s, Deliver(Acknowledged)) == s.(phase := Waiting)
  {
  }
}
