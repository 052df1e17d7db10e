/**
 The buffer queue (k_buf_queue.c): messages go to a blocked receiver when there is one,
 else into the ring buffer.
 */
module BufQueue {
  import opened Basics
  import opened RingBuffer

  type Msg = seq<Byte>

  datatype Waiter = Waiter(task: nat, prio: nat)

  /** A message handed to a receiver. */
  datatype Delivery = Delivery(task: nat, msg: Msg)

  datatype Code = Ok | QueueFull | SizeOverflow | BadParam | NoPendWait | SchedDisable | Blocked

  function Messages(ds: seq<Delivery>): seq<Msg> {
    seq(|ds|, i requires 0 <= i < |ds| => ds[i].msg)
  }

  lemma MessagesSnoc(ds: seq<Delivery>, d: Delivery)
    ensures Messages(ds + [d]) == Messages(ds) + [d.msg]
  {
  }

  /** First come first served among equals, the most urgent first. */
  ghost predicate ByPrio(ws: seq<Waiter>) {
    forall i, j | 0 <= i < j < |ws| :: ws[i].prio <= ws[j].prio
  }

  /** A receiver blocks: behind those at least as urgent, in front of the rest. */
  function PlaceIn(ws: seq<Waiter>, w: Waiter): seq<Waiter> {
    if ws == [] || ws[0].prio > w.prio then [w] + ws else [ws[0]] + PlaceIn(ws[1..], w)
  }

  /** w stands at place i, behind those at least as urgent and in front of the rest. */
  ghost predicate JoinedAt(ws: seq<Waiter>, now: seq<Waiter>, w: Waiter, i: nat) {
    && i <= |ws| && now == ws[..i] + [w] + ws[i..]
    && (forall k | 0 <= k < i :: ws[k].prio <= w.prio) && (i < |ws| ==> ws[i].prio > w.prio)
  }

  ghost predicate JoinsAt(ws: seq<Waiter>, now: seq<Waiter>, w: Waiter) {
    exists i: nat :: JoinedAt(ws, now, w, i)
  }

  lemma {:induction false} PlaceInAt(ws: seq<Waiter>, w: Waiter, i: nat)
    requires i <= |ws| && (forall k | 0 <= k < i :: ws[k].prio <= w.prio) && (i < |ws| ==> ws[i].prio > w.prio)
    ensures PlaceIn(ws, w) == ws[..i] + [w] + ws[i..]
  {
    if i > 0 {
      PlaceInAt(ws[1..], w, i - 1);
      assert ws[1..][..i - 1] == ws[1..i] && ws[1..][i - 1..] == ws[i..];
      assert ws[..i] == [ws[0]] + ws[1..i];
    }
  }

  lemma PlaceInSorted(ws: seq<Waiter>, w: Waiter, i: nat)
    requires i <= |ws| && (forall k | 0 <= k < i :: ws[k].prio <= w.prio) && (i < |ws| ==> ws[i].prio > w.prio)
    requires ByPrio(ws)
    ensures ByPrio(ws[..i] + [w] + ws[i..])
  {
    forall k | i <= k < |ws| ensures ws[k].prio > w.prio {
      assert ws[i].prio <= ws[k].prio;
    }
  }

  /** What a queue stands for: the messages in the ring, the blocked receivers, and what was handed over. */
  datatype QueueState = QueueState(stored: seq<Msg>, waiters: seq<Waiter>, delivered: seq<Delivery>)

  class Queue {
    const ring: Ring
    const maxMsg: nat
    var waiters: seq<Waiter>
    var curNum: nat
    var peakNum: nat
    var minFree: nat
    /** The messages in the ring, those accepted since the last flush, and those handed over. */
    ghost var stored: seq<Msg>
    ghost var accepted: seq<Msg>
    ghost var delivered: seq<Delivery>

    /** Conservation: what was accepted is what was handed over, in that order, and then what is stored. */
    ghost predicate Valid()
      reads this, ring, ring.buf
    {
      && ring.Holds(stored) && maxMsg + PREFIX < 0x1_0000_0000
      && curNum == |stored| && curNum <= peakNum && minFree <= ring.freesize
      && (waiters != [] ==> stored == []) && ByPrio(waiters)
      && accepted == Messages(delivered) + stored
    }

    ghost function State(): QueueState
      reads this
    {
      QueueState(stored, waiters, delivered)
    }

    constructor (len: nat, maxMsg: nat)
      requires len > 0 && maxMsg + PREFIX < 0x1_0000_0000
      ensures Valid() && accepted == [] && delivered == [] && waiters == [] && fresh(ring) && fresh(ring.buf)
    {
      ring := new Ring(len);
      this.maxMsg := maxMsg;
      waiters, curNum, peakNum, minFree := [], 0, 0, len;
      stored, accepted, delivered := [], [], [];
    }

    /** buf_queue_send. */
    method Send(msg: Msg) returns (code: Code)
      requires Valid()
      modifies this, ring, ring.buf
      ensures Valid()
      ensures code == (if |msg| > maxMsg then SizeOverflow
                       else if |msg| == 0 then BadParam
                       else if old(waiters) == [] && old(ring.freesize) < PREFIX + |msg| then QueueFull
                       else Ok)
      ensures code != Ok ==>
        accepted == old(accepted) && delivered == old(delivered) && waiters == old(waiters) && stored == old(stored)
      ensures code == Ok ==> accepted == old(accepted) + [msg]
      // nobody waits: the message is stored
      ensures code == Ok && old(waiters) == [] ==>
        stored == old(stored) + [msg] && delivered == old(delivered) && waiters == []
      // somebody waits: the most urgent receiver gets it, exactly once
      ensures code == Ok && old(waiters) != [] ==>
        && delivered == old(delivered) + [Delivery(old(waiters)[0].task, msg)]
        && waiters == old(waiters)[1..] && stored == []
        && forall w | w in old(waiters) :: old(waiters)[0].prio <= w.prio
    {
      if |msg| > maxMsg {
        return SizeOverflow;
      }
      if |msg| == 0 {
        return BadParam;
      }
      if waiters == [] {
        var err := ring.Push(msg, stored);
        if err != Success {
          return QueueFull;
        }
        stored := stored + [msg];
        accepted := accepted + [msg];
        curNum := curNum + 1;
        if peakNum < curNum {
          peakNum := curNum;
        }
        if minFree > ring.freesize {
          minFree := ring.freesize;
        }
        assert accepted == Messages(delivered) + stored;
        return Ok;
      }
      var task := waiters[0].task;
      waiters := waiters[1..];
      MessagesSnoc(delivered, Delivery(task, msg));
      delivered := delivered + [Delivery(task, msg)];
      accepted := accepted + [msg];
      return Ok;
    }

    /** krhino_buf_queue_recv by task `self`; a blocked receiver is handed its message by a later send. */
    method Recv(self: Waiter, noWait: bool, schedLocked: bool) returns (code: Code, msg: Msg)
      requires Valid()
      modifies this, ring, ring.buf
      ensures Valid() && accepted == old(accepted)
      ensures code == (if old(stored) != [] then Ok
                       else if noWait then NoPendWait
                       else if schedLocked then SchedDisable
                       else Blocked)
      ensures code == Ok ==>
        && msg == old(stored)[0] && stored == old(stored)[1..] && waiters == old(waiters)
        && delivered == old(delivered) + [Delivery(self.task, msg)]
      ensures code != Ok ==> stored == old(stored) && delivered == old(delivered)
      ensures code == Blocked ==> waiters == PlaceIn(old(waiters), self) && JoinsAt(old(waiters), waiters, self)
      ensures code != Blocked ==> waiters == old(waiters)
    {
      msg := [];
      var empty := ring.IsEmpty(stored);
      if !empty {
        var status;
        status, msg := ring.Pop(stored);
        assert stored == [msg] + stored[1..];
        MessagesSnoc(delivered, Delivery(self.task, msg));
        delivered := delivered + [Delivery(self.task, msg)];
        stored := stored[1..];
        curNum := curNum - 1;
        assert accepted == Messages(delivered) + stored;
        return Ok, msg;
      }
      if noWait {
        return NoPendWait, msg;
      }
      if schedLocked {
        return SchedDisable, msg;
      }
      Enlist(self);
      return Blocked, msg;
    }

    /** pend_list_add: in front of the first receiver that is less urgent. */
    method Enlist(self: Waiter)
      requires Valid() && stored == []
      modifies this`waiters
      ensures Valid() && waiters == PlaceIn(old(waiters), self) && JoinsAt(old(waiters), waiters, self)
    {
      var i := 0;
      while i < |waiters| && waiters[i].prio <= self.prio
        invariant i <= |waiters|
        invariant forall k | 0 <= k < i :: waiters[k].prio <= self.prio
      {
        i := i + 1;
      }
      PlaceInAt(waiters, self, i);
      PlaceInSorted(waiters, self, i);
      assert JoinedAt(waiters, waiters[..i] + [self] + waiters[i..], self, i);
      waiters := waiters[..i] + [self] + waiters[i..];
    }

    /** pend_list_reorder: the priority of a blocked receiver has changed. */
    method Reorder(i: nat, prio: nat)
      requires Valid() && i < |waiters|
      modifies this`waiters
      ensures Valid()
      ensures var rest, self := old(waiters)[..i] + old(waiters)[i + 1..], Waiter(old(waiters)[i].task, prio);
        waiters == PlaceIn(rest, self) && JoinsAt(rest, waiters, self)
    {
      var self := Waiter(waiters[i].task, prio);
      waiters := waiters[..i] + waiters[i + 1..];
      Enlist(self);
    }

    /** A blocked receiver gives up: its time is up or its wait is aborted. */
    method GiveUp(i: nat)
      requires Valid() && i < |waiters|
      modifies this`waiters
      ensures Valid() && waiters == old(waiters)[..i] + old(waiters)[i + 1..]
    {
      waiters := waiters[..i] + waiters[i + 1..];
    }

    /** krhino_buf_queue_flush: the stored messages are dropped. */
    method Flush()
      requires Valid()
      modifies this, ring
      ensures Valid() && stored == [] && delivered == old(delivered) && waiters == old(waiters)
      ensures accepted == Messages(delivered)
    {
      ring.Reset();
      curNum, peakNum, minFree := 0, 0, ring.freesize;
      stored := [];
      accepted := Messages(delivered);
      assert accepted == Messages(delivered) + stored;
    }
  }

  datatype Request =
    | SendMsg(msg: Msg)
    | Receive(self: Waiter, noWait: bool, schedLocked: bool)
    | Expire(i: nat)
    | ChangePrio(i: nat, prio: nat)

  /** What one request makes of a queue of `cap` bytes, and the code its caller gets. */
  function Reply(cap: nat, maxMsg: nat, q: QueueState, request: Request): (QueueState, Code) {
    match request
    case SendMsg(msg) =>
      if |msg| > maxMsg then (q, SizeOverflow)
      else if |msg| == 0 then (q, BadParam)
      else if q.waiters != [] then
        (q.(waiters := q.waiters[1..], delivered := q.delivered + [Delivery(q.waiters[0].task, msg)]), Ok)
      else if |Flat(q.stored)| + PREFIX + |msg| > cap then (q, QueueFull)
      else (q.(stored := q.stored + [msg]), Ok)
    case Receive(self, noWait, schedLocked) =>
      if q.stored != [] then
        (q.(stored := q.stored[1..], delivered := q.delivered + [Delivery(self.task, q.stored[0])]), Ok)
      else if noWait then (q, NoPendWait)
      else if schedLocked then (q, SchedDisable)
      else (q.(waiters := PlaceIn(q.waiters, self)), Blocked)
    case Expire(i) =>
      if i < |q.waiters| then (q.(waiters := q.waiters[..i] + q.waiters[i + 1..]), Ok) else (q, BadParam)
    case ChangePrio(i, prio) =>
      if i < |q.waiters| then
        (q.(waiters := PlaceIn(q.waiters[..i] + q.waiters[i + 1..], Waiter(q.waiters[i].task, prio))), Ok)
      else (q, BadParam)
  }

  /** A run of requests: where the queue ends, and the code each caller got. */
  function Replies(cap: nat, maxMsg: nat, q: QueueState, requests: seq<Request>): (QueueState, seq<Code>)
    decreases |requests|
  {
    if requests == [] then (q, [])
    else
      var (next, code) := Reply(cap, maxMsg, q, requests[0]);
      var (last, codes) := Replies(cap, maxMsg, next, requests[1..]);
      (last, [code] + codes)
  }

  /** The messages of the sends that were accepted, in order. */
  function Offered(requests: seq<Request>, codes: seq<Code>): seq<Msg>
    requires |codes| == |requests|
  {
    if requests == [] then []
    else (if requests[0].SendMsg? && codes[0] == Ok then [requests[0].msg] else []) + Offered(requests[1..], codes[1..])
  }

  /** All messages a queue has taken in: those handed over, and then those stored. */
  function Taken(q: QueueState): seq<Msg> {
    Messages(q.delivered) + q.stored
  }

  lemma ReplyConserves(cap: nat, maxMsg: nat, q: QueueState, request: Request)
    requires q.waiters != [] ==> q.stored == []
    ensures var (r, code) := Reply(cap, maxMsg, q, request);
      && Taken(r) == Taken(q) + (if request.SendMsg? && code == Ok then [request.msg] else [])
      && (r.waiters != [] ==> r.stored == [])
  {
    var (r, code) := Reply(cap, maxMsg, q, request);
    if request.SendMsg? && code == Ok && q.waiters != [] {
      MessagesSnoc(q.delivered, Delivery(q.waiters[0].task, request.msg));
    } else if request.Receive? && code == Ok {
      MessagesSnoc(q.delivered, Delivery(request.self.task, q.stored[0]));
      assert q.stored == [q.stored[0]] + q.stored[1..];
    }
  }

  lemma Regroup(a: seq<Msg>, x: seq<Msg>, b: seq<Msg>)
    ensures a + x + b == a + (x + b)
  {
  }

  /** Nothing is lost, doubled or reordered: what a run takes in are the messages of its accepted sends. */
  lemma {:induction false} RepliesConserve(cap: nat, maxMsg: nat, q: QueueState, requests: seq<Request>)
    requires q.waiters != [] ==> q.stored == []
    ensures var (last, codes) := Replies(cap, maxMsg, q, requests);
      |codes| == |requests| && Taken(last) == Taken(q) + Offered(requests, codes)
    decreases |requests|
  {
    if requests != [] {
      var (next, code) := Reply(cap, maxMsg, q, requests[0]);
      ReplyConserves(cap, maxMsg, q, requests[0]);
      RepliesConserve(cap, maxMsg, next, requests[1..]);
      var (last, codes) := Replies(cap, maxMsg, next, requests[1..]);
      assert ([code] + codes)[1..] == codes;
      var x := if requests[0].SendMsg? && code == Ok then [requests[0].msg] else [];
      Regroup(Taken(q), x, Offered(requests[1..], codes));
    } else {
      assert Taken(q) + [] == Taken(q);
    }
  }

  /** One request, as the code serves it. */
  method Answer(queue: Queue, request: Request) returns (code: Code)
    requires queue.Valid()
    modifies queue, queue.ring, queue.ring.buf
    ensures queue.Valid()
    ensures (queue.State(), code) == Reply(queue.ring.buf.Length, queue.maxMsg, old(queue.State()), request)
  {
    match request {
      case SendMsg(msg) =>
        code := queue.Send(msg);
      case Receive(self, noWait, schedLocked) =>
        var c, _ := queue.Recv(self, noWait, schedLocked);
        code := c;
      case Expire(i) =>
        if i < |queue.waiters| {
          queue.GiveUp(i);
          return Ok;
        }
        return BadParam;
      case ChangePrio(i, prio) =>
        if i < |queue.waiters| {
          queue.Reorder(i, prio);
          return Ok;
        }
        return BadParam;
    }
  }

  /** The first k requests have been served: `codes` are their answers, and the queue is in state `now`. */
  ghost predicate Serving(cap: nat, maxMsg: nat, q: QueueState, requests: seq<Request>, k: nat, now: QueueState,
                          codes: seq<Code>)
  {
    && k <= |requests|
    && var (last, rest) := Replies(cap, maxMsg, now, requests[k..]);
      Replies(cap, maxMsg, q, requests) == (last, codes + rest)
  }

  lemma StartServing(cap: nat, maxMsg: nat, q: QueueState, requests: seq<Request>)
    ensures Serving(cap, maxMsg, q, requests, 0, q, [])
  {
    assert requests[0..] == requests;
    var rest := Replies(cap, maxMsg, q, requests).1;
    assert [] + rest == rest;
  }

  lemma ServedOne(cap: nat, maxMsg: nat, q: QueueState, requests: seq<Request>, k: nat, now: QueueState,
                  codes: seq<Code>)
    requires k < |requests| && Serving(cap, maxMsg, q, requests, k, now, codes)
    ensures var (next, code) := Reply(cap, maxMsg, now, requests[k]);
      Serving(cap, maxMsg, q, requests, k + 1, next, codes + [code])
  {
    assert requests[k..][0] == requests[k] && requests[k..][1..] == requests[k + 1..];
    var (next, code) := Reply(cap, maxMsg, now, requests[k]);
    var rest := Replies(cap, maxMsg, next, requests[k + 1..]).1;
    assert codes + ([code] + rest) == codes + [code] + rest;
  }

  lemma Served(cap: nat, maxMsg: nat, q: QueueState, requests: seq<Request>, now: QueueState, codes: seq<Code>)
    requires Serving(cap, maxMsg, q, requests, |requests|, now, codes) && (q.waiters != [] ==> q.stored == [])
    ensures (now, codes) == Replies(cap, maxMsg, q, requests)
    ensures |codes| == |requests| && Taken(now) == Taken(q) + Offered(requests, codes)
  {
    assert codes + [] == codes;
    RepliesConserve(cap, maxMsg, q, requests);
  }

  /** Any run of sends, receives, expiring waits and priority changes keeps order and loses nothing. */
  method Serve(queue: Queue, requests: seq<Request>) returns (codes: seq<Code>)
    requires queue.Valid()
    modifies queue, queue.ring, queue.ring.buf
    ensures queue.Valid()
    ensures (queue.State(), codes) == Replies(queue.ring.buf.Length, queue.maxMsg, old(queue.State()), requests)
    ensures |codes| == |requests|
    ensures Messages(queue.delivered) + queue.stored == old(queue.accepted) + Offered(requests, codes)
    ensures queue.waiters != [] ==> Messages(queue.delivered) == old(queue.accepted) + Offered(requests, codes)
  {
    ghost var cap, q := queue.ring.buf.Length, queue.State();
    codes := [];
    StartServing(cap, queue.maxMsg, q, requests);
    for k := 0 to |requests|
      invariant queue.Valid() && Serving(cap, queue.maxMsg, q, requests, k, queue.State(), codes)
    {
      ServedOne(cap, queue.maxMsg, q, requests, k, queue.State(), codes);
      var code := Answer(queue, requests[k]);
      codes := codes + [code];
    }
    Served(cap, queue.maxMsg, q, requests, queue.State(), codes);
    assert Messages(queue.delivered) + [] == Messages(queue.delivered);
  }
}
