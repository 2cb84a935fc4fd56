/** The queue between one parse and its client: a semaphore of queue bytes, an
    unbounded channel, and a response stream that hands events over in batches.
    Producer, upload forwarder and client run concurrently; the protocol is a
    state machine over their atomic steps, and the stream's poll is the method
    that refines one of them. */
module EventQueue {
  import opened Basics
  import opened Wrappers

  datatype Status = Internal | DeadlineExceeded | InvalidArgument | Other(code: nat)

  /** What travels to the client: events of some encoded size, whose payloads are only
      copied, and errors. */
  datatype Item = Event(payload: nat, bytes: nat) | Trailer(payload: nat, bytes: nat) | Failed(status: Status) {
    /** The stream ends with its `ParseStatus` trailer or with an error. */
    predicate Terminal() {
      Trailer? || Failed?
    }
  }

  /** A queued item and how many permits it gives back when it is handed over. */
  datatype Queued = Queued(cost: nat, item: Item)

  /** The status a stream ends with when every sender went away silently. */
  const NO_TRAILER := Failed(Internal)

  const BATCH_BYTES: nat := 256
  const U32_MAX: nat := 0xFFFF_FFFF

  /** Queue bytes an event waits for: its size, but never more than the queue. */
  function Cost(encodedLen: nat, capacity: nat): (cost: nat)
    requires capacity >= 1
    ensures 1 <= cost <= capacity
  {
    var clamped := if encodedLen < 1 then 1 else if encodedLen > capacity then capacity else encodedLen;
    if clamped <= U32_MAX then clamped else U32_MAX
  }

  /** The queue bytes an item holds until the client has it: none for an error, and for an
      event its encoded size, at least one byte and at most the whole queue, in the 32 bits
      a semaphore counts in. */
  function Held(item: Item, capacity: nat): nat {
    if item.Failed? then 0 else Min(Max(item.bytes, 1), Min(capacity, U32_MAX))
  }

  function Costs(q: seq<Queued>): nat {
    if q == [] then 0 else q[0].cost + Costs(q[1..])
  }

  function Items(q: seq<Queued>): seq<Item> {
    seq(|q|, i requires 0 <= i < |q| => q[i].item)
  }

  datatype Answer = Pending | Done | Ready(item: Item)

  /** Everything the two ends share or own, and the two histories the guarantees
      are about: what was sent, and what the client was handed. */
  datatype System = System(
    capacity: nat,
    free: nat,
    closed: bool,
    channel: seq<Queued>,
    senders: nat,
    held: Option<Queued>,
    batch: seq<Queued>,
    batchBytes: int,
    batchFinal: bool,
    releasing: bool,
    finished: bool,
    cancelled: bool,
    sent: seq<Item>,
    yielded: seq<Item>)
  {
    /** The first waiting item joins the batch. */
    function TakeOne(): System
      requires channel != []
    {
      var q := channel[0];
      this.(channel := channel[1..], batch := batch + [q], batchBytes := batchBytes + q.cost,
            batchFinal := q.item.Terminal())
    }

    /** The stream's own error joins the batch. */
    function TakeSilence(): System {
      this.(batch := batch + [Queued(0, NO_TRAILER)], batchFinal := true)
    }

    /** Take everything waiting in the channel, up to and including a terminal
        item; an empty channel with no sender left yields the error itself. */
    function Gather(): System
      decreases |channel|, senders == 0 && !batchFinal
    {
      if batchFinal then this
      else if channel != [] then TakeOne().Gather()
      else if senders > 0 then this
      else TakeSilence()
    }

    /** Hand the first gathered item over and give its bytes back. */
    function HandOver(): System
      requires batch != []
    {
      var q, rest := batch[0], batch[1..];
      this.(batch := rest, batchBytes := batchBytes - q.cost, free := free + q.cost,
            releasing := rest != [], finished := if rest == [] then batchFinal else finished,
            yielded := yielded + [q.item])
    }

    /** A small batch that may still grow waits for the timer. */
    predicate Waits(timerFired: bool) {
      !releasing && !batchFinal && batchBytes < BATCH_BYTES && !timerFired
    }

    function Poll(timerFired: bool): (System, Answer) {
      if finished then (this, Done)
      else
        var g := Gather();
        if g.batch == [] || g.Waits(timerFired) then (g, Pending)
        else (g.HandOver(), Ready(g.batch[0].item))
    }
  }

  function Initial(capacity: nat, senders: nat): System {
    System(capacity, capacity, false, [], senders, None, [], 0, false, false, false, false, [], [])
  }

  /** One atomic step of one of the parties. */
  datatype Step =
    | Acquire(item: Item)         // the parse gets the bytes for an event
    | Push                        // and puts the event on the channel
    | Fail(status: Status)        // parse or forwarder ends the stream with an error
    | DropSender                  // parse or forwarder goes away
    | PollNext(timerFired: bool)  // the transport asks for the next item
    | DropStream                  // the client cancelled or the call is over

  function Apply(s: System, step: Step): System {
    match step
    case Acquire(item) =>
      if s.senders == 0 || s.held.Some? || s.closed || s.capacity == 0 || item.Failed? then s
      else
        var cost := Cost(item.bytes, s.capacity);
        if s.free < cost then s else s.(free := s.free - cost, held := Some(Queued(cost, item)))
    case Push =>
      if s.held.None? then s
      else if s.closed then s.(held := None)
      else s.(held := None, channel := s.channel + [s.held.value], sent := s.sent + [s.held.value.item])
    case Fail(status) =>
      if s.senders == 0 || s.closed then s
      else s.(channel := s.channel + [Queued(0, Failed(status))], sent := s.sent + [Failed(status)])
    case DropSender =>
      if s.senders == 0 || (s.senders == 1 && s.held.Some?) then s else s.(senders := s.senders - 1)
    case PollNext(fired) =>
      if s.closed then s else s.Poll(fired).0
    case DropStream =>
      s.(closed := true, cancelled := s.cancelled || !s.finished)
  }

  function Run(s: System, steps: seq<Step>): System
    decreases |steps|
  {
    if steps == [] then s else Run(Apply(s, steps[0]), steps[1..])
  }

  // -------------------------------------------------------------------- invariant

  predicate NoTerminal(items: seq<Item>) {
    forall i :: 0 <= i < |items| ==> !items[i].Terminal()
  }

  function HeldCost(s: System): nat {
    if s.held.Some? then s.held.value.cost else 0
  }

  /** Permits are conserved, whoever holds them, and the batch's own counter is
      exact, so handing over never takes it below zero. */
  predicate Conserved(s: System) {
    && s.free + Costs(s.channel) + Costs(s.batch) + HeldCost(s) == s.capacity
    && s.batchBytes == Costs(s.batch)
  }

  /** What has been gathered is what was sent, in order, up to the first terminal
      item; only silence is ever replaced by an error of the stream's own. */
  predicate InOrder(s: System) {
    var gathered := s.yielded + Items(s.batch);
    if !s.batchFinal then
      NoTerminal(gathered) && s.sent == gathered + Items(s.channel)
    else
      && gathered != [] && NoTerminal(gathered[..|gathered| - 1])
      && ((gathered[|gathered| - 1].Terminal() && s.sent == gathered + Items(s.channel))
          || (gathered == s.sent + [NO_TRAILER] && s.channel == [] && s.senders == 0))
  }

  predicate Inv(s: System) {
    && s.capacity >= 1
    && Conserved(s)
    && InOrder(s)
    && (s.senders == 0 ==> s.held.None?)
    && (s.finished <==> s.batchFinal && s.batch == [])
  }

  lemma {:induction false} CostsConcat(a: seq<Queued>, b: seq<Queued>)
    ensures Costs(a + b) == Costs(a) + Costs(b)
  {
    if a == [] {
      assert a + b == b;
    } else {
      assert (a + b)[1..] == a[1..] + b;
      CostsConcat(a[1..], b);
    }
  }

  lemma ItemsConcat(a: seq<Queued>, b: seq<Queued>)
    ensures Items(a + b) == Items(a) + Items(b)
  {
  }

  lemma CostsOne(q: Queued)
    ensures Costs([q]) == q.cost && Items([q]) == [q.item]
  {
    assert Costs([q]) == q.cost + Costs([q][1..]);
  }

  lemma GatherOne(s: System)
    requires Inv(s) && !s.finished && !s.batchFinal && s.channel != []
    ensures Inv(s.TakeOne())
  {
    var q, rest := s.channel[0], s.channel[1..];
    assert s.channel == [q] + rest;
    CostsOne(q);
    CostsConcat(s.batch, [q]);
    CostsConcat([q], rest);
    ItemsConcat(s.batch, [q]);
    ItemsConcat([q], rest);
    var gathered := s.yielded + Items(s.batch);
    Assoc(s.yielded, Items(s.batch), [q.item]);
    Assoc(gathered, [q.item], Items(rest));
    assert (gathered + [q.item])[..|gathered|] == gathered;
  }

  lemma GatherSilence(s: System)
    requires Inv(s) && !s.finished && !s.batchFinal && s.channel == [] && s.senders == 0
    ensures Inv(s.TakeSilence())
  {
    var q := Queued(0, NO_TRAILER);
    CostsOne(q);
    CostsConcat(s.batch, [q]);
    ItemsConcat(s.batch, [q]);
    var gathered := s.yielded + Items(s.batch);
    Assoc(s.yielded, Items(s.batch), [q.item]);
    assert (gathered + [q.item])[..|gathered|] == gathered;
    assert s.sent == gathered;
  }

  /** Gathering keeps the invariant, adds to the batch only, and empties the
      channel unless the stream is ending. */
  lemma {:induction false} GatherKeeps(s: System)
    requires Inv(s) && !s.finished
    ensures var g := s.Gather();
      && Inv(g) && s.batch <= g.batch && g.sent == s.sent && g.yielded == s.yielded
      && g.capacity == s.capacity && g.free == s.free && g.held == s.held && g.senders == s.senders
      && g.closed == s.closed && g.finished == s.finished && g.releasing == s.releasing
      && (g.batchFinal || (g.channel == [] && g.senders > 0))
      && (s.batch != [] || s.channel != [] || s.senders == 0 ==> g.batch != [])
    decreases |s.channel|
  {
    if s.batchFinal {
    } else if s.channel != [] {
      GatherOne(s);
      GatherKeeps(s.TakeOne());
    } else if s.senders == 0 {
      GatherSilence(s);
    }
  }

  lemma HandOverKeeps(s: System)
    requires Inv(s) && !s.finished && s.batch != []
    ensures Inv(s.HandOver())
    ensures s.HandOver().yielded == s.yielded + [s.batch[0].item]
  {
    var q, rest := s.batch[0], s.batch[1..];
    assert s.batch == [q] + rest;
    CostsOne(q);
    CostsConcat([q], rest);
    ItemsConcat([q], rest);
    Assoc(s.yielded, [q.item], Items(rest));
  }

  /** The batch holds the bytes its first item gives back. */
  lemma BytesCover(s: System)
    requires Inv(s) && s.batch != []
    ensures s.batchBytes >= s.batch[0].cost
  {
  }

  /** now is what handing the first item over makes of s, field by field. */
  lemma HandedOver(s: System, now: System)
    requires Inv(s) && !s.finished && s.batch != []
    requires now.batch == s.batch[1..] && now.batchBytes == s.batchBytes - s.batch[0].cost
    requires now.free == s.free + s.batch[0].cost && now.yielded == s.yielded + [s.batch[0].item]
    requires now.releasing == (now.batch != [])
    requires now.finished == if now.batch == [] then s.batchFinal else s.finished
    requires now == s.(free := now.free, batch := now.batch, batchBytes := now.batchBytes, releasing := now.releasing,
                       finished := now.finished, yielded := now.yielded)
    ensures now == s.HandOver() && Inv(now)
  {
    HandOverKeeps(s);
  }

  lemma PollKeeps(s: System, fired: bool)
    requires Inv(s)
    ensures Inv(s.Poll(fired).0)
  {
    if !s.finished {
      GatherKeeps(s);
      var g := s.Gather();
      if g.batch != [] && !g.Waits(fired) {
        HandOverKeeps(g);
      }
    }
  }

  /** An item joins the channel: the event in flight, or an error that holds no
      queue bytes. */
  lemma PushKeeps(s: System, q: Queued, inFlight: bool)
    requires Inv(s) && s.senders > 0
    requires if inFlight then s.held == Some(q) else q.cost == 0
    ensures Inv(s.(held := if inFlight then None else s.held, channel := s.channel + [q], sent := s.sent + [q.item]))
  {
    CostsOne(q);
    CostsConcat(s.channel, [q]);
    ItemsConcat(s.channel, [q]);
    Assoc(s.yielded + Items(s.batch), Items(s.channel), [q.item]);
  }

  /** Once the stream is dropped nothing is handed over any more and permits are
      not given back, so there is nothing left to conserve. */
  predicate Safe(s: System) {
    s.closed || Inv(s)
  }

  lemma ApplySafe(s: System, step: Step)
    requires Safe(s)
    ensures Safe(Apply(s, step))
  {
    if !s.closed {
      match step {
        case Push => if s.held.Some? { PushKeeps(s, s.held.value, true); }
        case Fail(status) => if s.senders > 0 { PushKeeps(s, Queued(0, Failed(status)), false); }
        case PollNext(fired) => PollKeeps(s, fired);
        case _ =>
      }
    }
  }

  /** Whatever the interleaving, permits are conserved and order is kept. */
  lemma {:induction false} EveryRunIsSafe(s: System, steps: seq<Step>)
    requires Safe(s)
    ensures Safe(Run(s, steps))
    decreases |steps|
  {
    if steps != [] {
      ApplySafe(s, steps[0]);
      EveryRunIsSafe(Apply(s, steps[0]), steps[1..]);
    }
  }

  lemma InitialIsSafe(capacity: nat, senders: nat)
    requires capacity >= 1
    ensures Inv(Initial(capacity, senders))
  {
    assert Items([]) == [] && [] + Items([]) == [] && [] + [] + Items([]) == [];
  }

  // ------------------------------------------------------------------- guarantees

  /** What the client has at any moment of any run: a prefix of what was sent, or all of
      it and an internal error when every sender went away; nothing after a trailer or an
      error, and an end of stream only after one of these has been handed over. */
  lemma ClientSeesPrefix(capacity: nat, senders: nat, steps: seq<Step>, fired: bool)
    requires capacity >= 1 && !Run(Initial(capacity, senders), steps).closed
    ensures var s := Run(Initial(capacity, senders), steps);
      && (s.yielded <= s.sent || (s.yielded == s.sent + [Failed(Internal)] && s.senders == 0))
      && (forall i :: 0 <= i < |s.yielded| - 1 ==> s.yielded[i].Event?)
      && (s.Poll(fired).1 == Done ==> s.yielded != [] && !s.yielded[|s.yielded| - 1].Event?)
      && s.free + Costs(s.channel) + Costs(s.batch) + HeldCost(s) == capacity
      && s.batchBytes == Costs(s.batch)
  {
    InitialIsSafe(capacity, senders);
    EveryRunIsSafe(Initial(capacity, senders), steps);
    CapacityIsFixed(Initial(capacity, senders), steps);
    var s := Run(Initial(capacity, senders), steps);
    var gathered := s.yielded + Items(s.batch);
    if s.batchFinal && gathered == s.sent + [NO_TRAILER] && s.batch != [] {
      assert s.yielded == (s.sent + [NO_TRAILER])[..|s.yielded|];
    }
    forall i | 0 <= i < |s.yielded| - 1 ensures s.yielded[i].Event? {
      assert gathered[i] == s.yielded[i];
      if s.batchFinal {
        assert gathered[..|gathered| - 1][i] == gathered[i];
      }
    }
    if s.finished {
      assert gathered == s.yielded;
    }
  }

  lemma {:induction false} GatherCapacity(s: System)
    ensures s.Gather().capacity == s.capacity
    decreases |s.channel|
  {
    if !s.batchFinal && s.channel != [] {
      GatherCapacity(s.TakeOne());
    }
  }

  lemma CapacityStep(s: System, step: Step)
    ensures Apply(s, step).capacity == s.capacity
  {
    GatherCapacity(s);
  }

  lemma {:induction false} CapacityIsFixed(s: System, steps: seq<Step>)
    ensures Run(s, steps).capacity == s.capacity
    decreases |steps|
  {
    if steps != [] {
      CapacityStep(s, steps[0]);
      CapacityIsFixed(Apply(s, steps[0]), steps[1..]);
    }
  }

  /** A poll after the timer answers Pending only when there is nothing at all to
      hand over and someone may still send. */
  lemma PendingMeansEmpty(s: System)
    requires Inv(s) && s.Poll(true).1 == Pending
    ensures s.channel == [] && s.batch == [] && s.senders > 0 && s.free + HeldCost(s) == s.capacity
  {
    GatherKeeps(s);
  }

  function PollMany(s: System, n: nat): System
    decreases n
  {
    if n == 0 then s else PollMany(s.Poll(true).0, n - 1)
  }

  /** Polls left before the stream is finished or has nothing more to give. */
  function Backlog(s: System): nat {
    if s.finished then 0
    else |s.batch| + (if s.batchFinal then 0 else |s.channel| + (if s.senders == 0 then 1 else 0))
  }

  lemma {:induction false} GatherBacklog(s: System)
    requires Inv(s) && !s.finished
    ensures !s.Gather().finished && |s.Gather().batch| <= Backlog(s)
    ensures s.Gather().batchFinal || s.Gather().senders > 0
    decreases |s.channel|
  {
    GatherKeeps(s);
    if !s.batchFinal && s.channel != [] {
      GatherOne(s);
      GatherBacklog(s.TakeOne());
    }
  }

  /** A client that keeps reading drains the queue: after as many polls as there
      is backlog either the terminal item is out or the queue is empty, and then
      every event still to come is admissible, however large it is. With no
      sender left the terminal item is always out. */
  lemma {:induction false} ReadingDrains(s: System, n: nat)
    requires Inv(s) && !s.closed && n >= Backlog(s)
    ensures var t := PollMany(s, n);
      && Inv(t)
      && (t.finished || (t.channel == [] && t.batch == [] && t.senders > 0
                         && t.free + HeldCost(t) == t.capacity))
      && (s.senders == 0 ==> t.finished)
      && (!t.finished && t.held.None? ==> forall item: Item :: t.free >= Held(item, t.capacity))
    decreases n
  {
    if n > 0 {
      PollKeeps(s, true);
      if s.finished {
        ReadingDrains(s, n - 1);
      } else {
        GatherKeeps(s);
        GatherBacklog(s);
        var g := s.Gather();
        var t := s.Poll(true).0;
        if g.batch == [] {
          ReadingDrains(g, n - 1);
        } else {
          HandOverKeeps(g);
          ReadingDrains(t, n - 1);
        }
      }
    }
  }

  // ------------------------------------------------------------------- the two ends

  lemma RunTwo(s: System, a: Step, b: Step)
    ensures Run(s, [a, b]) == Apply(Apply(s, a), b)
  {
    assert [a, b][1..] == [b] && [b][1..] == [];
    assert Run(Apply(s, a), [b]) == Run(Apply(Apply(s, a), b), []);
  }

  datatype Delivery = Sent | Stalled | Gone

  /** What a bounded wait for queue bytes came to. */
  datatype Wait = Granted | TimedOut | SemaphoreClosed

  /** The queue as the program holds it. Fields are those of the channel, the
      semaphore and the stream; the histories are ghost. */
  class Pipe {
    const capacity: nat
    var free: nat
    var closed: bool
    var channel: seq<Queued>
    var senders: nat
    var batch: seq<Queued>
    var batchBytes: nat
    var batchFinal: bool
    var releasing: bool
    var finished: bool
    var cancelled: bool
    var waiting: bool
    ghost var sent: seq<Item>
    ghost var yielded: seq<Item>

    /** The protocol state between two calls: no permit is in flight. */
    ghost function View(): System
      reads this
    {
      System(capacity, free, closed, channel, senders, None, batch, batchBytes, batchFinal,
             releasing, finished, cancelled, sent, yielded)
    }

    constructor (capacity: nat, senders: nat)
      requires capacity >= 1
      ensures View() == Initial(capacity, senders) && Inv(View())
    {
      this.capacity, free, closed, channel, this.senders := capacity, capacity, false, [], senders;
      batch, batchBytes, batchFinal, releasing, finished := [], 0, false, false, false;
      cancelled, waiting, sent, yielded := false, false, [], [];
      new;
      InitialIsSafe(capacity, senders);
    }

    /** Send one event, after a wait for its bytes whose outcome the client and
        the clock decide. */
    method Deliver(item: Item, wait: Wait) returns (delivery: Delivery)
      requires Safe(View()) && senders > 0 && capacity >= 1 && !item.Failed?
      requires wait.Granted? ==> free >= Held(item, capacity) && !closed
      modifies this`free, this`channel, this`sent
      ensures Safe(View())
      ensures delivery.Sent? <==> wait.Granted?
      ensures View() == if wait.Granted? then Run(old(View()), [Acquire(item), Push]) else old(View())
      ensures free == old(free) - (if wait.Granted? then Held(item, capacity) else 0)
    {
      match wait {
        case TimedOut => delivery := Stalled;
        case SemaphoreClosed => delivery := Gone;
        case Granted =>
          ghost var steps := [Acquire(item), Push];
          EveryRunIsSafe(View(), steps);
          RunTwo(View(), steps[0], steps[1]);
          var cost := Cost(item.bytes, capacity);
          free := free - cost;
          channel := channel + [Queued(cost, item)];
          sent := sent + [item];
          delivery := Delivery.Sent;
      }
    }

    method TakeQueued()
      requires channel != []
      modifies this`channel, this`batch, this`batchBytes, this`batchFinal
      ensures View() == old(View()).TakeOne() && |channel| < old(|channel|)
    {
      var queued := channel[0];
      channel := channel[1..];
      batchFinal := queued.item.Terminal();
      batchBytes := batchBytes + queued.cost;
      batch := batch + [queued];
    }

    method TakeNoTrailer()
      requires channel == [] && senders == 0
      modifies this`batch, this`batchFinal
      ensures View() == old(View()).TakeSilence() && batchFinal
    {
      batchFinal := true;
      batch := batch + [Queued(0, NO_TRAILER)];
    }

    /** Move what is waiting in the channel to the batch. */
    method GatherBatch()
      requires Inv(View()) && !finished
      modifies this`channel, this`batch, this`batchBytes, this`batchFinal
      ensures Inv(View()) && View() == old(View()).Gather()
    {
      while !batchFinal
        invariant Inv(View()) && View().Gather() == old(View()).Gather()
        decreases |channel|, !batchFinal
      {
        if channel == [] && senders > 0 {
          break;
        }
        ghost var before := View();
        if channel != [] {
          GatherOne(before);
          TakeQueued();
        } else {
          GatherSilence(before);
          TakeNoTrailer();
        }
      }
    }

    /** Hand over the first item of the batch and return its bytes. */
    method Release() returns (item: Item)
      requires Inv(View()) && !finished && batch != []
      modifies this`batch, this`batchBytes, this`free, this`releasing, this`finished, this`waiting, this`yielded
      ensures Inv(View()) && View() == old(View()).HandOver() && item == old(batch[0].item)
    {
      ghost var before := View();
      BytesCover(before);
      item := TakeFirst();
      HandedOver(before, View());
    }

    /** The bookkeeping of one item handed over, with no underflow when the bytes of
        the batch cover it. */
    method TakeFirst() returns (item: Item)
      requires batch != [] && batchBytes >= batch[0].cost
      modifies this`batch, this`batchBytes, this`free, this`releasing, this`finished, this`waiting, this`yielded
      ensures item == old(batch[0].item) && batch == old(batch[1..]) && yielded == old(yielded) + [item]
      ensures batchBytes == old(batchBytes) - old(batch[0].cost) && free == old(free) + old(batch[0].cost)
      ensures releasing == (batch != []) && finished == if batch == [] then batchFinal else old(finished)
    {
      releasing := true;
      waiting := false;
      var queued := batch[0];
      batch := batch[1..];
      batchBytes := batchBytes - queued.cost;
      if queued.cost > 0 {
        free := free + queued.cost;
      }
      if batch == [] {
        releasing := false;
        finished := batchFinal;
      }
      yielded := yielded + [queued.item];
      item := queued.item;
    }

    /** The next item for the transport, as the protocol's poll step. */
    method PollNext(timerFired: bool) returns (answer: Answer)
      requires Inv(View())
      modifies this
      ensures Inv(View())
      ensures (View(), answer) == old(View()).Poll(timerFired)
      ensures answer == Done ==> yielded != [] && yielded[|yielded| - 1].Terminal()
    {
      if finished {
        assert yielded + Items(batch) == yielded;
        return Done;
      }
      GatherKeeps(View());
      GatherBatch();
      if batch == [] {
        return Pending;
      }
      if !releasing && !batchFinal && batchBytes < BATCH_BYTES {
        waiting := true;
        if !timerFired {
          return Pending;
        }
      }
      var item := Release();
      return Ready(item);
    }

    /** Dropping the stream tells an unfinished parse to stop, and closes the
        semaphore so that a waiting event is not sent. */
    method Drop()
      modifies this`closed, this`cancelled
      ensures View() == Apply(old(View()), DropStream)
      ensures closed && (cancelled <==> old(cancelled) || !finished)
    {
      if !finished {
        cancelled := true;
      }
      closed := true;
    }
  }
}
