/** What the queue holds, in the encoded sizes of its events: never more than its
    capacity, but for one larger event that is there alone; and when a batch goes out. */
module QueueBytes {
  import opened Basics
  import opened Wrappers
  import opened EventQueue

  /** Everything sent or in flight that the client has not been handed. */
  function Waiting(s: System): seq<Item> {
    Items(s.batch) + Items(s.channel) + (if s.held.Some? then [s.held.value.item] else [])
  }

  function HeldAll(items: seq<Item>, capacity: nat): nat {
    if items == [] then 0 else Held(items[0], capacity) + HeldAll(items[1..], capacity)
  }

  /** Encoded bytes of the events among them. */
  function Bytes(items: seq<Item>): nat {
    if items == [] then 0 else (if items[0].Failed? then 0 else items[0].bytes) + Bytes(items[1..])
  }

  // -------------------------------------------------------------------------- prices

  /** Every item gives back what its size holds. */
  predicate AllPriced(q: seq<Queued>, capacity: nat) {
    forall i :: 0 <= i < |q| ==> q[i].cost == Held(q[i].item, capacity)
  }

  predicate Priced(s: System) {
    && s.capacity >= 1 && AllPriced(s.channel, s.capacity) && AllPriced(s.batch, s.capacity)
    && (s.held.Some? ==> s.held.value.cost == Held(s.held.value.item, s.capacity))
  }

  lemma {:induction false} GatherPriced(s: System)
    requires Priced(s)
    ensures Priced(s.Gather())
    decreases |s.channel|
  {
    if !s.batchFinal && s.channel != [] {
      GatherPriced(s.TakeOne());
    }
  }

  lemma ApplyPriced(s: System, step: Step)
    requires Priced(s)
    ensures Priced(Apply(s, step))
  {
    if step.PollNext? {
      GatherPriced(s);
    }
  }

  lemma {:induction false} RunPriced(s: System, steps: seq<Step>)
    requires Priced(s)
    ensures Priced(Run(s, steps))
    decreases |steps|
  {
    if steps != [] {
      ApplyPriced(s, steps[0]);
      RunPriced(Apply(s, steps[0]), steps[1..]);
    }
  }

  lemma {:induction false} HeldAllConcat(a: seq<Item>, b: seq<Item>, capacity: nat)
    ensures HeldAll(a + b, capacity) == HeldAll(a, capacity) + HeldAll(b, capacity)
    decreases |a|
  {
    if a == [] {
      assert a + b == b;
    } else {
      assert (a + b)[1..] == a[1..] + b;
      HeldAllConcat(a[1..], b, capacity);
    }
  }

  lemma {:induction false} CostsAreHeld(q: seq<Queued>, capacity: nat)
    requires AllPriced(q, capacity)
    ensures Costs(q) == HeldAll(Items(q), capacity)
    decreases |q|
  {
    if q != [] {
      CostsAreHeld(q[1..], capacity);
      assert Items(q)[1..] == Items(q[1..]);
    }
  }

  lemma WaitingHolds(s: System)
    requires Priced(s)
    ensures HeldAll(Waiting(s), s.capacity) == Costs(s.batch) + Costs(s.channel) + HeldCost(s)
  {
    var held := if s.held.Some? then [s.held.value.item] else [];
    HeldAllConcat(Items(s.batch) + Items(s.channel), held, s.capacity);
    HeldAllConcat(Items(s.batch), Items(s.channel), s.capacity);
    CostsAreHeld(s.batch, s.capacity);
    CostsAreHeld(s.channel, s.capacity);
    if s.held.Some? {
      assert held[1..] == [];
    }
  }

  // ------------------------------------------------------------------------ the bound

  /** At every moment of every run the free queue bytes and those that the sizes of the
      waiting events hold make up the capacity. */
  lemma SizesAreConserved(capacity: nat, senders: nat, steps: seq<Step>)
    requires capacity >= 1 && !Run(Initial(capacity, senders), steps).closed
    ensures var s := Run(Initial(capacity, senders), steps);
      s.capacity == capacity && s.free + HeldAll(Waiting(s), capacity) == capacity
  {
    var first := Initial(capacity, senders);
    InitialIsSafe(capacity, senders);
    EveryRunIsSafe(first, steps);
    CapacityIsFixed(first, steps);
    RunPriced(first, steps);
    WaitingHolds(Run(first, steps));
  }

  /** The event at k is larger than the queue, and nothing but errors waits beside it. */
  predicate AloneAndLarger(items: seq<Item>, k: nat, capacity: nat) {
    && k < |items| && !items[k].Failed? && items[k].bytes > capacity
    && forall i :: 0 <= i < |items| && i != k ==> items[i].Failed?
  }

  lemma {:induction false} NothingHeld(items: seq<Item>, capacity: nat)
    requires capacity >= 1 && HeldAll(items, capacity) == 0
    ensures forall i :: 0 <= i < |items| ==> items[i].Failed?
    decreases |items|
  {
    if items != [] {
      NothingHeld(items[1..], capacity);
      forall i | 0 <= i < |items| ensures items[i].Failed? {
        assert i > 0 ==> items[i] == items[1..][i - 1];
      }
    }
  }

  /** Items that hold no more than the queue are no larger than it together, or one of
      them is larger than it by itself. */
  lemma {:induction false} FitsOrAlone(items: seq<Item>, capacity: nat, left: nat) returns (k: nat)
    requires 1 <= capacity <= U32_MAX && HeldAll(items, capacity) <= left <= capacity
    ensures Bytes(items) <= left || AloneAndLarger(items, k, capacity)
    decreases |items|
  {
    k := 0;
    if items != [] {
      var rest := items[1..];
      if !items[0].Failed? && items[0].bytes > capacity {
        NothingHeld(rest, capacity);
        assert forall i :: 1 <= i < |items| ==> items[i] == rest[i - 1];
      } else {
        var j := FitsOrAlone(rest, capacity, left - Held(items[0], capacity));
        k := j + 1;
        if Bytes(rest) > left - Held(items[0], capacity) {
          LargerTakesAll(rest, j, capacity);
          forall i | 0 <= i < |items| && i != k ensures items[i].Failed? {
            assert i > 0 ==> items[i] == rest[i - 1];
          }
        }
      }
    }
  }

  lemma {:induction false} LargerTakesAll(items: seq<Item>, k: nat, capacity: nat)
    requires 1 <= capacity <= U32_MAX && AloneAndLarger(items, k, capacity)
    ensures HeldAll(items, capacity) >= capacity
    decreases k
  {
    if k > 0 {
      assert forall i :: 0 <= i < |items[1..]| ==> items[1..][i] == items[i + 1];
      LargerTakesAll(items[1..], k - 1, capacity);
    }
  }

  /** The encoded bytes queued, gathered and in flight never exceed the capacity, except
      by one event larger than the whole queue, which then has it to itself. */
  lemma QueuedBytesAreBounded(capacity: nat, senders: nat, steps: seq<Step>) returns (k: nat)
    requires 1 <= capacity <= U32_MAX && !Run(Initial(capacity, senders), steps).closed
    ensures var s := Run(Initial(capacity, senders), steps);
      Bytes(Waiting(s)) <= capacity || (AloneAndLarger(Waiting(s), k, capacity) && s.free == 0)
  {
    SizesAreConserved(capacity, senders, steps);
    var s := Run(Initial(capacity, senders), steps);
    k := FitsOrAlone(Waiting(s), capacity, capacity);
    if Bytes(Waiting(s)) > capacity {
      LargerTakesAll(Waiting(s), k, capacity);
    }
  }

  /** A wait for queue bytes can be granted exactly when the event's size fits what is
      free. */
  lemma GrantedExactlyWhenItFits(s: System, item: Item)
    requires s.capacity >= 1 && s.senders > 0 && s.held.None? && !s.closed && !item.Failed?
    ensures var t := Apply(s, Acquire(item));
      if s.free >= Held(item, s.capacity)
      then t == s.(free := s.free - Held(item, s.capacity), held := t.held) && t.held.Some? && t.held.value.item == item
      else t == s
  {
  }

  // ---------------------------------------------------------------------- full frames

  /** Before the timer fires a new batch goes out exactly when it is the last of the
      stream or the sizes in it hold at least 256 bytes. */
  lemma SmallBatchesWait(s: System)
    requires Inv(s) && Priced(s) && !s.finished && !s.releasing
    ensures var batch := s.Gather().batch;
      s.Poll(false).1.Ready? <==>
        batch != [] && (s.Gather().batchFinal || HeldAll(Items(batch), s.capacity) >= 256)
  {
    GatherKeeps(s);
    GatherPriced(s);
    GatherCapacity(s);
    CostsAreHeld(s.Gather().batch, s.capacity);
  }

  /** A batch that began to go out goes out whole: until it is empty no poll waits. */
  lemma {:induction false} BatchGoesOutWhole(s: System, fired: bool)
    requires Inv(s) && !s.finished && s.Poll(fired).1.Ready? && s.Poll(fired).0.batch != []
    ensures s.Poll(fired).0.Poll(false).1 == Ready(s.Poll(fired).0.batch[0].item)
  {
    PollKeeps(s, fired);
    var t := s.Poll(fired).0;
    GatherKeeps(t);
  }

  // --------------------------------------------------------------------- cancellation

  /** The parse is told to stop exactly when the stream is dropped unfinished. */
  predicate CancelledRightly(s: System) {
    s.cancelled <==> s.closed && !s.finished
  }

  lemma {:induction false} GatherLeavesEnds(s: System)
    ensures var g := s.Gather(); g.closed == s.closed && g.cancelled == s.cancelled && g.finished == s.finished
    decreases |s.channel|
  {
    if !s.batchFinal && s.channel != [] {
      GatherLeavesEnds(s.TakeOne());
    }
  }

  lemma {:induction false} RunCancels(s: System, steps: seq<Step>)
    requires CancelledRightly(s)
    ensures CancelledRightly(Run(s, steps))
    decreases |steps|
  {
    if steps != [] {
      GatherLeavesEnds(s);
      RunCancels(Apply(s, steps[0]), steps[1..]);
    }
  }

  /** After any run the parse was told to stop if and only if the stream was dropped
      before it had finished. */
  lemma DroppedUnfinishedIsCancelled(capacity: nat, senders: nat, steps: seq<Step>)
    ensures var s := Run(Initial(capacity, senders), steps); s.cancelled <==> s.closed && !s.finished
  {
    RunCancels(Initial(capacity, senders), steps);
  }

  // ------------------------------------------------------------------ how a stream ends

  lemma {:induction false} GatherLeavesSenders(s: System)
    ensures s.Gather().senders == s.senders && s.Gather().sent == s.sent && s.Gather().yielded == s.yielded
    decreases |s.channel|
  {
    if !s.batchFinal && s.channel != [] {
      GatherLeavesSenders(s.TakeOne());
    }
  }

  lemma {:induction false} PollsLeaveSenders(s: System, n: nat)
    ensures PollMany(s, n).senders == s.senders && PollMany(s, n).sent == s.sent
    decreases n
  {
    if n > 0 {
      GatherLeavesSenders(s);
      PollsLeaveSenders(s.Poll(true).0, n - 1);
    }
  }

  predicate OnlyEvents(items: seq<Item>) {
    forall i :: 0 <= i < |items| ==> items[i].Event?
  }

  /** All that was sent before has been handed over, and then the item that ends it. */
  lemma LastGetsThrough(s: System, before: seq<Item>, last: Item, n: nat)
    requires Inv(s) && !s.closed && s.sent == before + [last] && OnlyEvents(before) && !last.Event?
    requires s.senders > 0 && n >= Backlog(s)
    ensures PollMany(s, n).finished && PollMany(s, n).yielded == before + [last]
  {
    hide PollMany, Backlog;
    ReadingDrains(s, n);
    PollsLeaveSenders(s, n);
    AllHandedOver(PollMany(s, n), before, last);
  }

  lemma AllHandedOver(t: System, before: seq<Item>, last: Item)
    requires Inv(t) && t.sent == before + [last] && OnlyEvents(before) && !last.Event? && t.senders > 0
    requires t.finished || (t.channel == [] && t.batch == [])
    ensures t.finished && t.yielded == before + [last]
  {
    assert t.sent[|before|] == last;
    assert t.batch == [] ==> t.yielded + Items(t.batch) == t.yielded;
    var k := |t.yielded| - 1;
    assert 0 <= k < |t.sent| && t.sent == t.yielded + Items(t.channel) ==> t.sent[k] == t.yielded[k];
  }

  /** An error sent while the stream is open reaches a client that keeps reading, after
      all that was sent before it, and ends the stream; it waits for no queue bytes. */
  lemma ErrorGetsThrough(s: System, status: Status, n: nat)
    requires Inv(s) && !s.closed && s.senders > 0 && OnlyEvents(s.sent)
    requires n >= Backlog(Apply(s, Fail(status)))
    ensures var t := PollMany(Apply(s, Fail(status)), n); t.finished && t.yielded == s.sent + [Failed(status)]
  {
    ApplySafe(s, Fail(status));
    LastGetsThrough(Apply(s, Fail(status)), s.sent, Failed(status), n);
  }

  /** So does a trailer that got its queue bytes. */
  lemma TrailerGetsThrough(s: System, n: nat)
    requires Inv(s) && !s.closed && s.held.Some? && s.held.value.item.Trailer? && OnlyEvents(s.sent)
    requires n >= Backlog(Apply(s, Push))
    ensures var t := PollMany(Apply(s, Push), n); t.finished && t.yielded == s.sent + [s.held.value.item]
  {
    ApplySafe(s, Push);
    LastGetsThrough(Apply(s, Push), s.sent, s.held.value.item, n);
  }

  /** When the last sender goes away without either, the client is handed all that was
      sent and then an internal error. */
  lemma SilenceIsAnError(s: System, n: nat)
    requires Inv(s) && !s.closed && s.senders == 1 && s.held.None? && OnlyEvents(s.sent)
    requires n >= Backlog(Apply(s, DropSender))
    ensures var t := PollMany(Apply(s, DropSender), n); t.finished && t.yielded == s.sent + [Failed(Internal)]
  {
    var d := Apply(s, DropSender);
    ApplySafe(s, DropSender);
    ReadingDrains(d, n);
    PollsLeaveSenders(d, n);
    SilenceHandedOver(PollMany(d, n));
  }

  lemma SilenceHandedOver(t: System)
    requires Inv(t) && t.finished && OnlyEvents(t.sent)
    ensures t.yielded == t.sent + [Failed(Internal)]
  {
    assert t.yielded + Items(t.batch) == t.yielded;
    var k := |t.yielded| - 1;
    assert t.sent == t.yielded + Items(t.channel) ==> t.sent[k] == t.yielded[k];
  }
}
