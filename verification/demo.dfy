/**
 * Client scenarios: what a caller of the completion hand-off can rely on from
 * the contracts alone.  The first replays the sample program's sequence; the
 * others complete out of order and misuse a guard.
 */
module Demo {
  import opened Outcomes
  import opened OffsetRecovery
  import opened Iocp

  /** Type identities of the two sample handler kinds. */
  const PipeReadTag: TypeTag := 1
  const AfdPollTag: TypeTag := 2

  /**
   * An illustrative `EventState` layout: 48 bytes aligned to 8, with a
   * 32-byte OVERLAPPED record 16 bytes in.
   */
  const StateLayout: Layout := Layout(48, 8, 32, 16)

  /** The three handlers of the sample program that are resolved as pending. */
  const PendingHandlers: seq<Handler> :=
    [Handler(PipeReadTag, Text("foo"), 0x1000),
     Handler(PipeReadTag, Text("bar"), 0x2000),
     Handler(AfdPollTag, Bits(22), 0x3000)]

  /** The handler of the sample program whose dispatch fails. */
  const FailingHandler: Handler := Handler(AfdPollTag, Bits(1234), 0x4000)

  /**
   * Dispatching a handler whose anchor is empty and resolving the guard as
   * pending: the anchor stays armed with the handler, and the address handed
   * to the operating system is its OVERLAPPED record.  The resolved guard
   * then drops cleanly.
   */
  method DispatchPending(heap: Heap, h: Handler) returns (ov: Addr, dropped: Outcome<()>)
    requires heap.Valid() && h.state in heap.states && !heap.Armed(h.state)
    modifies heap
    ensures heap.Valid()
    ensures ov == AsOverlapped(heap.layout, h.state)
    ensures heap.states == old(heap.states)[h.state := EventState(Some(h))]
    ensures heap.completed == old(heap.completed)
    ensures dropped == Ok(())
  {
    var d := heap.Dispatch(h);
    var address := d.value.Overlapped();
    var done := d.value.Pending();
    dropped := d.value.Drop();
    ov := address.value;
  }

  /**
   * Draining a completion queue: each queued address belongs to a distinct
   * armed anchor, and completing them in queue order runs each handler's
   * completion once, in that order, emptying every slot.
   */
  method Drain(heap: Heap, queue: seq<Addr>, handlers: seq<Handler>)
    requires heap.Valid() && |queue| == |handlers|
    requires forall j :: 0 <= j < |queue| ==> FromOverlapped(heap.layout, queue[j]) == Ok(handlers[j].state)
    requires forall j :: 0 <= j < |queue| ==> handlers[j].state in heap.states
    requires forall j :: 0 <= j < |queue| ==> heap.states[handlers[j].state].eventHandler == Some(handlers[j])
    requires forall j, k :: 0 <= j < k < |queue| ==> handlers[j].state != handlers[k].state
    modifies heap
    ensures heap.Valid()
    ensures heap.completed == old(heap.completed) + handlers
    ensures forall j :: 0 <= j < |queue| ==> handlers[j].state in heap.states && heap.states[handlers[j].state].eventHandler == None
  {
    var i := 0;
    while i < |queue|
      invariant 0 <= i <= |queue|
      invariant heap.Valid()
      invariant heap.completed == old(heap.completed) + handlers[..i]
      invariant forall j :: 0 <= j < |queue| ==> handlers[j].state in heap.states
      invariant forall j :: 0 <= j < i ==> heap.states[handlers[j].state].eventHandler == None
      invariant forall j :: i <= j < |queue| ==> heap.states[handlers[j].state].eventHandler == Some(handlers[j])
    {
      var done := heap.Complete(queue[i]);
      i := i + 1;
    }
    assert handlers[..i] == handlers;
  }

  /**
   * Dispatching a handler whose anchor is empty and resolving the guard as
   * failed: the very same handler comes back, nothing is completed, and the
   * anchors are as they were before the dispatch.
   */
  method DispatchFailing(heap: Heap, h: Handler) returns (event: Outcome<Handler>, dropped: Outcome<()>)
    requires heap.Valid() && h.state in heap.states && !heap.Armed(h.state)
    modifies heap
    ensures heap.Valid()
    ensures event == Ok(h) && dropped == Ok(())
    ensures heap.states == old(heap.states)
    ensures heap.completed == old(heap.completed)
  {
    var d := heap.Dispatch(h);
    event := d.value.Failed(heap);
    dropped := d.value.Drop();
    assert heap.states[h.state := NewEventState()] == heap.states;
  }

  /** The four boxed handlers of the sample program, each with an empty anchor. */
  method SampleHeap() returns (heap: Heap)
    ensures fresh(heap) && heap.Valid() && heap.layout == StateLayout && heap.completed == []
    ensures heap.states == map[0x1000 := NewEventState(), 0x2000 := NewEventState(),
                               0x3000 := NewEventState(), 0x4000 := NewEventState()]
  {
    heap := new Heap(StateLayout);
    heap.Allocate(0x1000);
    heap.Allocate(0x2000);
    heap.Allocate(0x3000);
    heap.Allocate(0x4000);
  }

  /**
   * The first part of the sample program: the pending handlers are
   * dispatched and resolved as pending, and their addresses queued as a
   * fake completion port would; each guard drops cleanly.
   */
  method SampleDispatches(heap: Heap) returns (queue: seq<Addr>, drops: seq<Outcome<()>>)
    requires heap.Valid() && heap.layout == StateLayout
    requires heap.states == map[0x1000 := NewEventState(), 0x2000 := NewEventState(),
                                0x3000 := NewEventState(), 0x4000 := NewEventState()]
    modifies heap
    ensures heap.Valid() && heap.completed == old(heap.completed)
    ensures FailingHandler.state in heap.states && !heap.Armed(FailingHandler.state)
    ensures |queue| == |PendingHandlers| && drops == [Ok(()), Ok(()), Ok(())]
    ensures forall j :: 0 <= j < |queue| ==> FromOverlapped(heap.layout, queue[j]) == Ok(PendingHandlers[j].state)
    ensures forall j :: 0 <= j < |queue| ==> PendingHandlers[j].state in heap.states
    ensures forall j :: 0 <= j < |queue| ==> heap.states[PendingHandlers[j].state].eventHandler == Some(PendingHandlers[j])
  {
    var h1, h2, h3 := PendingHandlers[0], PendingHandlers[1], PendingHandlers[2];
    var ov1, drop1 := DispatchPending(heap, h1);
    var ov2, drop2 := DispatchPending(heap, h2);
    var ov3, drop3 := DispatchPending(heap, h3);
    queue := [ov1, ov2, ov3];
    drops := [drop1, drop2, drop3];
    assert heap.states[h1.state].eventHandler == Some(h1);
    assert heap.states[h2.state].eventHandler == Some(h2);
  }

  /**
   * The sample program: after the dispatches, the queue is drained, which
   * completes each pending handler once, in queue order, while the failed
   * one is back with its caller, never completed.  Every guard is resolved
   * once and drops cleanly.
   */
  method SampleRun() returns (event: Outcome<Handler>, fired: seq<Handler>, drops: seq<Outcome<()>>)
    ensures event == Ok(Handler(AfdPollTag, Bits(1234), 0x4000))
    ensures drops == [Ok(()), Ok(()), Ok(()), Ok(())]
    ensures fired == [Handler(PipeReadTag, Text("foo"), 0x1000),
                      Handler(PipeReadTag, Text("bar"), 0x2000),
                      Handler(AfdPollTag, Bits(22), 0x3000)]
  {
    var heap := SampleHeap();
    var queue, pendingDrops := SampleDispatches(heap);
    var failedDrop;
    event, failedDrop := DispatchFailing(heap, FailingHandler);
    drops := pendingDrops + [failedDrop];
    Drain(heap, queue, PendingHandlers);
    fired := heap.completed;
  }

  /**
   * Two handlers on distinct empty anchors, resolved as pending and
   * completed in the reverse order of dispatch: each fires once, with its
   * own payload, and completing the first one again is fatal.
   */
  method ReverseCompletion(heap: Heap, foo: Handler, bar: Handler) returns (again: Outcome<()>)
    requires heap.Valid()
    requires foo.state in heap.states && !heap.Armed(foo.state)
    requires bar.state in heap.states && !heap.Armed(bar.state)
    requires foo.state != bar.state
    modifies heap
    ensures heap.Valid()
    ensures heap.completed == old(heap.completed) + [bar, foo]
    ensures again == Fatal(HandlerTaken)
  {
    var ov1, _ := DispatchPending(heap, foo);
    var ov2, _ := DispatchPending(heap, bar);
    var done := heap.Complete(ov2);
    done := heap.Complete(ov1);
    again := heap.Complete(ov1);
  }

  /**
   * Misusing a guard: a second resolution after `pending` is fatal, and so
   * is dropping a guard that was never resolved; a resolved guard drops
   * cleanly.
   */
  method GuardMisuse() returns (second: Outcome<()>, resolvedDrop: Outcome<()>, unresolvedDrop: Outcome<()>)
    ensures second == Fatal(AlreadyResolved)
    ensures resolvedDrop == Ok(())
    ensures unresolvedDrop == Fatal(Unresolved)
  {
    var heap := new Heap(StateLayout);
    heap.Allocate(0x1000);
    heap.Allocate(0x2000);
    var d1 := heap.Dispatch(Handler(AfdPollTag, Bits(7), 0x1000));
    var first := d1.value.Pending();
    second := d1.value.Pending();
    resolvedDrop := d1.value.Drop();
    var d2 := heap.Dispatch(Handler(AfdPollTag, Bits(8), 0x2000));
    unresolvedDrop := d2.value.Drop();
  }
}
