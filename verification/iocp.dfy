/**
 * The completion anchor (`EventState`) and the hand-off guard (`Dispatch`).
 *
 * Memory is a map from the address of each live `EventState` to its value.
 * A handler is a value carrying the tag of its concrete type, its payload and
 * the address of the `EventState` it owns.  Embedding a handler moves it into
 * the slot of its own anchor; the only thing handed out is the address of the
 * anchor's OVERLAPPED record, from which the anchor is recovered by the
 * container-of arithmetic.
 */
module Iocp {
  import opened Outcomes
  import opened OffsetRecovery

  type Addr = nat

  /** The runtime type identity (`TypeId`) of a concrete handler type. */
  type TypeTag = nat

  /** The state a concrete handler keeps for its operation. */
  datatype Payload = Text(text: string) | Bits(bits: nat)

  /** A boxed handler: its concrete type, its state, and where its `EventState` lives. */
  datatype Handler = Handler(tag: TypeTag, payload: Payload, state: Addr)

  /** An `EventState`: the ownership slot; the OVERLAPPED record's contents are not modelled. */
  datatype EventState = EventState(eventHandler: Option<Handler>)

  datatype Option<+T> = None | Some(value: T)

  /** `EventState::new()`: an anchor with an empty slot. */
  function NewEventState(): (s: EventState)
    ensures s.eventHandler == None
  {
    EventState(None)
  }

  /**
   * `as_overlapped`: the address of the OVERLAPPED record of the anchor at
   * `s`.  Recovering from it gives back `s`.
   */
  function AsOverlapped(l: Layout, s: Addr): (ov: Addr)
    requires MemberOffset(l).Ok?
    requires s > 0 && s % l.containerAlign == 0
    ensures ov > MemberOffset(l).value
    ensures FromOverlapped(l, ov) == Ok(s)
  {
    ContainerOfRoundTrip(l, s);
    MemberAddr(l, s)
  }

  /**
   * `from_overlapped`: the anchor whose OVERLAPPED record is at `ov`, by the
   * container-of arithmetic; when it succeeds, that anchor's record is `ov`.
   */
  function FromOverlapped(l: Layout, ov: Addr): (r: Outcome<Addr>)
    ensures r == ContainerOf(l, ov)
    ensures r.Ok? ==> r.value > 0 && MemberAddr(l, r.value) == ov
  {
    ContainerOf(l, ov)
  }

  /**
   * `downcast_event_handler`: narrowing the handler to the concrete type
   * `t`.  Fatal unless the handler's type is `t`; otherwise the handler
   * itself, unchanged.
   */
  function DowncastEventHandler(h: Handler, t: TypeTag): (r: Outcome<Handler>)
    ensures r.Ok? <==> h.tag == t
    ensures r.Ok? ==> r.value == h
    ensures r.Fatal? ==> r.panic == TypeMismatch
  {
    if h.tag == t then Ok(h) else Fatal(TypeMismatch)
  }

  /** The number of handlers in `s` whose anchor is at `a`. */
  function Count(s: seq<Handler>, a: Addr): nat
  {
    if s == [] then 0 else (if s[0].state == a then 1 else 0) + Count(s[1..], a)
  }

  /** Appending one handler adds one to its own anchor's count and nothing elsewhere. */
  lemma {:induction false} CountAppend(s: seq<Handler>, h: Handler, a: Addr)
    ensures Count(s + [h], a) == Count(s, a) + (if h.state == a then 1 else 0)
  {
    if s == [] {
      assert [] + [h] == [h];
    } else {
      assert (s + [h])[1..] == s[1..] + [h];
      CountAppend(s[1..], h, a);
    }
  }

  /**
   * Every live `EventState` together with the record of what its handlers
   * went through.
   */
  class Heap {
    /** The layout of `EventState` around its OVERLAPPED member. */
    const layout: Layout
    /** The live anchors, by address. */
    var states: map<Addr, EventState>
    /** The handlers whose `complete` has run, in the order it ran. */
    var completed: seq<Handler>
    /** Every handler ever embedded, in order. */
    ghost var dispatched: seq<Handler>
    /** Every handler taken back out by a failed dispatch, in order. */
    ghost var released: seq<Handler>

    /** The anchor at `a` holds a handler. */
    ghost predicate Armed(a: Addr)
      reads this
    {
      a in states && states[a].eventHandler.Some?
    }

    /**
     * The layout admits the offset, every anchor sits at a non-null aligned
     * address, and a handler in a slot is always the one owning that anchor.
     */
    ghost predicate Wf()
      reads this
    {
      && MemberOffset(layout).Ok?
      && (forall a :: a in states ==> a > 0 && a % layout.containerAlign == 0)
      && (forall a :: a in states && states[a].eventHandler.Some? ==> states[a].eventHandler.value.state == a)
    }

    /**
     * Each embedding at an anchor is accounted for exactly once: its handler
     * has completed, or has been given back by a failed dispatch, or is
     * still in the slot.
     */
    ghost predicate Balanced()
      reads this
    {
      forall a :: Count(dispatched, a) == Count(completed, a) + Count(released, a) + (if Armed(a) then 1 else 0)
    }

    ghost predicate Valid()
      reads this
    {
      Wf() && Balanced()
    }

    /** Extraction through `ov` reaches memory only at a live anchor (otherwise it is undefined behaviour). */
    ghost predicate ExtractDefined(ov: Addr)
      reads this
    {
      FromOverlapped(layout, ov).Ok? ==> FromOverlapped(layout, ov).value in states
    }

    /** What extracting through `ov` yields: a fatal path, or the handler in the slot. */
    ghost function Lookup(ov: Addr): (r: Outcome<Handler>)
      reads this
      requires Wf() && ExtractDefined(ov)
      ensures r.Ok? ==> FromOverlapped(layout, ov) == Ok(r.value.state) && Armed(r.value.state)
      ensures r.Ok? ==> states[r.value.state].eventHandler == Some(r.value)
    {
      match FromOverlapped(layout, ov)
      case Fatal(p) => Fatal(p)
      case Ok(a) =>
        match states[a].eventHandler
        case None => Fatal(HandlerTaken)
        case Some(h) => Ok(h)
    }

    constructor (layout: Layout)
      requires MemberOffset(layout).Ok?
      ensures Valid() && this.layout == layout
      ensures states == map[] && completed == [] && dispatched == [] && released == []
    {
      this.layout := layout;
      states := map[];
      completed := [];
      dispatched := [];
      released := [];
    }

    /** A handler's box is allocated, holding `EventState::new()` at address `a`. */
    method Allocate(a: Addr)
      requires Valid()
      requires a > 0 && a % layout.containerAlign == 0 && a !in states
      modifies this
      ensures Valid()
      ensures states == old(states)[a := NewEventState()]
      ensures completed == old(completed) && dispatched == old(dispatched) && released == old(released)
    {
      states := states[a := NewEventState()];
    }

    /**
     * `embed_event_handler`: fatal if the handler's anchor already holds a
     * handler; otherwise moves the handler into it and returns the anchor's
     * OVERLAPPED address.
     */
    method EmbedEventHandler(h: Handler) returns (r: Outcome<Addr>)
      requires Valid() && h.state in states
      modifies this
      ensures Valid()
      ensures old(Armed(h.state)) ==> r == Fatal(AlreadyEmbedded) && states == old(states) && dispatched == old(dispatched)
      ensures !old(Armed(h.state)) ==>
                && r == Ok(AsOverlapped(layout, h.state))
                && states == old(states)[h.state := EventState(Some(h))]
                && dispatched == old(dispatched) + [h]
      ensures completed == old(completed) && released == old(released)
    {
      if states[h.state].eventHandler.Some? {
        return Fatal(AlreadyEmbedded);
      }
      forall a ensures Count(dispatched + [h], a) == Count(dispatched, a) + (if h.state == a then 1 else 0) {
        CountAppend(dispatched, h, a);
      }
      states := states[h.state := EventState(Some(h))];
      dispatched := dispatched + [h];
      r := Ok(AsOverlapped(layout, h.state));
    }

    /**
     * `extract_event_handler`: recovers the anchor from `ov` and takes the
     * handler out of its slot, leaving it empty; fatal when the recovery
     * fails or the slot is already empty.  The caller accounts for the
     * handler, so only `Wf` is kept here.
     */
    method ExtractEventHandler(ov: Addr) returns (r: Outcome<Handler>)
      requires Wf() && ExtractDefined(ov)
      modifies this`states
      ensures Wf()
      ensures r == old(Lookup(ov))
      ensures states == if r.Ok? then old(states)[r.value.state := NewEventState()] else old(states)
    {
      var container := FromOverlapped(layout, ov);
      if container.Fatal? {
        return Fatal(container.panic);
      }
      var a := container.value;
      var slot := states[a].eventHandler;
      if slot.None? {
        return Fatal(HandlerTaken);
      }
      states := states[a := EventState(None)];
      r := Ok(slot.value);
    }

    /**
     * `undispatch`: extracts the handler and narrows it to the type `t`.
     * The handler is never completed: it goes back to the caller unchanged,
     * and the slot is left empty, so a later extraction through `ov` is fatal.
     */
    method Undispatch(ov: Addr, t: TypeTag) returns (r: Outcome<Handler>)
      requires Valid() && ExtractDefined(ov)
      modifies this
      ensures Valid()
      ensures var got := old(Lookup(ov));
              && r == (if got.Fatal? then got else DowncastEventHandler(got.value, t))
              && states == (if got.Ok? then old(states)[got.value.state := NewEventState()] else old(states))
              && released == (if got.Ok? then old(released) + [got.value] else old(released))
      ensures old(Lookup(ov)).Ok? ==> ExtractDefined(ov) && Lookup(ov) == Fatal(HandlerTaken)
      ensures completed == old(completed) && dispatched == old(dispatched)
    {
      var got := ExtractEventHandler(ov);
      if got.Fatal? {
        return got;
      }
      var h := got.value;
      forall a ensures Count(released + [h], a) == Count(released, a) + (if h.state == a then 1 else 0) {
        CountAppend(released, h, a);
      }
      released := released + [h];
      r := DowncastEventHandler(h, t);
    }

    /**
     * `EventState::complete`: extracts the handler and runs its `complete`
     * once, which appends it to `completed`.  The slot is left empty, so a
     * second completion through `ov` is fatal.
     */
    method Complete(ov: Addr) returns (r: Outcome<()>)
      requires Valid() && ExtractDefined(ov)
      modifies this
      ensures Valid()
      ensures var got := old(Lookup(ov));
              && (r.Ok? <==> got.Ok?)
              && (r.Fatal? ==> r.panic == got.panic)
              && completed == (if got.Ok? then old(completed) + [got.value] else old(completed))
              && states == (if got.Ok? then old(states)[got.value.state := NewEventState()] else old(states))
      ensures old(Lookup(ov)).Ok? ==> ExtractDefined(ov) && Lookup(ov) == Fatal(HandlerTaken)
      ensures dispatched == old(dispatched) && released == old(released)
    {
      var got := ExtractEventHandler(ov);
      if got.Fatal? {
        return Fatal(got.panic);
      }
      var h := got.value;
      forall a ensures Count(completed + [h], a) == Count(completed, a) + (if h.state == a then 1 else 0) {
        CountAppend(completed, h, a);
      }
      completed := completed + [h];
      r := Ok(());
    }

    /**
     * `EventState::dispatch` (and the `EventDispatch::dispatch` sugar):
     * embeds the handler and wraps the OVERLAPPED address in a fresh guard
     * tagged with the handler's concrete type.
     */
    method Dispatch(h: Handler) returns (r: Outcome<Dispatch>)
      requires Valid() && h.state in states
      modifies this
      ensures Valid()
      ensures old(Armed(h.state)) ==> r == Fatal(AlreadyEmbedded) && states == old(states) && dispatched == old(dispatched)
      ensures !old(Armed(h.state)) ==>
                && r.Ok? && fresh(r.value)
                && r.value.overlapped == Some(AsOverlapped(layout, h.state)) && r.value.tag == h.tag
                && states == old(states)[h.state := EventState(Some(h))]
                && dispatched == old(dispatched) + [h]
      ensures completed == old(completed) && released == old(released)
    {
      var ov := EmbedEventHandler(h);
      if ov.Fatal? {
        return Fatal(ov.panic);
      }
      var d := new Dispatch(ov.value, h.tag);
      r := Ok(d);
    }
  }

  /**
   * Completion logic fires at most once per dispatch: at every anchor, the
   * handlers completed and those given back by failed dispatches together
   * never outnumber the embeddings, and fall short by one while it is armed.
   */
  lemma CompletionsBounded(heap: Heap, a: Addr)
    requires heap.Valid()
    ensures Count(heap.completed, a) + Count(heap.released, a) <= Count(heap.dispatched, a)
    ensures heap.Armed(a) <==> Count(heap.completed, a) + Count(heap.released, a) < Count(heap.dispatched, a)
  {
  }

  /**
   * No anchor stays armed without a way out: the address of an armed
   * anchor's OVERLAPPED record leads back to the handler in its slot.
   */
  lemma ArmedIsRecoverable(heap: Heap, a: Addr)
    requires heap.Valid() && heap.Armed(a)
    ensures heap.ExtractDefined(AsOverlapped(heap.layout, a))
    ensures heap.Lookup(AsOverlapped(heap.layout, a)) == Ok(heap.states[a].eventHandler.value)
  {
  }

  /** What may be done with a guard before it is dropped. */
  datatype GuardCall = OverlappedCall | PendingCall | FailedCall

  /**
   * One call on a guard holding `g`: the guard's new contents, or the panic
   * of `unwrap` on an address that was already taken.
   */
  function GuardStep(g: Option<Addr>, c: GuardCall): Outcome<Option<Addr>>
  {
    if g.None? then Fatal(AlreadyResolved)
    else if c == OverlappedCall then Ok(g)
    else Ok(None)
  }

  /** Dropping a guard holding `g`. */
  function GuardDrop(g: Option<Addr>): Outcome<()>
  {
    if g.Some? then Fatal(Unresolved) else Ok(())
  }

  /** The calls `calls` on a guard holding `g`, followed by its drop. */
  function GuardLife(g: Option<Addr>, calls: seq<GuardCall>): Outcome<()>
    decreases calls
  {
    if calls == [] then GuardDrop(g)
    else
      match GuardStep(g, calls[0])
      case Fatal(p) => Fatal(p)
      case Ok(g') => GuardLife(g', calls[1..])
  }

  /** A resolved guard survives only its drop. */
  lemma {:induction false} ResolvedGuardLife(calls: seq<GuardCall>)
    ensures GuardLife(None, calls).Ok? <==> calls == []
  {
  }

  /**
   * A guard fresh from dispatch gets through its life without a fatal path
   * exactly when it is resolved once, by `pending` or `failed`, as its last
   * call, after any number of `overlapped` calls.
   */
  lemma {:induction false} ResolvedExactlyOnce(ov: Addr, calls: seq<GuardCall>)
    ensures GuardLife(Some(ov), calls).Ok? <==>
              && |calls| > 0
              && calls[|calls| - 1] != OverlappedCall
              && forall j :: 0 <= j < |calls| - 1 ==> calls[j] == OverlappedCall
  {
    if calls != [] {
      if calls[0] == OverlappedCall {
        ResolvedExactlyOnce(ov, calls[1..]);
        assert forall j :: 1 <= j < |calls| ==> calls[j] == calls[1..][j - 1];
      } else {
        ResolvedGuardLife(calls[1..]);
      }
    }
  }

  /**
   * `Dispatch<T>`: the guard returned by dispatch.  `tag` stands for the
   * phantom type `T`, the concrete type the handler is narrowed back to.
   */
  class Dispatch {
    var overlapped: Option<Addr>
    const tag: TypeTag

    /** `Dispatch::new`: a guard holding the address. */
    constructor (ov: Addr, tag: TypeTag)
      ensures overlapped == Some(ov) && this.tag == tag
    {
      overlapped := Some(ov);
      this.tag := tag;
    }

    /** `overlapped()`: the address, leaving the guard as it is; fatal once it has been taken. */
    function Overlapped(): (r: Outcome<Addr>)
      reads this
      ensures r.Ok? <==> GuardStep(overlapped, OverlappedCall) == Ok(overlapped)
      ensures r.Ok? ==> overlapped == Some(r.value)
      ensures r.Fatal? ==> r.panic == AlreadyResolved
    {
      match overlapped
      case None => Fatal(AlreadyResolved)
      case Some(ov) => Ok(ov)
    }

    /** `pending()`: drops the address without touching the anchor, which stays armed. */
    method Pending() returns (r: Outcome<()>)
      modifies this
      ensures overlapped == None
      ensures r.Ok? <==> GuardStep(old(overlapped), PendingCall) == Ok(overlapped)
      ensures r.Fatal? ==> r.panic == AlreadyResolved
    {
      var taken := overlapped;
      overlapped := None;
      if taken.None? {
        return Fatal(AlreadyResolved);
      }
      r := Ok(());
    }

    /**
     * `failed()`: takes the address and undispatches it, giving back the
     * original handler narrowed to `tag`, without completing it.
     */
    method Failed(heap: Heap) returns (r: Outcome<Handler>)
      requires heap.Valid()
      requires overlapped.Some? ==> heap.ExtractDefined(overlapped.value)
      modifies this, heap
      ensures overlapped == None
      ensures heap.Valid()
      ensures heap.completed == old(heap.completed) && heap.dispatched == old(heap.dispatched)
      ensures old(overlapped).None? ==>
                && r == Fatal(AlreadyResolved)
                && heap.states == old(heap.states) && heap.released == old(heap.released)
      ensures old(overlapped).Some? ==>
                var got := old(heap.Lookup(overlapped.value));
                && r == (if got.Fatal? then got else DowncastEventHandler(got.value, tag))
                && heap.states == (if got.Ok? then old(heap.states)[got.value.state := NewEventState()] else old(heap.states))
                && heap.released == (if got.Ok? then old(heap.released) + [got.value] else old(heap.released))
    {
      var taken := overlapped;
      overlapped := None;
      if taken.None? {
        return Fatal(AlreadyResolved);
      }
      r := heap.Undispatch(taken.value, tag);
    }

    /** `drop`: fatal while the address has not been taken by `pending` or `failed`. */
    method Drop() returns (r: Outcome<()>)
      ensures r == GuardDrop(overlapped)
    {
      if overlapped.Some? {
        return Fatal(Unresolved);
      }
      r := Ok(());
    }
  }
}
