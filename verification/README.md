# iocp-traits: completion anchor and hand-off guard, modelled in Dafny

The Rust crate hands the operating system's I/O completion port only the
address of a Win32 `OVERLAPPED` record. Later it must get the request object
back from that bare address. This project models the sequential core of that
hand-off and proves what it promises.

- **Container-of arithmetic** (`container_of.rs`, module `OffsetRecovery`).
  `member_offset` computes where a member sits inside its container, from
  placeholder addresses. `container_of_ptr` subtracts that offset from a
  member's address. Both use fatal asserts for the range, underflow and
  alignment checks. Addresses are integers and a type's layout is a `Layout`
  value: size and alignment of the container, size of the member, and where
  the `member()` accessor puts it.
- **Completion anchor** (`EventState`, module `Iocp`). Memory is the class
  `Heap`: a map from each live `EventState`'s address to its value. The
  value is the ownership slot `event_handler`. A handler is a value carrying
  its concrete type's tag (`TypeId`), its payload, and the address of the
  `EventState` it owns. `embed_event_handler` moves a handler into its own
  anchor's slot. `extract_event_handler` recovers the anchor from the
  `OVERLAPPED` address and takes the handler out. `complete` extracts the
  handler and runs its completion. The field `completed` logs completions
  in order; the ghost logs `dispatched` and `released` record embeddings and
  failed dispatches.
- **Hand-off guard** (`Dispatch<T>`, class `Iocp.Dispatch`). It holds
  `Option<address>` and the tag standing for `T`. `pending` and `failed`
  take the address. `failed` also undispatches the handler. Dropping a guard
  whose address is still present is fatal. The pure functions `GuardStep`,
  `GuardDrop` and `GuardLife` describe a guard's life as a sequence of calls.

Every `assert!`, `panic!` and failing `unwrap` becomes `Fatal(reason)` of the
`Outcome` datatype (module `Outcomes`). The methods do not rule these cases
out with a precondition, with one exception: the anchor's layout. The
`Heap` constructor and `AsOverlapped` require `MemberOffset(layout).Ok?`,
which excludes both `member_offset` asserts (src/container_of.rs:23-24) for
`EventState`. That is sound because `EventState::member` returns a real
field of the record (src/iocp.rs:19-23), so its OVERLAPPED record always
lies inside it. Undefined behaviour is different: handing
`extract_event_handler` an address whose recovered anchor is not a live
`EventState` is a caller obligation of the `unsafe fn`, so it is a
precondition (`Heap.ExtractDefined`).

The invariant `Heap.Valid()` has two parts. First, every anchor sits at a
non-null, aligned address, and a handler in a slot is the one that owns
that anchor. Second, each embedding at an anchor is accounted for exactly
once: the handler completed, or was given back by a failed dispatch, or is
still in the slot. Every operation keeps this invariant except the
internal `extract_event_handler` (`Heap.ExtractEventHandler`). It keeps only
the first part, because its callers `undispatch` and `complete` account for
the handler it takes out.

Module `Demo` (`demo.dfy`) replays the sequence of the sample program
`main.rs`. It also completes two handlers in reverse order and misuses a
guard.

## Model

| member | source | states |
|---|---|---|
| OffsetRecovery.MemberOffsetAt | src/container_of.rs:12-27 | the offset is defined iff the member's byte range lies inside the container's; it is then the member's distance from the container start and offset + size_of T <= size_of Self; otherwise the first failing assert is named |
| OffsetRecovery.MemberOffset | src/container_of.rs:11-27 | the offset does not depend on the placeholder address, so every call returns the same value; the member fits inside the container |
| OffsetRecovery.ContainerOfPtr | src/container_of.rs:29-40 | fatal unless the offset is defined, the member address is above it, and the result is aligned; a result is non-null, aligned, and is the container whose member is at the given address |
| OffsetRecovery.ContainerOf | src/container_of.rs:42-54 | container_of and container_of_mut return exactly what container_of_ptr returns, with no further check |
| OffsetRecovery.ContainerOfRoundTrip | src/container_of.rs:30-40 | for every non-null aligned container c, recovering from c's member address gives back c |
| Iocp.NewEventState | src/iocp.rs:26-28 | a new anchor's handler slot is empty |
| Iocp.AsOverlapped | src/iocp.rs:30-33 | the OVERLAPPED address of the anchor at s lies above the offset, and recovering from it gives back s |
| Iocp.FromOverlapped | src/iocp.rs:35-40 | the anchor is found by container_of_mut; a recovered anchor is non-null and its OVERLAPPED record is at the given address |
| Iocp.DowncastEventHandler | src/iocp.rs:65-72 | narrowing succeeds iff the handler's type tag is the requested one; it then returns the same handler, and a mismatch is the type-identity fatal path |
| Iocp.Heap.Lookup | src/iocp.rs:58-63 | what extraction through an address yields: a successful lookup names the handler in the recovered anchor's slot, and that handler owns the anchor |
| Iocp.Heap.constructor | src/iocp.rs:13-17 | an empty memory with the EventState layout satisfies the invariant |
| Iocp.Heap.Allocate | src/iocp.rs:26-28 | a handler's box holding EventState::new() at a fresh aligned address keeps the invariant and changes nothing else |
| Iocp.Heap.EmbedEventHandler | src/iocp.rs:45-53 | fatal, with nothing changed, if the anchor is armed; otherwise stores the handler in its own anchor's slot, records the embedding, and returns that anchor's OVERLAPPED address |
| Iocp.Heap.ExtractEventHandler | src/iocp.rs:58-63 | returns what Lookup yields; on success the recovered anchor's slot is empty afterwards; on a fatal path memory is unchanged |
| Iocp.Heap.Undispatch | src/iocp.rs:92-99 | extracts and narrows the handler without completing it; the original handler comes back, the slot is left empty, and a later extraction through the same address is fatal |
| Iocp.Heap.Complete | src/iocp.rs:102-105 | extracts the handler and appends it to the completion log exactly once; the slot is left empty, so a second completion through the address is the empty-slot fatal path |
| Iocp.Heap.Dispatch | src/iocp.rs:80-87 | embeds the handler and returns a fresh guard holding Some(OVERLAPPED address) and the handler's type tag; fatal with nothing changed if the anchor is armed |
| Iocp.CompletionsBounded | src/iocp.rs:55-63 | at every anchor, completions plus failed dispatches never exceed embeddings, and fall short by one exactly while the anchor is armed |
| Iocp.ArmedIsRecoverable | src/iocp.rs:55-63 | an armed anchor's OVERLAPPED address always leads back to the handler in its slot, so no anchor is stuck armed |
| Iocp.ResolvedGuardLife | src/iocp.rs:138-152 | a guard whose address is already taken survives only an immediate drop; any further call is fatal |
| Iocp.ResolvedExactlyOnce | src/iocp.rs:138-160 | a fresh guard's life is free of the guard's own panics (AlreadyResolved, Unresolved) iff it ends with exactly one resolution (pending or failed) as its last call, after any number of overlapped() calls; what failed() meets at the heap (HandlerTaken, TypeMismatch) is stated by Dispatch.Failed |
| Iocp.Dispatch.constructor | src/iocp.rs:131-136 | a new guard holds Some(address) and the type tag |
| Iocp.Dispatch.Overlapped | src/iocp.rs:150-152 | returns the held address and leaves the guard unchanged; fatal once the address has been taken |
| Iocp.Dispatch.Pending | src/iocp.rs:138-143 | clears the guard and touches no anchor, so the anchor stays armed; fatal when the address was already taken |
| Iocp.Dispatch.Failed | src/iocp.rs:145-148 | clears the guard and undispatches: the original handler comes back narrowed to the guard's tag, the completion log is unchanged, and the slot is emptied |
| Iocp.Dispatch.Drop | src/iocp.rs:155-161 | dropping gives GuardDrop of the held address, the last step of GuardLife: fatal (Unresolved) iff the address is still present |
| Demo.DispatchPending | src/main.rs:80-82 | dispatch then pending leaves the anchor armed with the handler and hands out its OVERLAPPED address; the resolved guard then drops cleanly |
| Demo.DispatchFailing | src/main.rs:91-93 | dispatch then failed gives back the very same handler, completes nothing, leaves every anchor as before, and the guard drops cleanly |
| Demo.Drain | src/main.rs:95-97 | completing a queue of distinct armed anchors runs each handler once, in queue order, and empties every slot |
| Demo.SampleHeap | src/main.rs:50-65 | the four boxed handlers of the sample program, each with an empty anchor |
| Demo.SampleDispatches | src/main.rs:79-88 | the three sample handlers resolved as pending are armed, the queue holds their OVERLAPPED addresses in order, and each guard drops cleanly |
| Demo.SampleRun | src/main.rs:49-98 | the failed handler comes back with bits 1234; the completions fired are "foo", "bar" and bits 22, each once, in queue order; all four guards drop cleanly |
| Demo.ReverseCompletion | src/iocp.rs:102-105 | two pending handlers completed in reverse order of dispatch each fire once with their own payload; completing one again is fatal |
| Demo.GuardMisuse | src/iocp.rs:138-160 | a second resolution after pending is fatal, a resolved guard drops cleanly, and dropping an unresolved guard is fatal |

## Left out

- Real pointers, dereferencing, `transmute` lifetime erasure, `Box` allocation and `Any`/`TypeId` reflection are not modelled. Memory is a map from address to anchor, and a handler's type is a tag.
- Deallocation is not modelled. After `complete` consumes a handler, its `EventState` stays in the map with an empty slot. A second completion through the same address therefore reads as the empty-slot panic; in the crate it would be a use-after-free.
- `usize` wrap-around is not modelled. Addresses and sizes are unbounded integers, so placeholder and container arithmetic never overflows.
- The `member()` accessor is modelled as returning a field at a fixed displacement from the container. An accessor that returns memory outside the container (for example a static) is not captured, and for such an accessor the offset could depend on the placeholder address.
- The contents of the Win32 `OVERLAPPED` record (module `winapi`) are not modelled, because the crate never reads them. Only the record's size and its position inside `EventState` appear, in `Layout`.
- Each handler's own `complete` (variant-specific finalisation, such as printing in the sample program) is modelled only as one append to `Heap.completed`.
- `EventDispatch::dispatch` (src/iocp.rs:178-185) only forwards to `EventState::dispatch`. `Iocp.Heap.Dispatch` models both.
- `Deref` and `DerefMut` for `EventState` (src/iocp.rs:108-120) are plain field access and are not modelled.
- The cross-thread race noted at src/iocp.rs:139-141 and the host event-loop notification hooks (src/iocp.rs:85-86, 98) are not modelled. They concern concurrency and external integration; the model is sequential.
- The sample program's layout (`Demo.StateLayout`: 48 bytes aligned to 8, with a 32-byte record at offset 16) is illustrative. The real field order chosen by the Rust compiler is not known to the model.
- `src/unused.rs` is not part of this model. Nothing in the crate uses it.
- The linear use of a guard is enforced by the Rust compiler through moves. The model replaces it with runtime `unwrap` checks, which is the behaviour the crate's code shows when it is reached.
