/**
 * The fatal paths of the completion hand-off.  Every `assert!`, `panic!` and
 * failing `unwrap` of the Rust code is a programming error that aborts; the
 * model returns it as `Fatal(reason)` so that the reason can be stated and
 * proved about, instead of being excluded by a precondition.
 */
module Outcomes {

  /** Why a fatal path was taken. */
  datatype Panic =
    | MemberBeforeContainer   // member_offset: the member starts before its container
    | MemberPastContainer     // member_offset: the member ends after its container
    | NotAboveOffset          // container_of_ptr: member address not above the offset
    | Misaligned              // container_of_ptr: recovered address not aligned
    | AlreadyEmbedded         // embed_event_handler: the slot already holds a handler
    | HandlerTaken            // extract_event_handler: the slot is empty (unwrap on None)
    | TypeMismatch            // downcast_event_handler: the handler is of another type
    | AlreadyResolved         // Dispatch: the guard's address was already taken (unwrap on None)
    | Unresolved              // Dispatch dropped before pending() or failed()

  /** The value of a computation that either returns or hits a fatal path. */
  datatype Outcome<+T> = Ok(value: T) | Fatal(panic: Panic)
}
