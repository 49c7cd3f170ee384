/**
 * The container-of capability: the byte offset of a member inside its
 * container type, and the recovery of a container's address from the address
 * of its member.  Addresses are integers; memory is never read.
 */
module OffsetRecovery {
  import opened Outcomes

  /** A strictly positive number: what `align_of` returns. */
  type Pos = n: nat | n > 0 witness 1

  /**
   * What the arithmetic knows about a container type `Self` and its member
   * type `T`: `size_of::<Self>()`, `align_of::<Self>()`, `size_of::<T>()`,
   * and where the `member()` accessor places the member relative to the
   * address of the container it is given.
   */
  datatype Layout = Layout(
    containerSize: nat,
    containerAlign: Pos,
    memberSize: nat,
    memberDisplacement: int)

  /** The address `member()` returns for a container at address `c`. */
  function MemberAddr(l: Layout, c: int): int
  {
    c + l.memberDisplacement
  }

  /** The placeholder `NonNull::<Self>::dangling()`: the type's alignment. */
  function Dangling(l: Layout): nat
  {
    l.containerAlign
  }

  /**
   * `member_offset` computed from a placeholder container at address `base`:
   * the member's range must lie inside the container's range, and the offset
   * is the distance between their start addresses.
   */
  function MemberOffsetAt(l: Layout, base: int): (r: Outcome<nat>)
    ensures r.Ok? <==> 0 <= l.memberDisplacement && l.memberDisplacement + l.memberSize <= l.containerSize
    ensures r.Ok? ==> MemberAddr(l, base) == base + r.value
    ensures r.Ok? ==> r.value + l.memberSize <= l.containerSize
    ensures r.Fatal? ==> r.panic == if l.memberDisplacement < 0 then MemberBeforeContainer else MemberPastContainer
  {
    var containerStart := base;
    var containerEnd := containerStart + l.containerSize;
    var memberStart := MemberAddr(l, base);
    var memberEnd := memberStart + l.memberSize;
    if !(containerStart <= memberStart) then Fatal(MemberBeforeContainer)
    else if !(containerEnd >= memberEnd) then Fatal(MemberPastContainer)
    else Ok(memberStart - containerStart)
  }

  /**
   * `member_offset`: the offset of the member inside the container.  It is
   * the same whichever placeholder address it is computed from, so every
   * call returns the same value, and the member fits inside the container.
   */
  function MemberOffset(l: Layout): (r: Outcome<nat>)
    ensures forall base :: MemberOffsetAt(l, base) == r
    ensures r.Ok? ==> r.value + l.memberSize <= l.containerSize
    ensures r.Ok? ==> forall c :: MemberAddr(l, c) == c + r.value
  {
    MemberOffsetAt(l, Dangling(l))
  }

  /**
   * `container_of_ptr`: the address of the container whose member lives at
   * `member`.  Fatal unless the offset is defined, `member` lies above the
   * offset and the result is aligned for the container type.  A result is
   * never null, is aligned, and is the container whose member is `member`.
   */
  function ContainerOfPtr(l: Layout, member: nat): (r: Outcome<nat>)
    ensures MemberOffset(l).Fatal? ==> r == Fatal(MemberOffset(l).panic)
    ensures MemberOffset(l).Ok? && member <= MemberOffset(l).value ==> r == Fatal(NotAboveOffset)
    ensures r.Ok? <==> MemberOffset(l).Ok? && member > MemberOffset(l).value
                       && (member - MemberOffset(l).value) % l.containerAlign == 0
    ensures r.Ok? ==> r.value > 0 && r.value % l.containerAlign == 0 && MemberAddr(l, r.value) == member
    ensures r.Fatal? && MemberOffset(l).Ok? && member > MemberOffset(l).value ==> r.panic == Misaligned
  {
    match MemberOffset(l)
    case Fatal(p) => Fatal(p)
    case Ok(offset) =>
      if !(member > offset) then Fatal(NotAboveOffset)
      else
        var container := member - offset;
        if container % l.containerAlign != 0 then Fatal(Misaligned)
        else Ok(container)
  }

  /**
   * `container_of` and `container_of_mut`: the container recovered from a
   * member reference.  They give exactly what `container_of_ptr` gives and
   * check nothing more.
   */
  function ContainerOf(l: Layout, member: nat): (r: Outcome<nat>)
    ensures r == ContainerOfPtr(l, member)
  {
    ContainerOfPtr(l, member)
  }

  /**
   * The round trip: recovering from the member of a non-null, aligned
   * container gives back that container.
   */
  lemma ContainerOfRoundTrip(l: Layout, c: nat)
    requires MemberOffset(l).Ok?
    requires c > 0 && c % l.containerAlign == 0
    ensures MemberAddr(l, c) >= 0
    ensures ContainerOf(l, MemberAddr(l, c) as nat) == Ok(c)
  {
  }
}
