/** The `pointermove` listener: it turns a pointer position into the shared
    input the animation step reads, unless a modal is on screen. */
module Pointer {
  import opened HostMath

  /** The scalars the listener writes and the animation step reads: the
      normalised pointer position and the time of the last accepted move, in
      milliseconds. */
  datatype Input = Input(mx: real, my: real, lastMove: real)

  /** Before any move: the pointer is centred and the last move is the start time. */
  function InitialInput(now: real): (i: Input)
    ensures i.mx == 0.0 && i.my == 0.0
    ensures InUnitSquare(i) && i.lastMove == now
  {
    Input(0.0, 0.0, now)
  }

  predicate InUnitSquare(i: Input) {
    -1.0 <= i.mx <= 1.0 && -1.0 <= i.my <= 1.0
  }

  /** The page's `.modal_wrap` element: absent, or present with its computed
      `display` value. */
  datatype Modal = Absent | Present(display: string)

  /** Input is ignored while the modal exists and is not hidden. */
  predicate Suppresses(modal: Modal) {
    modal.Present? && modal.display != "none"
  }

  /** A client coordinate back from its normalised value. */
  function Denormalise(n: real, extent: real): real {
    (n / 2.0 + 0.5) * extent
  }

  /** `(client / extent - 0.5) * 2`: the window's extent mapped onto [-1, 1],
      with the window's edges going to the interval's ends. */
  function Normalise(client: real, extent: real): (n: real)
    requires 0.0 < extent
    ensures Denormalise(n, extent) == client
    ensures -1.0 <= n <= 1.0 <==> 0.0 <= client <= extent
  {
    var n := (client / extent - 0.5) * 2.0;
    assert n / 2.0 + 0.5 == client / extent;
    n
  }

  /** Denormalising against a positive extent is injective. */
  lemma DenormaliseInjective(a: real, b: real, extent: real)
    requires 0.0 < extent
    requires Denormalise(a, extent) == Denormalise(b, extent)
    ensures a == b
  {
    assert (a / 2.0 - b / 2.0) * extent == 0.0;
  }

  /** Normalising undoes denormalising, so the two are mutually inverse
      bijections between the real line and itself. */
  lemma NormaliseDenormalise(n: real, extent: real)
    requires 0.0 < extent
    ensures Normalise(Denormalise(n, extent), extent) == n
  {
    var c := Denormalise(n, extent);
    DenormaliseInjective(Normalise(c, extent), n, extent);
  }

  /** The listener: with the modal showing nothing changes; otherwise the
      position is normalised against the window and the move is stamped with
      the current time. A pointer inside the window gives a position in the
      unit square. */
  function OnPointerMove(input: Input, modal: Modal, clientX: real, clientY: real,
                         innerWidth: real, innerHeight: real, now: real): (r: Input)
    requires 0.0 < innerWidth && 0.0 < innerHeight
    ensures Suppresses(modal) ==> r == input
    ensures !Suppresses(modal) ==>
              && r.lastMove == now
              && Denormalise(r.mx, innerWidth) == clientX
              && Denormalise(r.my, innerHeight) == clientY
    ensures !Suppresses(modal) ==>
              (InUnitSquare(r) <==> 0.0 <= clientX <= innerWidth && 0.0 <= clientY <= innerHeight)
  {
    if Suppresses(modal) then input
    else Input(Normalise(clientX, innerWidth), Normalise(clientY, innerHeight), now)
  }
}
