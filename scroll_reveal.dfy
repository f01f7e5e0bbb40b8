/** The scroll-reveal wrapper: an element fades and slides into place the
    first time (or every time) it enters the viewport. */
module ScrollReveal {

  datatype Direction = Up | Down | Left | Right

  /** The component's props. */
  datatype RevealProps = RevealProps(
    direction: Direction,
    duration: nat,
    delay: nat,
    distance: nat,
    threshold: real,
    once: bool)

  /** Defaults: `up`, 800 ms, no delay, 50 px, 10 % visible, reveal once. */
  const DefaultProps: RevealProps := RevealProps(Up, 800, 0, 50, 0.1, true)

  /** A CSS `transform` value: `none`, `translateX(px)` or `translateY(px)`. */
  datatype Transform = NoTransform | TranslateX(dx: int) | TranslateY(dy: int)

  /** The signed length of a translation, 0 for `none`. */
  function Offset(t: Transform): int
  {
    match t
    case NoTransform => 0
    case TranslateX(d) => d
    case TranslateY(d) => d
  }

  /** `getTransform`: `none` once visible; while hidden, a shift of `distance`
      pixels on the vertical axis for up and down and on the horizontal one
      for left and right, positive for up and left, negative for down and right. */
  function TransformFor(visible: bool, direction: Direction, distance: nat): (t: Transform)
    ensures visible ==> t == NoTransform
    ensures !visible ==> (t.TranslateY? <==> direction == Up || direction == Down)
    ensures !visible ==> (t.TranslateX? <==> direction == Left || direction == Right)
    ensures !visible && (direction == Up || direction == Left) ==> Offset(t) == distance
    ensures !visible && (direction == Down || direction == Right) ==> Offset(t) == -(distance as int)
  {
    if visible then NoTransform
    else match direction
      case Up => TranslateY(distance)
      case Down => TranslateY(-(distance as int))
      case Left => TranslateX(distance)
      case Right => TranslateX(-(distance as int))
  }

  /** With every prop omitted, a hidden element sits 50 px below its place at
      opacity 0, and both transitions last 800 ms with no delay. */
  lemma DefaultHiddenStyle()
    ensures StyleFor(DefaultProps, false) == Style(0, TranslateY(50), 800, 800, 0)
    ensures StyleFor(DefaultProps, true) == Style(1, NoTransform, 800, 800, 0)
  {
  }

  /** The inline style: opacity, transform, one duration for both
      transitions, and the delay. */
  datatype Style = Style(opacity: int, transform: Transform, opacityMs: nat, transformMs: nat, transitionDelayMs: nat)

  function StyleFor(props: RevealProps, visible: bool): (s: Style)
    ensures s.opacity == 1 <==> visible
    ensures s.opacity == 0 <==> !visible
    ensures visible ==> s.transform == NoTransform
    ensures s.transform == TransformFor(visible, props.direction, props.distance)
    ensures s.opacityMs == s.transformMs == props.duration
    ensures s.transitionDelayMs == props.delay
  {
    Style(if visible then 1 else 0,
          TransformFor(visible, props.direction, props.distance),
          props.duration, props.duration, props.delay)
  }

  class Reveal {
    const props: RevealProps
    var isVisible: bool
    /** Whether the observer still watches the element. */
    var observing: bool

    constructor (props: RevealProps)
      ensures this.props == props && !isVisible && observing
    {
      this.props := props;
      isVisible := false;
      observing := true;
    }

    /** The observer callback for the element's entry. An unobserved element
        receives no more callbacks. */
    method OnEntry(isIntersecting: bool)
      modifies this
      ensures !old(observing) ==> isVisible == old(isVisible) && !observing
      ensures old(observing) && isIntersecting ==> isVisible && observing == !props.once
      ensures old(observing) && !isIntersecting ==>
                isVisible == (old(isVisible) && props.once) && observing
      ensures props.once && old(isVisible) ==> isVisible
    {
      if !observing {
        return;
      }
      if isIntersecting {
        isVisible := true;
        if props.once {
          observing := false;
        }
      } else if !props.once {
        isVisible := false;
      }
    }
  }
}
