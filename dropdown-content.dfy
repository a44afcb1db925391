/**
 * The placement of a dropdown's floating content, `updatePosition` in
 * `src/components/dropdown/dropdown-content.tsx`: the content is put on one
 * side of the trigger according to one of twelve anchors, then, when
 * overflow prevention is on, flipped vertically and pushed back
 * horizontally into the viewport. Coordinates are `real`s; the trigger and
 * content rectangles and the viewport size are read from the browser and
 * are parameters here.
 */
module DropdownContent {
  import opened Wrappers
  import JsString

  /** `AnchorPosition`: the side of the trigger, then the alignment along it. */
  datatype Anchor =
    | TopLeft | TopCenter | TopRight
    | BottomLeft | BottomCenter | BottomRight
    | LeftTop | LeftCenter | LeftBottom
    | RightTop | RightCenter | RightBottom

  /** The anchor's name as the source spells it. */
  function AnchorName(a: Anchor): string
  {
    match a
    case TopLeft => "top-left"
    case TopCenter => "top-center"
    case TopRight => "top-right"
    case BottomLeft => "bottom-left"
    case BottomCenter => "bottom-center"
    case BottomRight => "bottom-right"
    case LeftTop => "left-top"
    case LeftCenter => "left-center"
    case LeftBottom => "left-bottom"
    case RightTop => "right-top"
    case RightCenter => "right-center"
    case RightBottom => "right-bottom"
  }

  predicate IsBottom(a: Anchor) { a == BottomLeft || a == BottomCenter || a == BottomRight }
  predicate IsTop(a: Anchor) { a == TopLeft || a == TopCenter || a == TopRight }
  predicate IsLeft(a: Anchor) { a == LeftTop || a == LeftCenter || a == LeftBottom }
  predicate IsRight(a: Anchor) { a == RightTop || a == RightCenter || a == RightBottom }
  predicate IsCenter(a: Anchor) { a == TopCenter || a == BottomCenter || a == LeftCenter || a == RightCenter }

  /** `anchor.startsWith("bottom")` and `anchor.startsWith("top")` pick out exactly the bottom and top anchors. */
  lemma NamePrefixes(a: Anchor)
    ensures JsString.StartsWith(AnchorName(a), "bottom") <==> IsBottom(a)
    ensures JsString.StartsWith(AnchorName(a), "top") <==> IsTop(a)
  {
    match a
    case TopLeft => assert AnchorName(a)[..3] == "top" && AnchorName(a)[0] == 't';
    case TopCenter => assert AnchorName(a)[..3] == "top" && AnchorName(a)[0] == 't';
    case TopRight => assert AnchorName(a)[..3] == "top" && AnchorName(a)[0] == 't';
    case BottomLeft => assert AnchorName(a)[..6] == "bottom" && AnchorName(a)[0] == 'b';
    case BottomCenter => assert AnchorName(a)[..6] == "bottom" && AnchorName(a)[0] == 'b';
    case BottomRight => assert AnchorName(a)[..6] == "bottom" && AnchorName(a)[0] == 'b';
    case LeftTop => assert AnchorName(a)[0] == 'l';
    case LeftCenter => assert AnchorName(a)[0] == 'l';
    case LeftBottom => assert AnchorName(a)[0] == 'l';
    case RightTop => assert AnchorName(a)[0] == 'r';
    case RightCenter => assert AnchorName(a)[0] == 'r';
    case RightBottom => assert AnchorName(a)[0] == 'r';
  }

  /** The props' defaults. */
  const DefaultAnchor: Anchor := BottomLeft
  const DefaultOffset: real := 8.0
  const DefaultPreventOverflow: bool := true

  /** The gap kept to the viewport's edge when content is pushed back in. */
  const EdgePadding: real := 8.0

  /** A `getBoundingClientRect()` result. */
  datatype Rect = Rect(top: real, bottom: real, left: real, right: real, width: real, height: real)

  /** `Position`: the fields `updatePosition` sets, absent until it first runs. */
  datatype Position = Position(top: Option<real>, left: Option<real>, transform: Option<string>)

  /** The `top` the switch chooses for an anchor. */
  function RawTop(a: Anchor, t: Rect, c: Rect, offset: real): real
  {
    match a
    case BottomLeft | BottomCenter | BottomRight => t.bottom + offset
    case TopLeft | TopCenter | TopRight => t.top - c.height - offset
    case LeftTop | RightTop => t.top
    case LeftCenter | RightCenter => t.top + t.height / 2.0
    case LeftBottom | RightBottom => t.bottom - c.height
  }

  /** The `left` the switch chooses for an anchor. */
  function RawLeft(a: Anchor, t: Rect, c: Rect, offset: real): real
  {
    match a
    case BottomLeft | TopLeft => t.left
    case BottomCenter | TopCenter => t.left + t.width / 2.0
    case BottomRight | TopRight => t.right - c.width
    case LeftTop | LeftCenter | LeftBottom => t.left - c.width - offset
    case RightTop | RightCenter | RightBottom => t.right + offset
  }

  /** The centring transform the switch sets, for the four centre anchors only. */
  function TransformOf(a: Anchor): (r: Option<string>)
    ensures r.Some? <==> IsCenter(a)
  {
    match a
    case BottomCenter | TopCenter => Some("translateX(-50%)")
    case LeftCenter | RightCenter => Some("translateY(-50%)")
    case _ => None
  }

  /**
   * Before any overflow handling the content lies on the anchor's side of the
   * trigger, `offset` away from it, and lines up with the trigger's edge or
   * centre named by the anchor's second word.
   */
  lemma AnchorPlacement(a: Anchor, t: Rect, c: Rect, offset: real)
    ensures IsBottom(a) ==> RawTop(a, t, c, offset) == t.bottom + offset
    ensures IsTop(a) ==> RawTop(a, t, c, offset) + c.height + offset == t.top
    ensures IsLeft(a) ==> RawLeft(a, t, c, offset) + c.width + offset == t.left
    ensures IsRight(a) ==> RawLeft(a, t, c, offset) == t.right + offset
    ensures a in {BottomLeft, TopLeft} ==> RawLeft(a, t, c, offset) == t.left
    ensures a in {BottomRight, TopRight} ==> RawLeft(a, t, c, offset) + c.width == t.right
    ensures a in {LeftTop, RightTop} ==> RawTop(a, t, c, offset) == t.top
    ensures a in {LeftBottom, RightBottom} ==> RawTop(a, t, c, offset) + c.height == t.bottom
    ensures IsCenter(a) && (IsTop(a) || IsBottom(a)) ==> RawLeft(a, t, c, offset) == t.left + t.width / 2.0
    ensures IsCenter(a) && (IsLeft(a) || IsRight(a)) ==> RawTop(a, t, c, offset) == t.top + t.height / 2.0
  {
  }

  /** With a non-negative offset and sizes, the unadjusted content never overlaps the trigger on its side. */
  lemma RawClearsTrigger(a: Anchor, t: Rect, c: Rect, offset: real)
    requires offset >= 0.0 && c.width >= 0.0 && c.height >= 0.0
    ensures IsBottom(a) ==> RawTop(a, t, c, offset) >= t.bottom
    ensures IsTop(a) ==> RawTop(a, t, c, offset) + c.height <= t.top
    ensures IsLeft(a) ==> RawLeft(a, t, c, offset) + c.width <= t.left
    ensures IsRight(a) ==> RawLeft(a, t, c, offset) >= t.right
  {
    AnchorPlacement(a, t, c, offset);
  }

  /** The `switch (anchor)` of `updatePosition`: the raw position and the centring transform. */
  method AnchorSwitch(anchor: Anchor, t: Rect, c: Rect, offset: real) returns (top: real, left: real, transform: Option<string>)
    ensures top == RawTop(anchor, t, c, offset) && left == RawLeft(anchor, t, c, offset)
    ensures transform == TransformOf(anchor)
  {
    transform := None;
    match anchor {
      case BottomLeft =>
        top := t.bottom + offset;
        left := t.left;
      case BottomCenter =>
        top := t.bottom + offset;
        left := t.left + t.width / 2.0;
        transform := Some("translateX(-50%)");
      case BottomRight =>
        top := t.bottom + offset;
        left := t.right - c.width;
      case TopLeft =>
        top := t.top - c.height - offset;
        left := t.left;
      case TopCenter =>
        top := t.top - c.height - offset;
        left := t.left + t.width / 2.0;
        transform := Some("translateX(-50%)");
      case TopRight =>
        top := t.top - c.height - offset;
        left := t.right - c.width;
      case LeftTop =>
        top := t.top;
        left := t.left - c.width - offset;
      case LeftCenter =>
        top := t.top + t.height / 2.0;
        left := t.left - c.width - offset;
        transform := Some("translateY(-50%)");
      case LeftBottom =>
        top := t.bottom - c.height;
        left := t.left - c.width - offset;
      case RightTop =>
        top := t.top;
        left := t.right + offset;
      case RightCenter =>
        top := t.top + t.height / 2.0;
        left := t.right + offset;
        transform := Some("translateY(-50%)");
      case RightBottom =>
        top := t.bottom - c.height;
        left := t.right + offset;
    }
  }

  /** The content's state: the last position computed. */
  class Content {
    var position: Position

    constructor ()
      ensures position == Position(None, None, None)
    {
      position := Position(None, None, None);
    }

    /** The content is hidden until a position has been computed. */
    predicate Visible()
      reads this
    {
      position != Position(None, None, None)
    }

    /**
     * `updatePosition`. Without both rectangles nothing changes. Otherwise
     * the anchor's raw position is taken and, with overflow prevention:
     * a bottom anchor that overflows the viewport's bottom flips above the
     * trigger, a top anchor above the viewport flips below it, content past
     * the right edge is moved to end `EdgePadding` short of it, and a
     * negative left becomes `EdgePadding`.
     */
    method UpdatePosition(trigger: Option<Rect>, content: Option<Rect>, anchor: Anchor, offset: real,
                          preventOverflow: bool, viewportWidth: real, viewportHeight: real)
      modifies this
      ensures trigger.None? || content.None? ==> position == old(position)
      ensures trigger.Some? && content.Some? ==>
                var t, c := trigger.value, content.value;
                var rawTop, rawLeft := RawTop(anchor, t, c, offset), RawLeft(anchor, t, c, offset);
                && position.top.Some? && position.left.Some?
                && position.transform == TransformOf(anchor)
                && (!preventOverflow ==> position.top.value == rawTop && position.left.value == rawLeft)
                && (preventOverflow ==>
                      && (IsBottom(anchor) ==>
                            position.top.value ==
                            (if rawTop + c.height > viewportHeight then t.top - c.height - offset else rawTop))
                      && (IsTop(anchor) ==>
                            position.top.value == (if rawTop < 0.0 then t.bottom + offset else rawTop))
                      && (IsLeft(anchor) || IsRight(anchor) ==> position.top.value == rawTop)
                      && position.left.value >= 0.0
                      && (0.0 <= rawLeft && rawLeft + c.width <= viewportWidth ==> position.left.value == rawLeft)
                      && (rawLeft + c.width > viewportWidth ==>
                            position.left.value ==
                            (if viewportWidth - c.width - EdgePadding < 0.0 then EdgePadding
                             else viewportWidth - c.width - EdgePadding))
                      && (rawLeft < 0.0 && rawLeft + c.width <= viewportWidth ==> position.left.value == EdgePadding))
    {
      if trigger.None? || content.None? {
        return;
      }
      var t, c := trigger.value, content.value;
      var top, left, transform := AnchorSwitch(anchor, t, c, offset);
      if preventOverflow {
        NamePrefixes(anchor);
        if top + c.height > viewportHeight {
          if JsString.StartsWith(AnchorName(anchor), "bottom") {
            top := t.top - c.height - offset;
          }
        }
        if top < 0.0 {
          if JsString.StartsWith(AnchorName(anchor), "top") {
            top := t.bottom + offset;
          }
        }
        var currentRight := left + c.width;
        if currentRight > viewportWidth {
          left := viewportWidth - c.width - EdgePadding;
        }
        if left < 0.0 {
          left := EdgePadding;
        }
      }
      position := Position(Some(top), Some(left), transform);
    }
  }

  /**
   * With overflow prevention, content no wider than the viewport less the
   * padding ends up with its `left` inside the viewport and its right edge
   * no further than the viewport's.
   */
  method FitsHorizontally(t: Rect, c: Rect, anchor: Anchor, offset: real, viewportWidth: real, viewportHeight: real)
    returns (left: real)
    requires c.width >= 0.0 && c.width + EdgePadding <= viewportWidth
    ensures 0.0 <= left && left + c.width <= viewportWidth
  {
    var content := new Content();
    content.UpdatePosition(Some(t), Some(c), anchor, offset, true, viewportWidth, viewportHeight);
    left := content.position.left.value;
  }

  /** Once both rectangles are known the content becomes visible. */
  method VisibleAfterUpdate(t: Rect, c: Rect, anchor: Anchor, offset: real, preventOverflow: bool,
                            viewportWidth: real, viewportHeight: real)
    returns (visible: bool)
    ensures visible
  {
    var content := new Content();
    content.UpdatePosition(Some(t), Some(c), anchor, offset, preventOverflow, viewportWidth, viewportHeight);
    visible := content.Visible();
  }

  /**
   * The vertical flip is tried once: a bottom anchor flipped above the
   * trigger in a short viewport can end above the viewport's top, and is
   * not flipped back.
   */
  method FlipMayLeaveViewport() returns (top: real)
    ensures top < 0.0
  {
    var content := new Content();
    var t := Rect(10.0, 30.0, 0.0, 40.0, 40.0, 20.0);
    var c := Rect(0.0, 100.0, 0.0, 40.0, 40.0, 100.0);
    content.UpdatePosition(Some(t), Some(c), DefaultAnchor, DefaultOffset, DefaultPreventOverflow, 400.0, 50.0);
    top := content.position.top.value;
  }
}
