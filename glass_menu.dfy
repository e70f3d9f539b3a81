/**
 * The glass pop-up menu: its height from the number of items, the side it
 * opens on, the point its open animation scales from, and which item shows
 * the checkmark. Offsets are exact reals.
 */
module GlassMenu {
  import opened Optional

  const ItemHeight: int := 48
  const MenuPaddingVertical: int := 6
  const MenuWidth: real := 160.0
  const DirectionMargin: int := 4

  datatype Direction = Up | Down
  datatype Alignment = Left | Right

  /** A point relative to the menu, such as the touch that opened it. */
  datatype Point = Point(x: real, y: real)

  /** `menuHeight`: one item height per item plus the padding above and below. */
  function MenuHeight(itemCount: nat): (height: int)
    ensures height - 2 * MenuPaddingVertical == itemCount * ItemHeight
    ensures height >= 12
  {
    itemCount * ItemHeight + MenuPaddingVertical * 2
  }

  /** The wrapper's placement: just below the trigger for 'down', just above it for 'up'. */
  datatype DirectionStyle = Below(marginTop: int) | Above(marginBottom: int)

  /** `getDirectionStyles`: 'down' sits at top 100% with a 4-point top margin, 'up' at bottom 100% with a 4-point bottom margin. */
  function GetDirectionStyles(direction: Direction): (style: DirectionStyle)
    ensures style.Below? <==> direction == Down
    ensures style == Below(DirectionMargin) || style == Above(DirectionMargin)
  {
    match direction
    case Down => Below(DirectionMargin)
    case Up => Above(DirectionMargin)
  }

  function Clamp(v: real, lo: real, hi: real): (r: real)
    requires lo <= hi
    ensures lo <= r <= hi
    ensures lo <= v <= hi ==> r == v
    ensures v < lo ==> r == lo
    ensures v > hi ==> r == hi
  {
    if v < lo then lo else if v > hi then hi else v
  }

  /**
   * `getAnchorOffset`: the origin of the scale animation. With a touch point
   * its x is clamped into the menu's width; without one it is the left or the
   * right corner. Its y is the edge nearest the trigger: the top when the
   * menu opens downwards, the bottom (the menu's height) when it opens upwards.
   */
  function GetAnchorOffset(anchorPoint: Option<Point>, direction: Direction, alignment: Alignment,
                           menuHeight: real): (offset: Point)
    ensures 0.0 <= offset.x <= MenuWidth
    ensures offset.y == (if direction == Down then 0.0 else menuHeight)
    ensures anchorPoint.Some? && 0.0 <= anchorPoint.value.x <= MenuWidth ==> offset.x == anchorPoint.value.x
    ensures anchorPoint.Some? && anchorPoint.value.x < 0.0 ==> offset.x == 0.0
    ensures anchorPoint.Some? && anchorPoint.value.x > MenuWidth ==> offset.x == MenuWidth
    ensures anchorPoint.None? ==> offset.x == (if alignment == Left then 0.0 else MenuWidth)
  {
    if anchorPoint.Some? then
      var offsetX := Clamp(anchorPoint.value.x, 0.0, MenuWidth);
      var offsetY := if direction == Down then 0.0 else menuHeight;
      Point(offsetX, offsetY)
    else
      var offsetX := if alignment == Left then 0.0 else MenuWidth;
      var offsetY := if direction == Down then 0.0 else menuHeight;
      Point(offsetX, offsetY)
  }

  /** `SCALE_START`: the scale the menu opens from and closes to. */
  const ScaleStart: real := 0.85

  /** One entry of a React Native `transform` list. */
  datatype TransformOp = TranslateX(dx: real) | TranslateY(dy: real) | Scale(factor: real)

  /** One entry acting on a vector. */
  function ApplyOp(op: TransformOp, v: Point): (w: Point)
    ensures op.Scale? ==> w == Point(op.factor * v.x, op.factor * v.y)
    ensures op.TranslateX? ==> w == Point(v.x + op.dx, v.y)
    ensures op.TranslateY? ==> w == Point(v.x, v.y + op.dy)
  {
    match op
    case TranslateX(dx) => Point(v.x + dx, v.y)
    case TranslateY(dy) => Point(v.x, v.y + dy)
    case Scale(k) => Point(k * v.x, k * v.y)
  }

  /** A transform list as a product of matrices: its last entry acts on the vector first. */
  function ApplyOps(ops: seq<TransformOp>, v: Point): Point
  {
    if ops == [] then v else ApplyOp(ops[0], ApplyOps(ops[1..], v))
  }

  /**
   * A view's `transform` acts about its transform origin: the vector from
   * the origin to a point is transformed, then added back to the origin.
   */
  function TransformView(ops: seq<TransformOp>, origin: Point, p: Point): Point
  {
    var v := ApplyOps(ops, Point(p.x - origin.x, p.y - origin.y));
    Point(origin.x + v.x, origin.y + v.y)
  }

  /**
   * The menu's transform origin. `transformOrigin` is not set, so it is
   * React Native's default, the centre of the view, which is `MENU_WIDTH`
   * wide and `menuHeight` tall.
   */
  function ViewCentre(menuHeight: real): (c: Point)
    ensures c.x * 2.0 == MenuWidth && c.y * 2.0 == menuHeight
  {
    Point(MenuWidth / 2.0, menuHeight / 2.0)
  }

  /** The transform list of the animated style as written: translate by the offset, scale, translate back. */
  function AnimatedTransform(offset: Point, scale: real): seq<TransformOp>
  {
    [TranslateX(offset.x), TranslateY(offset.y), Scale(scale), TranslateX(-offset.x), TranslateY(-offset.y)]
  }

  /**
   * The written list, applied about the view's centre, scales every point
   * towards the centre moved by the offset, and that point alone stays put
   * when the scale is not 1.
   */
  lemma AnimatedTransformFixes(offset: Point, menuHeight: real, scale: real, p: Point)
    ensures var c := ViewCentre(menuHeight);
      var f := Point(c.x + offset.x, c.y + offset.y);
      var q := TransformView(AnimatedTransform(offset, scale), c, p);
      && q.x - f.x == scale * (p.x - f.x)
      && q.y - f.y == scale * (p.y - f.y)
      && (scale != 1.0 ==> (q == p <==> p == f))
  {
    var c := ViewCentre(menuHeight);
    var ops := AnimatedTransform(offset, scale);
    var v := Point(p.x - c.x, p.y - c.y);
    assert ApplyOps(ops[4..], v) == Point(v.x, v.y - offset.y);
    assert ApplyOps(ops[3..], v) == Point(v.x - offset.x, v.y - offset.y);
    assert ApplyOps(ops[2..], v) == Point(scale * (v.x - offset.x), scale * (v.y - offset.y));
    assert ApplyOps(ops, v) == Point(scale * (v.x - offset.x) + offset.x, scale * (v.y - offset.y) + offset.y);
    var f := Point(c.x + offset.x, c.y + offset.y);
    assert p.x - f.x == v.x - offset.x && p.y - f.y == v.y - offset.y;
    if scale != 1.0 {
      var q := TransformView(ops, c, p);
      if q == p {
        ZeroProduct(scale - 1.0, p.x - f.x);
        ZeroProduct(scale - 1.0, p.y - f.y);
      }
    }
  }

  /** A product of reals is zero only when a factor is. */
  lemma ZeroProduct(k: real, a: real)
    requires k != 0.0 && k * a == 0.0
    ensures a == 0.0
  {
  }

  /**
   * As written, the anchor itself moves: at any scale other than 1 it is
   * carried by (1 - scale) times the centre, and at `SCALE_START` with the
   * top-left corner as anchor (no touch point, left-aligned, opening
   * downwards) it starts 12 points right of and 0.075 heights below it.
   */
  lemma AnchorDrifts(anchorPoint: Option<Point>, direction: Direction, alignment: Alignment,
                     menuHeight: real, scale: real)
    requires scale != 1.0
    ensures var o := GetAnchorOffset(anchorPoint, direction, alignment, menuHeight);
      var q := TransformView(AnimatedTransform(o, scale), ViewCentre(menuHeight), o);
      && q != o
      && q.x - o.x == (1.0 - scale) * (MenuWidth / 2.0)
      && q.y - o.y == (1.0 - scale) * (menuHeight / 2.0)
    ensures anchorPoint.None? && direction == Down && alignment == Left && scale == ScaleStart ==>
      TransformView(AnimatedTransform(Point(0.0, 0.0), scale), ViewCentre(menuHeight), Point(0.0, 0.0))
        == Point(12.0, 0.075 * menuHeight)
  {
    var o := GetAnchorOffset(anchorPoint, direction, alignment, menuHeight);
    AnimatedTransformFixes(o, menuHeight, scale, o);
    AnimatedTransformFixes(Point(0.0, 0.0), menuHeight, scale, Point(0.0, 0.0));
  }

  /**
   * The transform the comment describes, "move origin to anchor point":
   * measured from the view's centre, the anchor is the offset less the
   * centre, so the list translates by that difference, scales and
   * translates back.
   */
  function MenuTransform(offset: Point, menuHeight: real, scale: real): seq<TransformOp>
  {
    var c := ViewCentre(menuHeight);
    [TranslateX(offset.x - c.x), TranslateY(offset.y - c.y), Scale(scale),
     TranslateX(c.x - offset.x), TranslateY(c.y - offset.y)]
  }

  /**
   * With the corrected list every point of the menu is scaled towards the
   * anchor offset, and for a scale other than 1 the anchor is the only point
   * that stays put: the menu grows out of the touch point or the corner.
   */
  lemma AnchorIsFixed(anchorPoint: Option<Point>, direction: Direction, alignment: Alignment,
                      menuHeight: real, scale: real, p: Point)
    ensures var o := GetAnchorOffset(anchorPoint, direction, alignment, menuHeight);
      var q := TransformView(MenuTransform(o, menuHeight, scale), ViewCentre(menuHeight), p);
      && q.x - o.x == scale * (p.x - o.x)
      && q.y - o.y == scale * (p.y - o.y)
      && TransformView(MenuTransform(o, menuHeight, scale), ViewCentre(menuHeight), o) == o
      && (scale != 1.0 ==> (q == p <==> p == o))
  {
    var o := GetAnchorOffset(anchorPoint, direction, alignment, menuHeight);
    var c := ViewCentre(menuHeight);
    var d := Point(o.x - c.x, o.y - c.y);
    AnimatedTransformFixes(d, menuHeight, scale, p);
    AnimatedTransformFixes(d, menuHeight, scale, o);
    assert MenuTransform(o, menuHeight, scale) == AnimatedTransform(d, scale);
  }

  /** A `GlassMenuItem`: its `label` (`labelText` here, `label` being a Dafny keyword) and the value it stands for. */
  datatype MenuItem<T> = MenuItem(labelText: string, value: T)

  /** A row of the open menu: its label, the value it selects, and whether it shows the checkmark. */
  datatype MenuRow<T> = MenuRow(labelText: string, value: T, isSelected: bool)

  /**
   * `GlassMenu`: nothing when hidden; otherwise one row per item in order,
   * checked exactly when its value is the selected value.
   */
  function RenderMenu<T(==)>(visible: bool, items: seq<MenuItem<T>>, selectedValue: Option<T>)
    : (rows: Option<seq<MenuRow<T>>>)
    ensures rows.None? <==> !visible
    ensures rows.Some? ==> |rows.value| == |items|
    ensures rows.Some? ==> forall i :: 0 <= i < |items| ==>
      && rows.value[i].labelText == items[i].labelText && rows.value[i].value == items[i].value
      && (rows.value[i].isSelected <==> selectedValue == Some(items[i].value))
  {
    if !visible then None
    else Some(seq(|items|, i requires 0 <= i < |items| =>
      MenuRow(items[i].labelText, items[i].value, selectedValue == Some(items[i].value))))
  }

  /** Items with distinct values check at most one row. */
  lemma AtMostOneChecked<T>(items: seq<MenuItem<T>>, selectedValue: Option<T>, i: int, j: int)
    requires forall a, b :: 0 <= a < b < |items| ==> items[a].value != items[b].value
    requires 0 <= i < |items| && 0 <= j < |items|
    requires RenderMenu(true, items, selectedValue).value[i].isSelected
    requires RenderMenu(true, items, selectedValue).value[j].isSelected
    ensures i == j
  {
  }
}
