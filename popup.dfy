/**
 * The integer geometry of the exit-confirmation popup
 * (`render_confirm_message`): a box four cells wider than the message and 3 high,
 * centred in the body area, computed in `u16` arithmetic.
 *
 * `ConfirmPopup` is the computation as written: in a debug build an `u16`
 * subtraction or addition that leaves the range panics, and `None` stands
 * for that panic. `ClampedPopup` is the corrected computation (see the
 * Findings section of the README).
 */
module Popup {
  import opened Wrappers

  const U16Limit: int := 0x1_0000

  newtype u16 = x: int | 0 <= x < 0x1_0000

  /** ratatui's `Rect`. */
  datatype Rect = Rect(x: u16, y: u16, width: u16, height: u16)

  /** ratatui keeps every `Rect` inside the `u16` coordinate space. */
  predicate InCoordinateSpace(area: Rect) {
    area.x as int + area.width as int < U16Limit && area.y as int + area.height as int < U16Limit
  }

  const PopupHeight: u16 := 3

  /** The message's byte length plus four, cast to `u16`: the cast keeps the low 16 bits. */
  function PopupWidth(messageLen: nat): u16 {
    ((messageLen + 4) % U16Limit) as u16
  }

  /** `a - b` on `u16`, `None` where a debug build panics. */
  function CheckedSub(a: u16, b: u16): Option<u16> {
    if b <= a then Some(a - b) else None
  }

  /** `a + b` on `u16`, `None` where a debug build panics. */
  function CheckedAdd(a: u16, b: u16): Option<u16> {
    if a as int + b as int < U16Limit then Some((a as int + b as int) as u16) else None
  }

  /**
   * One coordinate as written: half the extent minus half the size plus the
   * origin when that is positive, and the origin otherwise. The result is
   * defined exactly when neither operation leaves `u16`, and it is always
   * the main branch's value: the fallback never yields anything different.
   */
  function CenteredOffset(extent: u16, size: u16, origin: u16): (r: Option<u16>)
    ensures r.Some? <==>
      size / 2 <= extent / 2 && (extent / 2 - size / 2) as int + origin as int < U16Limit
    ensures r.Some? ==> r.value as int == (extent / 2) as int - (size / 2) as int + origin as int
  {
    match CheckedSub(extent / 2, size / 2)
    case None => None
    case Some(d) =>
      match CheckedAdd(d, origin)
      case None => None
      case Some(c) => if c > 0 then Some(c) else Some(origin)
  }

  /** The popup rectangle as written, `None` for an arithmetic-overflow panic. */
  function ConfirmPopup(area: Rect, messageLen: nat): (r: Option<Rect>)
    ensures r.Some? <==>
      && PopupWidth(messageLen) / 2 <= area.width / 2
      && (area.width / 2 - PopupWidth(messageLen) / 2) as int + area.x as int < U16Limit
      && 1 <= area.height / 2
      && (area.height / 2 - 1) as int + area.y as int < U16Limit
    ensures r.Some? ==>
      && r.value.width as int == (messageLen + 4) % U16Limit
      && r.value.height == 3
      && r.value.x as int == (area.width / 2) as int - (r.value.width / 2) as int + area.x as int
      && r.value.y as int == (area.height / 2) as int - 1 + area.y as int
  {
    var width := PopupWidth(messageLen);
    var height := PopupHeight;
    match CenteredOffset(area.width, width, area.x)
    case None => None
    case Some(x) =>
      match CenteredOffset(area.height, height, area.y)
      case None => None
      case Some(y) => Some(Rect(x, y, width, height))
  }

  /**
   * Inside ratatui's coordinate space the additions cannot overflow, so the
   * popup is defined exactly when it is no wider than twice half the area
   * and the area is at least 2 rows high.
   */
  lemma ConfirmPopupDefinedIff(area: Rect, messageLen: nat)
    requires InCoordinateSpace(area)
    ensures ConfirmPopup(area, messageLen).Some? <==>
      PopupWidth(messageLen) / 2 <= area.width / 2 && 2 <= area.height
  {
  }

  /** A popup that fits in the area lies inside it. */
  lemma ConfirmPopupInsideArea(area: Rect, messageLen: nat)
    requires ConfirmPopup(area, messageLen).Some?
    requires PopupWidth(messageLen) <= area.width && PopupHeight <= area.height
    ensures var p := ConfirmPopup(area, messageLen).value;
      && area.x <= p.x && p.x as int + p.width as int <= area.x as int + area.width as int
      && area.y <= p.y && p.y as int + p.height as int <= area.y as int + area.height as int
  {
  }

  /** The popup is centred: its left and right margins differ by at most one cell. */
  lemma ConfirmPopupCentered(area: Rect, messageLen: nat)
    requires ConfirmPopup(area, messageLen).Some?
    ensures var p := ConfirmPopup(area, messageLen).value;
      var left := p.x as int - area.x as int;
      var right := area.x as int + area.width as int - (p.x as int + p.width as int);
      -1 <= left - right <= 1
  {
  }

  /**
   * The confirmation message "Are you sure you want to exit?" is 30 bytes
   * long, so its popup is 34 wide; in a body area 20 cells wide the
   * subtraction `10 - 17` underflows and a debug build panics while drawing.
   */
  lemma NarrowAreaPanics()
    ensures ConfirmPopup(Rect(0, 0, 20, 10), |"Are you sure you want to exit?"|).None?
  {
  }

  /**
   * The evidently intended computation: the centred position, falling back
   * to the area's edge when the popup is wider than the area (a saturating
   * subtraction in place of the plain one). It is defined for
   * every area in ratatui's coordinate space, never starts left of or above
   * the area, and agrees with `ConfirmPopup` wherever that one is defined.
   */
  function ClampedPopup(area: Rect, messageLen: nat): (r: Rect)
    requires InCoordinateSpace(area)
    ensures r.width == PopupWidth(messageLen) && r.height == PopupHeight
    ensures area.x <= r.x && r.x as int <= area.x as int + (area.width / 2) as int
    ensures area.y <= r.y && r.y as int <= area.y as int + (area.height / 2) as int
    ensures ConfirmPopup(area, messageLen).Some? ==> ConfirmPopup(area, messageLen).value == r
  {
    var width := PopupWidth(messageLen);
    var dx := if width / 2 <= area.width / 2 then area.width / 2 - width / 2 else 0;
    var dy := if PopupHeight / 2 <= area.height / 2 then area.height / 2 - PopupHeight / 2 else 0;
    Rect(dx + area.x, dy + area.y, width, PopupHeight)
  }
}
