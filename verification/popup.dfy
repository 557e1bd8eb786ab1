/** The state of one popup window (poppy/base_popup.py): its fixed size and
    behaviour, its anchor name, the visibility and hover flags, its position
    and opacity, its five animations and its dismiss timer. */
module Popups {
  import opened Wrappers
  import opened Animation

  datatype Vec = Vec(x: int, y: int)

  function Add(a: Vec, b: Vec): Vec {
    Vec(a.x + b.x, a.y + b.y)
  }

  /** The size of a screen's available geometry (the work area). */
  datatype Screen = Screen(width: int, height: int)

  /** Which subclass a popup is; it decides where `update_screen_position`
      reads the anchor from. */
  datatype PopupKind = KeyboardPopup | VolumePopup | MediaPopup | CursorPopup

  datatype Popup = Popup(
    kind: PopupKind,
    width: int,
    height: int,
    hideSlide: bool,
    stayOnHover: bool,
    order: int,
    anchor: Option<string>,
    screen: Option<Screen>,
    visible: bool,
    isActive: bool,
    mouseOver: bool,
    pos: Vec,
    opacity: real,
    fadeIn: Anim,
    fadeOut: Anim,
    slideIn: Anim,
    slideOut: Anim,
    shift: Anim,
    hideTimer: Option<int>)

  /** `BasePopup.__init__`: hidden, transparent, inactive, not hovered, no
      anchor yet, five fresh animations and a stopped dismiss timer. */
  function NewPopup(kind: PopupKind, width: int, height: int, hideSlide: bool, stayOnHover: bool,
                    order: int, screen: Option<Screen>): (p: Popup)
    ensures !p.visible && !p.isActive && !p.mouseOver && p.hideTimer.None?
    ensures p.opacity == 0.0 && p.anchor.None?
    ensures p.width == width && p.height == height && p.order == order
    ensures p.hideSlide == hideSlide && p.stayOnHover == stayOnHover
    ensures !p.fadeIn.IsRunning() && !p.fadeOut.IsRunning() && !p.slideIn.IsRunning()
    ensures !p.slideOut.IsRunning() && !p.shift.IsRunning()
  {
    Popup(kind, width, height, hideSlide, stayOnHover, order, None, screen,
          false, false, false, Vec(0, 0), 0.0, Fresh, Fresh, Fresh, Fresh, Fresh, None)
  }

  /** `if popup.screen_position`: set and non-empty. */
  predicate HasAnchor(p: Popup) {
    p.anchor.Some? && p.anchor.value != ""
  }

  /** The five animation attributes. */
  datatype Slot = FadeInSlot | FadeOutSlot | SlideInSlot | SlideOutSlot | ShiftSlot

  function SlotAnim(p: Popup, s: Slot): Anim {
    match s
    case FadeInSlot => p.fadeIn
    case FadeOutSlot => p.fadeOut
    case SlideInSlot => p.slideIn
    case SlideOutSlot => p.slideOut
    case ShiftSlot => p.shift
  }

  /** Every animation of `q` except the one in slot `s` is that of `p`. */
  predicate OthersKept(p: Popup, q: Popup, s: Slot) {
    && (s != FadeInSlot ==> q.fadeIn == p.fadeIn)
    && (s != FadeOutSlot ==> q.fadeOut == p.fadeOut)
    && (s != SlideInSlot ==> q.slideIn == p.slideIn)
    && (s != SlideOutSlot ==> q.slideOut == p.slideOut)
    && (s != ShiftSlot ==> q.shift == p.shift)
  }

  function WithSlot(p: Popup, s: Slot, a: Anim): (q: Popup)
    ensures SlotAnim(q, s) == a
    ensures OthersKept(p, q, s)
    ensures q.(fadeIn := p.fadeIn, fadeOut := p.fadeOut, slideIn := p.slideIn,
               slideOut := p.slideOut, shift := p.shift) == p
  {
    match s
    case FadeInSlot => p.(fadeIn := a)
    case FadeOutSlot => p.(fadeOut := a)
    case SlideInSlot => p.(slideIn := a)
    case SlideOutSlot => p.(slideOut := a)
    case ShiftSlot => p.(shift := a)
  }

  /** What an animation's getter reads from the popup. */
  function Getter(p: Popup, prop: Prop): Value {
    match prop
    case Unbound => FloatNum(0.0)
    case WindowOpacity => FloatNum(p.opacity)
    case WindowPos => Point(p.pos.x, p.pos.y)
  }

  /** What an animation's setter writes: `setWindowOpacity` or `move`. */
  function Setter(p: Popup, prop: Prop, v: Value): Popup {
    match (prop, v)
    case (WindowOpacity, FloatNum(f)) => p.(opacity := f)
    case (WindowPos, Point(x, y)) => p.(pos := Vec(x, y))
    case _ => p
  }
}
