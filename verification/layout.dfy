/** The geometry of poppy/popup_manager.py: where an anchored popup sits in
    the work area, how popups sharing an anchor stack, the slide offset of
    the slide-in and slide-out animations, and the animation factories.

    The registry `ps` is the manager's `popups` list; a popup is named by its
    index in it. Python's `//` floors and Dafny's `/` is Euclidean, which agree
    for the divisor 2 used here. */
module Layout {
  import opened Wrappers
  import opened Animation
  import opened Popups
  import opened Text
  import opened Config

  const Padding: int := 20
  const TaskbarPadding: int := 45
  const SlideDistance: int := 50
  const Space: int := 8

  /** The nine anchor names laid out by the table; any other name is centred. */
  predicate LeftColumn(a: string) {
    a == "left-top" || a == "left" || a == "left-bottom"
  }

  predicate RightColumn(a: string) {
    a == "right-top" || a == "right" || a == "right-bottom"
  }

  predicate MiddleColumn(a: string) {
    a == "top" || a == "center" || a == "bottom"
  }

  predicate TopRow(a: string) {
    a == "left-top" || a == "top" || a == "right-top"
  }

  predicate BottomRow(a: string) {
    a == "left-bottom" || a == "bottom" || a == "right-bottom"
  }

  predicate MiddleRow(a: string) {
    a == "left" || a == "center" || a == "right"
  }

  /** The position of the first popup at an anchor, before stacking. */
  function BasePosition(a: string, s: Screen, w: int, h: int, taskbar: bool): Vec {
    var W := s.width;
    var H := s.height;
    var tb := if taskbar then TaskbarPadding else 0;
    if a == "left-top" then Vec(Padding, Padding)
    else if a == "left" then Vec(Padding, (H - h) / 2 - h)
    else if a == "top" then Vec((W - w) / 2, Padding)
    else if a == "right-top" then Vec(W - w - Padding, Padding)
    else if a == "right" then Vec(W - w - Padding, (H - h) / 2 - h)
    else if a == "center" then Vec((W - w) / 2, (H - h) / 2 - h)
    else if a == "left-bottom" then Vec(Padding, H - h - Padding - tb)
    else if a == "bottom" then Vec((W - w) / 2, H - h - Padding - tb)
    else if a == "right-bottom" then Vec(W - w - Padding, H - h - Padding - tb)
    else Vec((W - w) / 2, (H - h) / 2)
  }

  /** The table in terms of margins: the left column keeps 20 px from the
      left edge, the right column 20 px from the right edge, the middle column
      splits the free width with the left gap at most one pixel narrower; the
      top row keeps 20 px from the top, the bottom row 20 px (plus 45 for the
      taskbar) from the bottom; the middle row and the centre sit one popup
      height above the vertical centre, while an unknown name is centred on
      both axes. */
  lemma BaseMargins(a: string, s: Screen, w: int, h: int, taskbar: bool)
    ensures var p := BasePosition(a, s, w, h, taskbar);
      && (LeftColumn(a) ==> p.x == Padding)
      && (RightColumn(a) ==> p.x + w + Padding == s.width)
      && (MiddleColumn(a) ==> 0 <= (s.width - p.x - w) - p.x <= 1)
      && (TopRow(a) ==> p.y == Padding)
      && (BottomRow(a) ==> p.y + h + Padding + (if taskbar then TaskbarPadding else 0) == s.height)
      && (MiddleRow(a) ==> 0 <= (s.height - (p.y + h) - h) - (p.y + h) <= 1)
      && (!LeftColumn(a) && !RightColumn(a) && !MiddleColumn(a) ==>
            0 <= (s.width - p.x - w) - p.x <= 1 && 0 <= (s.height - p.y - h) - p.y <= 1)
  {
  }

  /** `_get_slide_offset`: slide from the left or right for names starting
      with those words, from above for exactly "top", else from below. */
  function SlideOffset(anchor: Option<string>): (v: Vec)
    ensures anchor.None? || anchor.value == "" ==> v == Vec(0, 0)
    ensures anchor.Some? && anchor.value != "" ==>
      (v.x == 0 || v.y == 0) && (v.x == SlideDistance || v.x == -SlideDistance || v.y == SlideDistance || v.y == -SlideDistance)
  {
    if anchor.None? || anchor.value == "" then Vec(0, 0)
    else if StartsWith(anchor.value, "left") then Vec(-SlideDistance, 0)
    else if StartsWith(anchor.value, "right") then Vec(SlideDistance, 0)
    else if anchor.value == "top" then Vec(0, -SlideDistance)
    else Vec(0, SlideDistance)
  }

  /** The offset points away from the screen edge the popup is anchored to. */
  lemma SlideOffsetDirection(a: string)
    requires a != ""
    ensures LeftColumn(a) ==> SlideOffset(Some(a)) == Vec(-SlideDistance, 0)
    ensures RightColumn(a) ==> SlideOffset(Some(a)) == Vec(SlideDistance, 0)
    ensures a == "top" ==> SlideOffset(Some(a)) == Vec(0, -SlideDistance)
    ensures a == "bottom" || a == "center" ==> SlideOffset(Some(a)) == Vec(0, SlideDistance)
  {
    if RightColumn(a) || a == "bottom" || a == "center" {
      assert a[0] != 'l';
    }
    if a == "bottom" || a == "center" {
      assert a[0] != 'r';
    }
  }

  /** A popup `k` that `i` may stack on: another visible popup with the same
      anchor whose order lies in (-1, order of `i`). */
  predicate Candidate(ps: seq<Popup>, i: nat, k: nat)
    requires i < |ps| && k < |ps|
  {
    k != i && ps[k].visible && ps[k].anchor == ps[i].anchor && -1 < ps[k].order < ps[i].order
  }

  /** The scan of `_find_nearest_lower_popup` from index `k` on, carrying the
      best popup so far and its order (`-1` before any). */
  function Scan(ps: seq<Popup>, i: nat, k: nat, best: Option<nat>, order: int): (r: Option<nat>)
    requires i < |ps| && k <= |ps|
    requires best.None? ==> order == -1 && forall j :: 0 <= j < k ==> !Candidate(ps, i, j)
    requires best.Some? ==> best.value < k && Candidate(ps, i, best.value) && ps[best.value].order == order
    requires best.Some? ==> forall j :: 0 <= j < k && Candidate(ps, i, j) ==> ps[j].order <= order
    requires best.Some? ==> forall j :: 0 <= j < best.value && Candidate(ps, i, j) ==> ps[j].order < order
    ensures r.None? ==> forall j :: 0 <= j < |ps| ==> !Candidate(ps, i, j)
    ensures r.Some? ==> r.value < |ps| && Candidate(ps, i, r.value)
    ensures r.Some? ==> forall j :: 0 <= j < |ps| && Candidate(ps, i, j) ==> ps[j].order <= ps[r.value].order
    ensures r.Some? ==> forall j :: 0 <= j < r.value && Candidate(ps, i, j) ==> ps[j].order < ps[r.value].order
    decreases |ps| - k
  {
    if k == |ps| then best
    else if k == i || !ps[k].visible || ps[k].anchor != ps[i].anchor then Scan(ps, i, k + 1, best, order)
    else if order < ps[k].order < ps[i].order then Scan(ps, i, k + 1, Some(k), ps[k].order)
    else Scan(ps, i, k + 1, best, order)
  }

  /** `_find_nearest_lower_popup`: among the candidates, the one of greatest
      order, the first in registry order on ties; None when there is none. */
  function NearestLower(ps: seq<Popup>, i: nat): (r: Option<nat>)
    requires i < |ps|
    ensures r.None? <==> forall j :: 0 <= j < |ps| ==> !Candidate(ps, i, j)
    ensures r.Some? ==> r.value < |ps| && Candidate(ps, i, r.value)
    ensures r.Some? ==> forall j :: 0 <= j < |ps| && Candidate(ps, i, j) ==> ps[j].order <= ps[r.value].order
    ensures r.Some? ==> forall j :: 0 <= j < r.value && Candidate(ps, i, j) ==> ps[j].order < ps[r.value].order
  {
    Scan(ps, i, 0, None, -1)
  }

  /** `_get_position`: an unanchored popup, or a hovered stay-on-hover one,
      stays where it is; without a screen the answer is the origin; otherwise
      the table position, with Y replaced by stacking on the nearest lower
      popup: below it for anchors containing "top", above it for the others. */
  function TargetPosition(ps: seq<Popup>, i: nat, taskbar: bool): (v: Vec)
    requires i < |ps|
    ensures !HasAnchor(ps[i]) ==> v == ps[i].pos
    ensures HasAnchor(ps[i]) && ps[i].stayOnHover && ps[i].mouseOver ==> v == ps[i].pos
    ensures HasAnchor(ps[i]) && !(ps[i].stayOnHover && ps[i].mouseOver) && ps[i].screen.None? ==> v == Vec(0, 0)
    decreases if ps[i].order < 0 then 0 else ps[i].order
  {
    var p := ps[i];
    if !HasAnchor(p) then p.pos
    else if p.stayOnHover && p.mouseOver then p.pos
    else if p.screen.None? then Vec(0, 0)
    else
      var base := BasePosition(p.anchor.value, p.screen.value, p.width, p.height, taskbar);
      match NearestLower(ps, i)
      case None => base
      case Some(j) =>
        var prevY := TargetPosition(ps, j, taskbar).y;
        if Contains(p.anchor.value, "top") then Vec(base.x, prevY + ps[j].height + Space)
        else Vec(base.x, prevY - p.height - Space)
  }

  /** A popup that can be laid out: anchored, on a screen, not frozen by hover. */
  predicate Placed(p: Popup) {
    HasAnchor(p) && p.screen.Some? && !(p.stayOnHover && p.mouseOver)
  }

  /** Stacking changes only Y: X is always the table's. */
  lemma StackKeepsX(ps: seq<Popup>, i: nat, taskbar: bool)
    requires i < |ps| && Placed(ps[i])
    ensures TargetPosition(ps, i, taskbar).x ==
      BasePosition(ps[i].anchor.value, ps[i].screen.value, ps[i].width, ps[i].height, taskbar).x
  {
  }

  /** The first popup at an anchor takes the table position; a later one sits
      exactly 8 px beyond the one it stacks on. */
  lemma StackStep(ps: seq<Popup>, i: nat, taskbar: bool)
    requires i < |ps| && Placed(ps[i])
    ensures var p := ps[i];
      var v := TargetPosition(ps, i, taskbar);
      match NearestLower(ps, i)
      case None => v == BasePosition(p.anchor.value, p.screen.value, p.width, p.height, taskbar)
      case Some(j) =>
        var u := TargetPosition(ps, j, taskbar);
        if Contains(p.anchor.value, "top") then v.y == u.y + ps[j].height + Space
        else v.y + p.height + Space == u.y
  {
  }

  /** The conditions under which an anchor's stack is a clean column: every
      visible popup there is laid out on one shared screen, has a
      non-negative height, and no two of them share an order. */
  predicate CleanStack(ps: seq<Popup>, a: string) {
    forall k :: 0 <= k < |ps| && ps[k].visible && ps[k].anchor == Some(a) ==>
      && Placed(ps[k]) && ps[k].height >= 0
      && (forall l :: 0 <= l < |ps| && l != k && ps[l].visible && ps[l].anchor == Some(a) ==> ps[l].order != ps[k].order)
  }

  /** Popups sharing an anchor never overlap vertically: between any visible
      popup of non-negative order and a popup of higher order there is a gap
      of at least 8 px, above it for bottom-growing anchors and below it for
      anchors containing "top". */
  lemma {:induction false} StackSeparates(ps: seq<Popup>, i: nat, j: nat, taskbar: bool)
    requires i < |ps| && j < |ps| && i != j
    requires HasAnchor(ps[i]) && CleanStack(ps, ps[i].anchor.value)
    requires Placed(ps[i]) && ps[i].height >= 0
    requires ps[j].visible && ps[j].anchor == ps[i].anchor && 0 <= ps[j].order < ps[i].order
    ensures var vi := TargetPosition(ps, i, taskbar);
      var vj := TargetPosition(ps, j, taskbar);
      if Contains(ps[i].anchor.value, "top") then vj.y + ps[j].height + Space <= vi.y
      else vi.y + ps[i].height + Space <= vj.y
    decreases ps[i].order
  {
    assert Candidate(ps, i, j);
    var k := NearestLower(ps, i).value;
    StackStep(ps, i, taskbar);
    if k != j {
      assert ps[k].order != ps[j].order;
      assert ps[j].order < ps[k].order;
      StackSeparates(ps, k, j, taskbar);
    }
  }

  /** `get_start_position`: with animation on, the slide offset away from
      the target; otherwise the target itself. */
  function StartPosition(ps: seq<Popup>, i: nat, cfg: Settings): (v: Vec)
    requires i < |ps|
    ensures cfg.animation ==> v == Add(TargetPosition(ps, i, cfg.taskbar), SlideOffset(ps[i].anchor))
    ensures !cfg.animation ==> v == TargetPosition(ps, i, cfg.taskbar)
  {
    var t := TargetPosition(ps, i, cfg.taskbar);
    if cfg.animation then Add(t, SlideOffset(ps[i].anchor)) else t
  }

  /** An animation whose start is read from the getter when it runs. */
  function Tween(target: Value, duration: int, prop: Prop): (a: Anim)
    ensures a.startOnRun && !a.endOnRun && a.endValue == Some(target)
    ensures a.duration == duration && a.delay == 0 && a.prop == prop && a.phase.Idle?
  {
    Fresh.(startOnRun := true, endValue := Some(target), duration := duration, prop := prop)
  }

  /** `get_fadeIn_animation`: opacity from wherever it is to transparency / 100. */
  function FadeInAnim(cfg: Settings): (a: Anim)
    ensures a.endValue == Some(FloatNum(cfg.popupTransparency as real / 100.0))
    ensures a.duration == cfg.popupShowDuration && a.prop == WindowOpacity && a.startOnRun
  {
    Tween(FloatNum(cfg.popupTransparency as real / 100.0), cfg.popupShowDuration, WindowOpacity)
  }

  /** `get_fadeOut_animation`: opacity to 0 over twice the show duration. */
  function FadeOutAnim(cfg: Settings): (a: Anim)
    ensures a.endValue == Some(FloatNum(0.0))
    ensures a.duration == 2 * cfg.popupShowDuration && a.prop == WindowOpacity && a.startOnRun
  {
    Tween(FloatNum(0.0), cfg.popupShowDuration * 2, WindowOpacity)
  }

  /** `get_in_animation`: a move to the target when animation is on and the
      popup is anchored; otherwise a default animation that does nothing. */
  function SlideInAnim(ps: seq<Popup>, i: nat, cfg: Settings): (a: Anim)
    requires i < |ps|
    ensures cfg.animation && HasAnchor(ps[i]) ==>
      var t := TargetPosition(ps, i, cfg.taskbar);
      a.endValue == Some(Point(t.x, t.y)) && a.duration == cfg.popupShowDuration && a.prop == WindowPos
    ensures !(cfg.animation && HasAnchor(ps[i])) ==> a == Fresh
  {
    if cfg.animation && HasAnchor(ps[i]) then
      var t := TargetPosition(ps, i, cfg.taskbar);
      Tween(Point(t.x, t.y), cfg.popupShowDuration, WindowPos)
    else Fresh
  }

  /** `get_out_animation`: a move by the slide offset over twice the show
      duration, under the same condition as the slide-in. */
  function SlideOutAnim(p: Popup, cfg: Settings): (a: Anim)
    ensures cfg.animation && HasAnchor(p) ==>
      var t := Add(p.pos, SlideOffset(p.anchor));
      a.endValue == Some(Point(t.x, t.y)) && a.duration == 2 * cfg.popupShowDuration && a.prop == WindowPos
    ensures !(cfg.animation && HasAnchor(p)) ==> a == Fresh
  {
    if cfg.animation && HasAnchor(p) then
      var t := Add(p.pos, SlideOffset(p.anchor));
      Tween(Point(t.x, t.y), cfg.popupShowDuration * 2, WindowPos)
    else Fresh
  }

  /** `_get_shift_animation`: a move to the target. It checks neither the
      animation setting nor the anchor (an unanchored popup's target is its
      own position). */
  function ShiftAnim(ps: seq<Popup>, i: nat, cfg: Settings): (a: Anim)
    requires i < |ps|
    ensures var t := TargetPosition(ps, i, cfg.taskbar);
      a.endValue == Some(Point(t.x, t.y)) && a.duration == cfg.popupShowDuration && a.prop == WindowPos
  {
    var t := TargetPosition(ps, i, cfg.taskbar);
    Tween(Point(t.x, t.y), cfg.popupShowDuration, WindowPos)
  }

  /** The slide-out of a popup resting at its target ends where its slide-in
      started: hiding retraces the showing path. */
  lemma SlideOutRetracesSlideIn(ps: seq<Popup>, i: nat, cfg: Settings)
    requires i < |ps| && cfg.animation && HasAnchor(ps[i])
    requires ps[i].pos == TargetPosition(ps, i, cfg.taskbar)
    ensures var s := StartPosition(ps, i, cfg);
      SlideOutAnim(ps[i], cfg).endValue == Some(Point(s.x, s.y))
  {
  }
}
