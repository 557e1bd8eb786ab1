/** The popup lifecycle of poppy/base_popup.py driven by the manager of
    poppy/popup_manager.py: showing (with the re-stack pass over the other
    popups sharing the anchor), fade-in completion, the dismiss timer, the
    hover veto and the hover freeze on pointer enter and leave.

    Every handler is a function from the manager's state to the next one.
    An exception escaping a handler is a `Failure`; PyQt6 ends the process
    on an exception escaping a slot, so no partial state is kept. */
module Lifecycle {
  import opened Wrappers
  import opened Animation
  import opened Popups
  import opened Config
  import opened Layout

  /** The registry with its re-entrancy guard, the settings every handler
      reads and the primary screen's refresh rate (None without a screen). */
  datatype Manager = Manager(popups: seq<Popup>, block: bool, cfg: Settings, screenRate: Option<real>)

  /** The fields no animation, timer or hover handler may change; only
      `update_screen_position` and `show()`/`hide()` touch the first two. */
  predicate SameIdentity(p: Popup, q: Popup) {
    && q.kind == p.kind && q.width == p.width && q.height == p.height
    && q.hideSlide == p.hideSlide && q.stayOnHover == p.stayOnHover && q.order == p.order
    && q.anchor == p.anchor && q.screen == p.screen && q.visible == p.visible
    && q.isActive == p.isActive && q.mouseOver == p.mouseOver
  }

  /** `PopupManager.add_popup`, the last step of `BasePopup.__init__`. */
  function AddPopup(m: Manager, p: Popup): Manager {
    m.(popups := m.popups + [p])
  }

  /** A popup constructed with a registry of `n` popups becomes popup `n`:
      hidden, inactive, not hovered, with no timer armed and nothing running,
      while the popups registered before are untouched. */
  lemma Construct(m: Manager, kind: PopupKind, width: int, height: int, hideSlide: bool, stayOnHover: bool,
                  order: int, screen: Option<Screen>)
    ensures var r := AddPopup(m, NewPopup(kind, width, height, hideSlide, stayOnHover, order, screen));
      var q := r.popups[|m.popups|];
      && |r.popups| == |m.popups| + 1 && r.popups[..|m.popups|] == m.popups
      && r.block == m.block && r.cfg == m.cfg
      && !q.visible && !q.isActive && !q.mouseOver && q.hideTimer.None?
      && q.order == order && q.width == width && q.height == height
      && !q.fadeIn.IsRunning() && !q.fadeOut.IsRunning() && !q.slideIn.IsRunning()
      && !q.slideOut.IsRunning() && !q.shift.IsRunning()
  {
    var r := AddPopup(m, NewPopup(kind, width, height, hideSlide, stayOnHover, order, screen));
    assert r.popups[..|m.popups|] == m.popups;
  }

  /** One setter call or callback landing on the popup. */
  function ApplyEffect(p: Popup, prop: Prop, e: Effect, popupDuration: int): Popup {
    match e
    case Applied(v) => Setter(p, prop, v)
    case Started => p
    case Finished(ShowAnimationEnd) => p.(isActive := true, hideTimer := Some(popupDuration))
    case Finished(HideWindow) => p.(visible := false)
  }

  /** The effects of one animation step, in order. Without a finish callback
      among them, only the opacity and the position can change. */
  function ApplyEffects(p: Popup, prop: Prop, effects: seq<Effect>, popupDuration: int): (q: Popup)
    ensures CountFinished(effects) == 0 ==> q.(opacity := p.opacity, pos := p.pos) == p
    decreases |effects|
  {
    if effects == [] then p
    else ApplyEffects(ApplyEffect(p, prop, effects[0], popupDuration), prop, effects[1..], popupDuration)
  }

  /** Installing `a` in slot `s` and running it against the popup. */
  function RunIn(p: Popup, s: Slot, a: Anim, rate: Option<real>, popupDuration: int): (r: Result<Popup, Error>)
    ensures r.Failure? <==> Run(a, Getter(p, a.prop), rate).raised.Some?
    ensures r.Failure? ==> r.error == Run(a, Getter(p, a.prop), rate).raised.value
    ensures r.Success? ==> SlotAnim(r.value, s) == Run(a, Getter(p, a.prop), rate).anim
    ensures r.Success? ==> SameIdentity(p, r.value) && r.value.hideTimer == p.hideTimer
    ensures r.Success? ==> OthersKept(p, r.value, s)
  {
    var st := Run(a, Getter(p, a.prop), rate);
    if st.raised.Some? then Failure(st.raised.value)
    else
      var p1 := WithSlot(p, s, st.anim);
      var q := ApplyEffects(p1, a.prop, st.effects, popupDuration);
      assert q.(opacity := p1.opacity, pos := p1.pos) == p1;
      Success(q)
  }

  /** `stop()` on a slot: no finish callback, so nothing but the slot changes. */
  function StopIn(p: Popup, s: Slot): (q: Popup)
    ensures !SlotAnim(q, s).IsRunning() && !SlotAnim(q, s).IsDelaying()
    ensures OthersKept(p, q, s)
    ensures SameIdentity(p, q) && q.hideTimer == p.hideTimer
  {
    WithSlot(p, s, Stop(SlotAnim(p, s), false).anim)
  }

  /** The animations the factories build take their start from the getter,
      have no delay and no frame rate of their own, and end on a value of the
      getter's shape (or on the getter itself). */
  predicate FromFactory(a: Anim, p: Popup) {
    && a.delay == 0 && a.framerate.None? && (a.startValue.None? || a.startOnRun)
    && (a.endValue.None? || a.endOnRun || KindOf(a.endValue.value) == KindOf(Getter(p, a.prop)))
  }

  /** Such an animation can only fail on a zero refresh rate, and only when
      it has a positive duration; otherwise it is left running exactly when
      its duration is positive, and it keeps its finish callback. */
  lemma FactoryRun(p: Popup, s: Slot, a: Anim, rate: Option<real>, popupDuration: int)
    requires FromFactory(a, p)
    ensures RunIn(p, s, a, rate, popupDuration).Failure? <==> a.duration > 0 && rate == Some(0.0)
    ensures RunIn(p, s, a, rate, popupDuration).Failure? ==> RunIn(p, s, a, rate, popupDuration).error == ZeroDivision
    ensures RunIn(p, s, a, rate, popupDuration).Success? ==>
      var b := SlotAnim(RunIn(p, s, a, rate, popupDuration).value, s);
      && (b.IsRunning() <==> a.duration > 0) && (a.duration > 0 ==> Ticking(b))
      && b.(phase := a.phase, startValue := a.startValue, endValue := a.endValue) == a
      && b.endValue == (if a.endValue.None? || a.endOnRun then Some(Getter(p, a.prop)) else a.endValue)
  {
    FactoryStepRaises(a, Getter(p, a.prop), rate);
    FactoryStepAnim(a, Getter(p, a.prop), rate);
  }

  /** `FactoryRun` for the animation alone: when `start()` raises. */
  lemma FactoryStepRaises(a: Anim, got: Value, rate: Option<real>)
    requires a.delay == 0 && a.framerate.None? && (a.startValue.None? || a.startOnRun)
    requires a.endValue.None? || a.endOnRun || KindOf(a.endValue.value) == KindOf(got)
    ensures Run(a, got, rate).raised.Some? <==> a.duration > 0 && rate == Some(0.0)
    ensures Run(a, got, rate).raised.Some? ==> Run(a, got, rate).raised.value == ZeroDivision
  {
  }

  /** `FactoryRun` for the animation alone: the state `start()` leaves. */
  lemma FactoryStepAnim(a: Anim, got: Value, rate: Option<real>)
    requires Interpolable(got)
    requires a.delay == 0 && a.framerate.None? && (a.startValue.None? || a.startOnRun)
    requires a.endValue.None? || a.endOnRun || KindOf(a.endValue.value) == KindOf(got)
    ensures Run(a, got, rate).raised.None? ==>
      var b := Run(a, got, rate).anim;
      && (b.IsRunning() <==> a.duration > 0) && (a.duration > 0 ==> Ticking(b))
      && b.(phase := a.phase, startValue := a.startValue, endValue := a.endValue) == a
      && b.endValue == (if a.endValue.None? || a.endOnRun then Some(got) else a.endValue)
  {
  }

  /** A factory animation with a positive duration applies nothing when it
      starts, and the default animation's setter writes nowhere. */
  lemma FactoryRunKeepsPlace(p: Popup, s: Slot, a: Anim, rate: Option<real>, popupDuration: int)
    requires FromFactory(a, p)
    ensures RunIn(p, s, a, rate, popupDuration).Success? && (a.duration > 0 || a.prop == Unbound) ==>
      var q := RunIn(p, s, a, rate, popupDuration).value;
      q.pos == p.pos && q.opacity == p.opacity
  {
    var st := Run(a, Getter(p, a.prop), rate);
    if st.raised.None? && (a.duration > 0 || a.prop == Unbound) {
      ApplyEffectsKeepsPlace(WithSlot(p, s, st.anim), a.prop, st.effects, popupDuration);
    }
  }

  /** Effects that neither finish nor move or fade the window change nothing. */
  lemma {:induction false} ApplyEffectsKeepsPlace(p: Popup, prop: Prop, effects: seq<Effect>, popupDuration: int)
    requires forall k :: 0 <= k < |effects| ==> !effects[k].Finished? && (prop == Unbound || !effects[k].Applied?)
    ensures ApplyEffects(p, prop, effects, popupDuration) == p
    decreases |effects|
  {
    if effects != [] {
      assert ApplyEffect(p, prop, effects[0], popupDuration) == p;
      ApplyEffectsKeepsPlace(p, prop, effects[1..], popupDuration);
    }
  }

  /** The three factories used by `show_animation` and `hide_animation`, and
      the shift factory, all build such animations. */
  lemma FactoriesWellTyped(ps: seq<Popup>, i: nat, cfg: Settings, p: Popup)
    requires i < |ps|
    ensures FromFactory(FadeInAnim(cfg).(onFinished := Some(ShowAnimationEnd)), p)
    ensures FromFactory(FadeOutAnim(cfg).(onFinished := Some(HideWindow)), p)
    ensures FromFactory(SlideInAnim(ps, i, cfg), p)
    ensures FromFactory(SlideOutAnim(p, cfg), p)
    ensures FromFactory(ShiftAnim(ps, i, cfg), p)
  {
  }

  /** A fresh fade-in has been started: the dismiss timer is stopped, and
      the fade-in, towards the configured transparency, activates the popup
      when it ends; it is left ticking exactly when the show duration is
      positive. */
  predicate FadingIn(p: Popup, cfg: Settings) {
    && p.hideTimer.None? && p.fadeIn.onFinished == Some(ShowAnimationEnd)
    && p.fadeIn.prop == WindowOpacity && p.fadeIn.duration == cfg.popupShowDuration
    && p.fadeIn.endValue == Some(FloatNum(cfg.popupTransparency as real / 100.0))
    && (p.fadeIn.IsRunning() <==> cfg.popupShowDuration > 0)
    && (cfg.popupShowDuration > 0 ==> Ticking(p.fadeIn))
  }

  /** The fade-in half of `show_animation`: a fade-in that is not running
      is replaced by a fresh one that activates the popup when it ends, and
      the dismiss timer is stopped; a running one is left alone. */
  function RestartFadeIn(p: Popup, cfg: Settings, rate: Option<real>): (r: Result<Popup, Error>)
    ensures r.Failure? ==> r.error == ZeroDivision && rate == Some(0.0) && cfg.popupShowDuration > 0
    ensures (rate != Some(0.0) || cfg.popupShowDuration <= 0) ==> r.Success?
    ensures r.Success? ==> SameIdentity(p, r.value)
    ensures r.Success? ==> OthersKept(p, r.value, FadeInSlot)
    ensures r.Success? && !p.fadeIn.IsRunning() ==> FadingIn(r.value, cfg)
    ensures r.Success? && cfg.popupShowDuration > 0 ==> r.value.pos == p.pos
    ensures p.fadeIn.IsRunning() ==> r == Success(p)
  {
    if p.fadeIn.IsRunning() then Success(p)
    else
      var fadeIn := FadeInAnim(cfg).(onFinished := Some(ShowAnimationEnd));
      var p0 := p.(hideTimer := None);
      FactoriesWellTyped([p0], 0, cfg, p0);
      FactoryRun(p0, FadeInSlot, fadeIn, rate, cfg.popupDuration);
      FactoryRunKeepsPlace(p0, FadeInSlot, fadeIn, rate, cfg.popupDuration);
      RunIn(p0, FadeInSlot, fadeIn, rate, cfg.popupDuration)
  }

  /** The slide-in half: a slide-in that is not running is replaced by a
      fresh one towards the target of popup `i`, whose state is now `p`. */
  function RestartSlideIn(ps: seq<Popup>, i: nat, p: Popup, cfg: Settings, rate: Option<real>): (r: Result<Popup, Error>)
    requires i < |ps|
    ensures r.Failure? ==> r.error == ZeroDivision && rate == Some(0.0) && cfg.popupShowDuration > 0
    ensures (rate != Some(0.0) || cfg.popupShowDuration <= 0) ==> r.Success?
    ensures r.Success? ==> SameIdentity(p, r.value) && r.value.hideTimer == p.hideTimer
    ensures r.Success? ==> OthersKept(p, r.value, SlideInSlot)
    ensures r.Success? && cfg.popupShowDuration > 0 ==> r.value.pos == p.pos
    ensures p.slideIn.IsRunning() ==> r == Success(p)
  {
    if p.slideIn.IsRunning() then Success(p)
    else
      var slideIn := SlideInAnim(ps[i := p], i, cfg);
      FactoriesWellTyped(ps[i := p], i, cfg, p);
      FactoryRun(p, SlideInSlot, slideIn, rate, cfg.popupDuration);
      FactoryRunKeepsPlace(p, SlideInSlot, slideIn, rate, cfg.popupDuration);
      RunIn(p, SlideInSlot, slideIn, rate, cfg.popupDuration)
  }

  /** The three steps of `show_animation`, chained. */
  function ShowSteps(ps: seq<Popup>, i: nat, cfg: Settings, rate: Option<real>): Result<Popup, Error>
    requires i < |ps|
  {
    var p1 := StopIn(StopIn(ps[i], FadeOutSlot), SlideOutSlot);
    match RestartFadeIn(p1, cfg, rate)
    case Failure(e) => Failure(e)
    case Success(p2) => RestartSlideIn(ps, i, p2, cfg, rate)
  }

  /** When the steps fail, and that the hide animations end up stopped. */
  lemma ShowStepsOutcome(ps: seq<Popup>, i: nat, cfg: Settings, rate: Option<real>)
    requires i < |ps|
    ensures var r := ShowSteps(ps, i, cfg, rate);
      && (r.Failure? ==> r.error == ZeroDivision && rate == Some(0.0) && cfg.popupShowDuration > 0)
      && ((rate != Some(0.0) || cfg.popupShowDuration <= 0) ==> r.Success?)
      && (r.Success? ==> SameIdentity(ps[i], r.value))
      && (r.Success? ==> !r.value.fadeOut.IsRunning() && !r.value.slideOut.IsRunning())
  {
    var p0 := StopIn(ps[i], FadeOutSlot);
    var p1 := StopIn(p0, SlideOutSlot);
    assert !p1.fadeOut.IsRunning() && !p1.slideOut.IsRunning() by {
      assert SlotAnim(p0, FadeOutSlot) == p0.fadeOut;
      assert SlotAnim(p1, SlideOutSlot) == p1.slideOut;
    }
    match RestartFadeIn(p1, cfg, rate)
    case Failure(_) =>
    case Success(p2) =>
      assert p2.fadeOut == p1.fadeOut && p2.slideOut == p1.slideOut;
      var r := RestartSlideIn(ps, i, p2, cfg, rate);
      assert r.Success? ==> r.value.fadeOut == p2.fadeOut && r.value.slideOut == p2.slideOut;
  }

  /** What the steps do to the show animations and the place. */
  lemma ShowStepsAnims(ps: seq<Popup>, i: nat, cfg: Settings, rate: Option<real>)
    requires i < |ps|
    ensures var r := ShowSteps(ps, i, cfg, rate);
      && (r.Success? && !ps[i].fadeIn.IsRunning() ==> FadingIn(r.value, cfg))
      && (r.Success? ==> r.value.shift == ps[i].shift)
      && (r.Success? && cfg.popupShowDuration > 0 ==> r.value.pos == ps[i].pos)
      && (r.Success? && ps[i].fadeIn.IsRunning() ==>
            r.value.fadeIn == ps[i].fadeIn && r.value.hideTimer == ps[i].hideTimer)
      && (r.Success? && ps[i].slideIn.IsRunning() ==> r.value.slideIn == ps[i].slideIn)
  {
  }

  /** `show_animation` on popup `i` of the registry `ps`: fade-out and
      slide-out are stopped without their callbacks, so a hide in progress
      never completes; fade-in and slide-in restart only if not running. */
  function ShowAnimation(ps: seq<Popup>, i: nat, cfg: Settings, rate: Option<real>): (r: Result<Popup, Error>)
    requires i < |ps|
    ensures r.Failure? ==> r.error == ZeroDivision && rate == Some(0.0) && cfg.popupShowDuration > 0
    ensures (rate != Some(0.0) || cfg.popupShowDuration <= 0) ==> r.Success?
    ensures r.Success? ==> SameIdentity(ps[i], r.value)
    ensures r.Success? ==> !r.value.fadeOut.IsRunning() && !r.value.slideOut.IsRunning()
    ensures r.Success? && !ps[i].fadeIn.IsRunning() ==> FadingIn(r.value, cfg)
    ensures r.Success? ==> r.value.shift == ps[i].shift
    ensures r.Success? && cfg.popupShowDuration > 0 ==> r.value.pos == ps[i].pos
    ensures r.Success? && ps[i].fadeIn.IsRunning() ==>
      r.value.fadeIn == ps[i].fadeIn && r.value.hideTimer == ps[i].hideTimer
    ensures r.Success? && ps[i].slideIn.IsRunning() ==> r.value.slideIn == ps[i].slideIn
  {
    ShowStepsOutcome(ps, i, cfg, rate);
    ShowStepsAnims(ps, i, cfg, rate);
    ShowSteps(ps, i, cfg, rate)
  }

  /** Hovering a stay-on-hover popup protects it from being hidden. */
  predicate Hovered(p: Popup) {
    p.stayOnHover && p.mouseOver
  }

  /** Only popup `i` may differ between the two states, and the manager's
      own fields are kept. */
  predicate OnlyChanges(m: Manager, r: Manager, i: nat) {
    && |r.popups| == |m.popups| && i < |m.popups| && r.popups == m.popups[i := r.popups[i]]
    && r.block == m.block && r.cfg == m.cfg && r.screenRate == m.screenRate
  }

  /** The fade-out half of `hide_animation`, after deactivation. */
  function StartFadeOut(p: Popup, cfg: Settings, rate: Option<real>): (r: Result<Popup, Error>)
    ensures r.Failure? ==> r.error == ZeroDivision && rate == Some(0.0) && cfg.popupShowDuration > 0
    ensures (rate != Some(0.0) || cfg.popupShowDuration <= 0) ==> r.Success?
    ensures r.Success? ==> SameIdentity(p, r.value) && r.value.hideTimer == p.hideTimer
    ensures r.Success? ==> OthersKept(p, r.value, FadeOutSlot)
    ensures r.Success? ==> FadingOut(r.value, cfg)
  {
    var fadeOut := FadeOutAnim(cfg).(onFinished := Some(HideWindow));
    FactoriesWellTyped([p], 0, cfg, p);
    FactoryRun(p, FadeOutSlot, fadeOut, rate, cfg.popupDuration);
    RunIn(p, FadeOutSlot, fadeOut, rate, cfg.popupDuration)
  }

  /** A fresh fade-out towards full transparency, ending in `hide()`; it is
      left ticking exactly when the show duration is positive. */
  predicate FadingOut(p: Popup, cfg: Settings) {
    && p.fadeOut.onFinished == Some(HideWindow) && p.fadeOut.prop == WindowOpacity
    && p.fadeOut.endValue == Some(FloatNum(0.0)) && p.fadeOut.duration == 2 * cfg.popupShowDuration
    && (p.fadeOut.IsRunning() <==> cfg.popupShowDuration > 0)
    && (cfg.popupShowDuration > 0 ==> Ticking(p.fadeOut))
  }

  /** The slide-out half: a fresh slide-out is always installed, and run only
      for a popup that slides when hiding. */
  function StartSlideOut(p: Popup, cfg: Settings, rate: Option<real>): (r: Result<Popup, Error>)
    ensures r.Failure? ==> r.error == ZeroDivision && rate == Some(0.0) && cfg.popupShowDuration > 0
    ensures (rate != Some(0.0) || cfg.popupShowDuration <= 0) ==> r.Success?
    ensures r.Success? ==> SameIdentity(p, r.value) && r.value.hideTimer == p.hideTimer
    ensures r.Success? ==> OthersKept(p, r.value, SlideOutSlot)
    ensures r.Success? ==>
      (r.value.slideOut.IsRunning() <==> p.hideSlide && cfg.animation && HasAnchor(p) && cfg.popupShowDuration > 0)
  {
    var slideOut := SlideOutAnim(p, cfg);
    FactoriesWellTyped([p], 0, cfg, p);
    FactoryRun(p, SlideOutSlot, slideOut, rate, cfg.popupDuration);
    if p.hideSlide then RunIn(p, SlideOutSlot, slideOut, rate, cfg.popupDuration)
    else Success(WithSlot(p, SlideOutSlot, slideOut))
  }

  /** `hide_animation`: vetoed while a stay-on-hover popup is hovered;
      otherwise the popup is deactivated, a fresh fade-out ending in `hide()`
      is run, and a fresh slide-out is installed and run only for popups
      that slide when hiding. */
  function HideAnimation(m: Manager, i: nat): (r: Result<Manager, Error>)
    requires i < |m.popups|
    ensures Hovered(m.popups[i]) ==> r == Success(m)
    ensures r.Failure? ==> r.error == ZeroDivision && m.screenRate == Some(0.0) && m.cfg.popupShowDuration > 0
    ensures (m.screenRate != Some(0.0) || m.cfg.popupShowDuration <= 0) ==> r.Success?
    ensures r.Success? ==> OnlyChanges(m, r.value, i)
    ensures r.Success? && !Hovered(m.popups[i]) ==>
      var p := m.popups[i];
      var q := r.value.popups[i];
      && !q.isActive && q.visible == p.visible && q.hideTimer == p.hideTimer && FadingOut(q, m.cfg)
      && (q.slideOut.IsRunning() <==> p.hideSlide && m.cfg.animation && HasAnchor(p) && m.cfg.popupShowDuration > 0)
  {
    var p := m.popups[i];
    if Hovered(p) then Success(m)
    else
      match StartFadeOut(p.(isActive := false), m.cfg, m.screenRate)
      case Failure(e) => Failure(e)
      case Success(p2) =>
        match StartSlideOut(p2, m.cfg, m.screenRate)
        case Failure(e) => Failure(e)
        case Success(q) =>
          assert SlotAnim(q, FadeOutSlot) == SlotAnim(p2, FadeOutSlot);
          Success(m.(popups := m.popups[i := q]))
  }

  /** `enterEvent`: an active stay-on-hover popup stops its dismiss timer;
      every popup records the pointer. */
  function Enter(m: Manager, i: nat): (r: Manager)
    requires i < |m.popups|
    ensures OnlyChanges(m, r, i) && r.popups[i].mouseOver
    ensures m.popups[i].isActive && m.popups[i].stayOnHover ==> r.popups[i].hideTimer.None?
    ensures !(m.popups[i].isActive && m.popups[i].stayOnHover) ==> r.popups[i].hideTimer == m.popups[i].hideTimer
    ensures r.popups[i].(mouseOver := m.popups[i].mouseOver, hideTimer := m.popups[i].hideTimer) == m.popups[i]
  {
    var p := m.popups[i];
    var p1 := if p.isActive && p.stayOnHover then p.(hideTimer := None) else p;
    m.(popups := m.popups[i := p1.(mouseOver := true)])
  }

  /** `leaveEvent`: an active stay-on-hover popup re-arms its dismiss timer
      for the full popup duration; every popup records the pointer leaving. */
  function Leave(m: Manager, i: nat): (r: Manager)
    requires i < |m.popups|
    ensures OnlyChanges(m, r, i) && !r.popups[i].mouseOver
    ensures m.popups[i].isActive && m.popups[i].stayOnHover ==> r.popups[i].hideTimer == Some(m.cfg.popupDuration)
    ensures !(m.popups[i].isActive && m.popups[i].stayOnHover) ==> r.popups[i].hideTimer == m.popups[i].hideTimer
    ensures r.popups[i].(mouseOver := m.popups[i].mouseOver, hideTimer := m.popups[i].hideTimer) == m.popups[i]
  {
    var p := m.popups[i];
    var p1 := if p.isActive && p.stayOnHover then p.(hideTimer := Some(m.cfg.popupDuration)) else p;
    m.(popups := m.popups[i := p1.(mouseOver := false)])
  }

  /** While the pointer rests on a stay-on-hover popup, a hide request
      changes nothing. */
  lemma HoverVetoesHide(m: Manager, i: nat)
    requires i < |m.popups| && m.popups[i].stayOnHover
    ensures HideAnimation(Enter(m, i), i) == Success(Enter(m, i))
  {
  }

  /** Entering and leaving an active stay-on-hover popup restarts its
      dismiss countdown from the full duration and changes nothing else. */
  lemma HoverRearms(m: Manager, i: nat)
    requires i < |m.popups| && m.popups[i].isActive && m.popups[i].stayOnHover && !m.popups[i].mouseOver
    ensures Leave(Enter(m, i), i) == m.(popups := m.popups[i := m.popups[i].(hideTimer := Some(m.cfg.popupDuration))])
  {
    var p := m.popups[i];
    var r := Leave(Enter(m, i), i);
    assert r.popups[i] == p.(hideTimer := Some(m.cfg.popupDuration));
    assert r.popups == m.popups[i := p.(hideTimer := Some(m.cfg.popupDuration))];
  }

  /** The dismiss timer firing: a single shot, then `hide_animation`. A timer
      that is not armed never fires. */
  function TimerFired(m: Manager, i: nat): (r: Result<Manager, Error>)
    requires i < |m.popups|
    ensures m.popups[i].hideTimer.None? ==> r == Success(m)
    ensures r.Success? ==> OnlyChanges(m, r.value, i)
    ensures r.Success? && m.popups[i].hideTimer.Some? ==> r.value.popups[i].hideTimer.None?
    ensures r.Success? && m.popups[i].hideTimer.Some? && !Hovered(m.popups[i]) ==> !r.value.popups[i].isActive
  {
    var p := m.popups[i];
    if p.hideTimer.None? then Success(m)
    else HideAnimation(m.(popups := m.popups[i := p.(hideTimer := None)]), i)
  }

  /** One timer tick of the animation in slot `s` of popup `i`. */
  function TickSlot(m: Manager, i: nat, s: Slot, elapsed: nat): (r: Result<Manager, Error>)
    requires i < |m.popups|
    ensures !SlotAnim(m.popups[i], s).IsRunning() ==> r == Success(m)
    ensures r.Success? ==> OnlyChanges(m, r.value, i)
  {
    var p := m.popups[i];
    var a := SlotAnim(p, s);
    var st := Tick(a, elapsed);
    if !a.IsRunning() then Success(m)
    else if st.raised.Some? then Failure(st.raised.value)
    else
      Success(m.(popups := m.popups[i := ApplyEffects(WithSlot(p, s, st.anim), a.prop, st.effects, m.cfg.popupDuration)]))
  }

  /** The fade-in's last tick: the popup reaches the configured opacity,
      becomes active and arms its dismiss timer for the popup duration. */
  lemma FadeInCompletes(m: Manager, i: nat, elapsed: nat)
    requires i < |m.popups| && FadingIn(m.popups[i], m.cfg) && m.cfg.popupShowDuration > 0
    requires elapsed >= m.cfg.popupShowDuration
    ensures TickSlot(m, i, FadeInSlot, elapsed).Success?
    ensures var q := TickSlot(m, i, FadeInSlot, elapsed).value.popups[i];
      && q.isActive && q.hideTimer == Some(m.cfg.popupDuration) && !q.fadeIn.IsRunning()
      && q.opacity == m.cfg.popupTransparency as real / 100.0 && q.visible == m.popups[i].visible
  {
    var p := m.popups[i];
    var a := p.fadeIn;
    InterpolateEndpoints(a.startValue.value, a.endValue.value);
    assert Progress(elapsed, a.duration) == 1.0;
    assert Current(a, 1.0) == Success(AsInterpolated(a.endValue.value));
    var st := Tick(a, elapsed);
    assert st.effects == [Applied(AsInterpolated(a.endValue.value)), Finished(ShowAnimationEnd)];
    var p1 := WithSlot(p, FadeInSlot, st.anim);
    var p2 := ApplyEffect(p1, WindowOpacity, st.effects[0], m.cfg.popupDuration);
    assert st.effects[1..] == [Finished(ShowAnimationEnd)];
    assert ApplyEffects(p1, WindowOpacity, st.effects, m.cfg.popupDuration)
      == ApplyEffects(p2, WindowOpacity, [Finished(ShowAnimationEnd)], m.cfg.popupDuration);
    assert [Finished(ShowAnimationEnd)][1..] == [];
  }

  /** The fade-out's last tick: the popup is fully transparent and hidden. */
  lemma FadeOutCompletes(m: Manager, i: nat, elapsed: nat)
    requires i < |m.popups| && FadingOut(m.popups[i], m.cfg) && m.cfg.popupShowDuration > 0
    requires elapsed >= 2 * m.cfg.popupShowDuration
    ensures TickSlot(m, i, FadeOutSlot, elapsed).Success?
    ensures var q := TickSlot(m, i, FadeOutSlot, elapsed).value.popups[i];
      !q.visible && q.opacity == 0.0 && !q.fadeOut.IsRunning() && q.isActive == m.popups[i].isActive
  {
    var p := m.popups[i];
    var a := p.fadeOut;
    InterpolateEndpoints(a.startValue.value, a.endValue.value);
    assert Progress(elapsed, a.duration) == 1.0;
    assert Current(a, 1.0) == Success(AsInterpolated(a.endValue.value));
    var st := Tick(a, elapsed);
    assert st.effects == [Applied(FloatNum(0.0)), Finished(HideWindow)];
    var p1 := WithSlot(p, FadeOutSlot, st.anim);
    var p2 := ApplyEffect(p1, WindowOpacity, st.effects[0], m.cfg.popupDuration);
    assert st.effects[1..] == [Finished(HideWindow)];
    assert ApplyEffects(p1, WindowOpacity, st.effects, m.cfg.popupDuration)
      == ApplyEffects(p2, WindowOpacity, [Finished(HideWindow)], m.cfg.popupDuration);
    assert [Finished(HideWindow)][1..] == [];
  }

  /** `show_animation` stops fade-out and slide-out for good: whatever ticks
      follow, a hide already under way never reaches `hide()`. */
  lemma ShowCancelsHide(ps: seq<Popup>, i: nat, cfg: Settings, rate: Option<real>, times: seq<nat>)
    requires i < |ps| && ShowAnimation(ps, i, cfg, rate).Success?
    ensures Ticks(ShowAnimation(ps, i, cfg, rate).value.fadeOut, times).effects == []
    ensures Ticks(ShowAnimation(ps, i, cfg, rate).value.slideOut, times).effects == []
  {
    var q := ShowAnimation(ps, i, cfg, rate).value;
    TicksWhenStopped(q.fadeOut, times);
    TicksWhenStopped(q.slideOut, times);
  }

  /** With a show duration of zero or less, nothing ever finishes: the
      fade-in jumps to its opacity without activating the popup (so no
      dismiss timer is armed), and a hide jumps to full transparency while
      the window stays shown. */
  lemma ZeroShowDuration(m: Manager, i: nat)
    requires i < |m.popups| && m.cfg.popupShowDuration <= 0
    ensures var r := ShowAnimation(m.popups, i, m.cfg, m.screenRate);
      && r.Success? && r.value.isActive == m.popups[i].isActive
      && (!m.popups[i].fadeIn.IsRunning() ==> !r.value.fadeIn.IsRunning() && r.value.hideTimer.None?)
    ensures var r := HideAnimation(m, i);
      && r.Success? && r.value.popups[i].visible == m.popups[i].visible
      && (!Hovered(m.popups[i]) ==> !r.value.popups[i].fadeOut.IsRunning())
  {
  }

  /** Popup `j` is re-stacked when popup `i` is shown: another active popup
      with the same anchor. */
  predicate Shifted(ps: seq<Popup>, i: nat, j: nat)
    requires i < |ps| && j < |ps|
  {
    j != i && ps[j].isActive && ps[j].anchor == ps[i].anchor
  }

  /** `shift_popup` while the guard is set: a hidden popup is left alone; a
      shown one stops its old shift and runs the new one towards its target,
      then re-enters `_show_popup`, which for a shown popup under the guard
      only runs `show_animation` (see `ReentryIsShowAnimation`). */
  function ShiftPopup(m: Manager, k: nat): (r: Result<Manager, Error>)
    requires k < |m.popups| && m.block
    ensures r.Failure? ==> r.error == ZeroDivision && m.screenRate == Some(0.0) && m.cfg.popupShowDuration > 0
    ensures (m.screenRate != Some(0.0) || m.cfg.popupShowDuration <= 0) ==> r.Success?
    ensures !m.popups[k].visible ==> r == Success(m)
    ensures r.Success? ==> OnlyChanges(m, r.value, k) && SameIdentity(m.popups[k], r.value.popups[k])
    ensures r.Success? && m.popups[k].visible ==>
      var q := r.value.popups[k];
      var t := TargetPosition(m.popups, k, m.cfg.taskbar);
      && q.shift.endValue == Some(Point(t.x, t.y)) && (q.shift.IsRunning() <==> m.cfg.popupShowDuration > 0)
      && !q.fadeOut.IsRunning() && !q.slideOut.IsRunning()
      && (!m.popups[k].fadeIn.IsRunning() ==> FadingIn(q, m.cfg))
  {
    var p := m.popups[k];
    if !p.visible then Success(m)
    else
      var shift := ShiftAnim(m.popups, k, m.cfg);
      var p1 := StopIn(p, ShiftSlot);
      FactoriesWellTyped(m.popups, k, m.cfg, p1);
      FactoryRun(p1, ShiftSlot, shift, m.screenRate, m.cfg.popupDuration);
      match RunIn(p1, ShiftSlot, shift, m.screenRate, m.cfg.popupDuration)
      case Failure(e) => Failure(e)
      case Success(p2) =>
        assert SlotAnim(p2, FadeInSlot) == SlotAnim(p1, FadeInSlot) == SlotAnim(p, FadeInSlot);
        match ShowAnimation(m.popups[k := p2], k, m.cfg, m.screenRate)
        case Failure(e) => Failure(e)
        case Success(q) => Success(m.(popups := m.popups[k := q]))
  }

  /** The loop of `update_popups` from registry index `k` on, under the
      guard: each popup re-stacked by the show of `i` is shifted, and every
      other popup is left exactly as it was. */
  function ShiftLoop(m: Manager, i: nat, k: nat): (r: Result<Manager, Error>)
    requires m.block && i < |m.popups| && k <= |m.popups|
    ensures r.Failure? ==> r.error == ZeroDivision && m.screenRate == Some(0.0) && m.cfg.popupShowDuration > 0
    ensures (m.screenRate != Some(0.0) || m.cfg.popupShowDuration <= 0) ==> r.Success?
    ensures r.Success? ==> && |r.value.popups| == |m.popups| && r.value.block
                           && r.value.cfg == m.cfg && r.value.screenRate == m.screenRate
    ensures r.Success? ==> forall j :: 0 <= j < |m.popups| ==> SameIdentity(m.popups[j], r.value.popups[j])
    ensures r.Success? ==> forall j :: 0 <= j < |m.popups| && !(k <= j && Shifted(m.popups, i, j)) ==>
      r.value.popups[j] == m.popups[j]
    decreases |m.popups| - k
  {
    if k == |m.popups| then Success(m)
    else if !Shifted(m.popups, i, k) then ShiftLoop(m, i, k + 1)
    else
      match ShiftPopup(m, k)
      case Failure(e) => Failure(e)
      case Success(m1) =>
        ShiftKeepsStacking(m, m1, i, k);
        var r := ShiftLoop(m1, i, k + 1);
        ShiftThenLoop(m, m1, r, i, k);
        r
  }

  /** Shifting popup `k` and then the rest of the loop changes only the
      popups from `k` on that the show of `i` re-stacks. */
  lemma ShiftThenLoop(m: Manager, m1: Manager, r: Result<Manager, Error>, i: nat, k: nat)
    requires i < |m.popups| && k < |m.popups| && Shifted(m.popups, i, k) && |m1.popups| == |m.popups|
    requires forall j :: 0 <= j < |m.popups| && j != k ==> m1.popups[j] == m.popups[j]
    requires forall j :: 0 <= j < |m.popups| ==> SameIdentity(m.popups[j], m1.popups[j])
    requires forall j :: 0 <= j < |m.popups| ==> (Shifted(m1.popups, i, j) <==> Shifted(m.popups, i, j))
    requires r.Success? ==> |r.value.popups| == |m1.popups|
    requires r.Success? ==> forall j :: 0 <= j < |m1.popups| ==> SameIdentity(m1.popups[j], r.value.popups[j])
    requires r.Success? ==> forall j :: 0 <= j < |m1.popups| && !(k + 1 <= j && Shifted(m1.popups, i, j)) ==>
      r.value.popups[j] == m1.popups[j]
    ensures r.Success? ==> forall j :: 0 <= j < |m.popups| ==> SameIdentity(m.popups[j], r.value.popups[j])
    ensures r.Success? ==> forall j :: 0 <= j < |m.popups| && !(k <= j && Shifted(m.popups, i, j)) ==>
      r.value.popups[j] == m.popups[j]
  {
  }

  /** Shifting popup `k` changes none of what decides which popups the show
      of `i` re-stacks. */
  lemma ShiftKeepsStacking(m: Manager, m1: Manager, i: nat, k: nat)
    requires i < |m.popups| && k != i && OnlyChanges(m, m1, k) && SameIdentity(m.popups[k], m1.popups[k])
    ensures m1.popups[i] == m.popups[i]
    ensures forall j :: 0 <= j < |m.popups| && j != k ==> m1.popups[j] == m.popups[j]
    ensures forall j :: 0 <= j < |m.popups| ==> SameIdentity(m.popups[j], m1.popups[j])
    ensures forall j :: 0 <= j < |m.popups| ==> (Shifted(m1.popups, i, j) <==> Shifted(m.popups, i, j))
  {
    assert forall j :: 0 <= j < |m.popups| && j != k ==> m1.popups[j] == m.popups[j];
  }

  /** `update_popups`: a no-op while the guard is set; otherwise the guard
      is raised, every other active popup with the same anchor is shifted,
      and the guard is lowered again. No other popup changes. */
  function UpdatePopups(m: Manager, i: nat): (r: Result<Manager, Error>)
    requires i < |m.popups|
    ensures m.block ==> r == Success(m)
    ensures r.Failure? ==> r.error == ZeroDivision && m.screenRate == Some(0.0) && m.cfg.popupShowDuration > 0
    ensures (m.screenRate != Some(0.0) || m.cfg.popupShowDuration <= 0) ==> r.Success?
    ensures r.Success? ==> && |r.value.popups| == |m.popups| && r.value.block == m.block
                           && r.value.cfg == m.cfg && r.value.screenRate == m.screenRate
    ensures r.Success? ==> forall j :: 0 <= j < |m.popups| ==> SameIdentity(m.popups[j], r.value.popups[j])
    ensures r.Success? ==> forall j :: 0 <= j < |m.popups| && !Shifted(m.popups, i, j) ==>
      r.value.popups[j] == m.popups[j]
  {
    if m.block then Success(m)
    else
      match ShiftLoop(m.(block := true), i, 0)
      case Failure(e) => Failure(e)
      case Success(m1) => Success(m1.(block := false))
  }

  /** `update_screen_position`: each popup kind reads its anchor from its own
      setting; the cursor popup does not override it and keeps its anchor. */
  function AnchorFor(p: Popup, cfg: Settings): Option<string> {
    match p.kind
    case KeyboardPopup => Some(cfg.keyboardWindowPosition)
    case VolumePopup => Some(cfg.volumeWindowPosition)
    case MediaPopup => Some(cfg.mediaWindowPosition)
    case CursorPopup => p.anchor
  }

  /** The anchor a popup has once `_show_popup` has run on it. */
  function ShownAnchor(p: Popup, cfg: Settings): Option<string> {
    if p.visible then p.anchor else AnchorFor(p, cfg)
  }

  /** The first half of `_show_popup` on a hidden popup: the anchor is read,
      the popup is moved to its start position and shown. */
  function Reveal(m: Manager, i: nat): (r: Manager)
    requires i < |m.popups|
    ensures OnlyChanges(m, r, i) && r.popups[i].visible
    ensures r.popups[i].anchor == AnchorFor(m.popups[i], m.cfg)
    ensures var u := m.popups[i].(anchor := AnchorFor(m.popups[i], m.cfg));
      r.popups[i] == u.(pos := StartPosition(m.popups[i := u], i, m.cfg), visible := true)
  {
    var u := m.popups[i].(anchor := AnchorFor(m.popups[i], m.cfg));
    var ps := m.popups[i := u];
    m.(popups := ps[i := u.(pos := StartPosition(ps, i, m.cfg), visible := true)])
  }

  /** The second half of `_show_popup`: `update_popups`, then
      `show_animation` on the registry as the re-stack left it. */
  function RestackAndAnimate(m: Manager, i: nat): (r: Result<Manager, Error>)
    requires i < |m.popups|
    ensures r.Failure? ==> r.error == ZeroDivision && m.screenRate == Some(0.0) && m.cfg.popupShowDuration > 0
    ensures (m.screenRate != Some(0.0) || m.cfg.popupShowDuration <= 0) ==> r.Success?
    ensures r.Success? ==> && |r.value.popups| == |m.popups| && r.value.block == m.block
                           && r.value.cfg == m.cfg && r.value.screenRate == m.screenRate
    ensures r.Success? ==>
      var p := m.popups[i];
      var q := r.value.popups[i];
      && SameIdentity(p, q) && !q.fadeOut.IsRunning() && !q.slideOut.IsRunning()
      && (!p.fadeIn.IsRunning() ==> FadingIn(q, m.cfg))
      && (m.cfg.popupShowDuration > 0 ==> q.pos == p.pos)
    ensures r.Success? ==> forall j :: 0 <= j < |m.popups| ==> SameIdentity(m.popups[j], r.value.popups[j])
    ensures r.Success? ==> forall j :: 0 <= j < |m.popups| && j != i && !Shifted(m.popups, i, j) ==>
      r.value.popups[j] == m.popups[j]
  {
    match UpdatePopups(m, i)
    case Failure(e) => Failure(e)
    case Success(m2) =>
      assert m2.popups[i] == m.popups[i];
      match ShowAnimation(m2.popups, i, m2.cfg, m2.screenRate)
      case Failure(e) => Failure(e)
      case Success(q) => Success(m2.(popups := m2.popups[i := q]))
  }

  /** Popup `j` is re-stacked by `_show_popup` of popup `i`. */
  predicate Restacked(m: Manager, i: nat, j: nat)
    requires i < |m.popups| && j < |m.popups|
  {
    j != i && m.popups[j].isActive && m.popups[j].anchor == ShownAnchor(m.popups[i], m.cfg)
  }

  /** `_show_popup`: a hidden popup is anchored, placed and shown; then the
      other active popups at its anchor are re-stacked and the show
      animation runs. The popup ends up shown with any hide cancelled; the
      popups that are not re-stacked are untouched. */
  function ShowPopup(m: Manager, i: nat): (r: Result<Manager, Error>)
    requires i < |m.popups|
    ensures r.Failure? ==> r.error == ZeroDivision && m.screenRate == Some(0.0) && m.cfg.popupShowDuration > 0
    ensures (m.screenRate != Some(0.0) || m.cfg.popupShowDuration <= 0) ==> r.Success?
    ensures r.Success? ==> && |r.value.popups| == |m.popups| && r.value.block == m.block
                           && r.value.cfg == m.cfg && r.value.screenRate == m.screenRate
    ensures r.Success? ==>
      var p := m.popups[i];
      var q := r.value.popups[i];
      && q.visible && q.anchor == ShownAnchor(p, m.cfg) && !q.fadeOut.IsRunning() && !q.slideOut.IsRunning()
      && q.isActive == p.isActive && q.mouseOver == p.mouseOver && q.order == p.order
      && q.kind == p.kind && q.width == p.width && q.height == p.height
      && (!p.fadeIn.IsRunning() ==> FadingIn(q, m.cfg))
    ensures r.Success? ==> forall j :: 0 <= j < |m.popups| && j != i ==> SameIdentity(m.popups[j], r.value.popups[j])
    ensures r.Success? ==> forall j :: 0 <= j < |m.popups| && !Restacked(m, i, j) && j != i ==>
      r.value.popups[j] == m.popups[j]
  {
    var m1 := if m.popups[i].visible then m else Reveal(m, i);
    assert m1.popups[i].fadeIn == m.popups[i].fadeIn;
    assert forall j :: 0 <= j < |m.popups| && j != i ==> m1.popups[j] == m.popups[j];
    assert forall j :: 0 <= j < |m.popups| ==> (Shifted(m1.popups, i, j) <==> Restacked(m, i, j));
    RestackAndAnimate(m1, i)
  }

  /** With a positive show duration, a hidden popup is shown at its start
      position: the slide offset away from its target when animation is on,
      the target itself otherwise; the slide-in takes it from there. */
  lemma ShowPlacesHidden(m: Manager, i: nat)
    requires i < |m.popups| && !m.popups[i].visible
    requires m.cfg.popupShowDuration > 0 && m.screenRate != Some(0.0)
    ensures ShowPopup(m, i).Success?
    ensures var u := m.popups[i].(anchor := AnchorFor(m.popups[i], m.cfg));
      ShowPopup(m, i).value.popups[i].pos == StartPosition(m.popups[i := u], i, m.cfg)
  {
  }

  /** Why `ShiftPopup` may call `ShowAnimation` directly: for a shown popup
      under the guard, `_show_popup` does nothing but `show_animation`. */
  lemma ReentryIsShowAnimation(m: Manager, k: nat)
    requires k < |m.popups| && m.block && m.popups[k].visible
    ensures ShowPopup(m, k) == match ShowAnimation(m.popups, k, m.cfg, m.screenRate)
      case Failure(e) => Failure(e)
      case Success(q) => Success(m.(popups := m.popups[k := q]))
  {
  }

  /** Showing a hidden popup and letting its fade-in finish leaves it shown,
      active, at the configured opacity, with the dismiss timer armed for the
      popup duration. */
  lemma ShowThenActivate(m: Manager, i: nat, elapsed: nat)
    requires i < |m.popups| && !m.popups[i].fadeIn.IsRunning()
    requires m.cfg.popupShowDuration > 0 && m.screenRate != Some(0.0)
    requires elapsed >= m.cfg.popupShowDuration
    ensures ShowPopup(m, i).Success?
    ensures TickSlot(ShowPopup(m, i).value, i, FadeInSlot, elapsed).Success?
    ensures var q := TickSlot(ShowPopup(m, i).value, i, FadeInSlot, elapsed).value.popups[i];
      && q.visible && q.isActive && q.hideTimer == Some(m.cfg.popupDuration)
      && q.opacity == m.cfg.popupTransparency as real / 100.0
  {
    FadeInCompletes(ShowPopup(m, i).value, i, elapsed);
  }
}
