/** The keyboard hooks of poppy/keyboard_handler.py: the modifier and lock
    flags, when a layout switch or a lock change is reported, the volume and
    media buttons, the switch-device hotkey and the lock-bit readings.

    The `keyboard` library is abstracted: an event is its name and its type,
    and a handler's callbacks come back as a list of signals. */
module Keyboard {
  import opened Wrappers

  datatype EventType = KeyDown | KeyUp

  datatype KeyEvent = KeyEvent(name: string, eventType: EventType)

  /** The four keys with a "pressed" latch. */
  datatype Lock = Caps | Scroll | Num | Insert

  /** The name the lock's handler accepts. */
  function LockName(l: Lock): string {
    match l
    case Caps => "caps lock"
    case Scroll => "scroll lock"
    case Num => "num lock"
    case Insert => "insert"
  }

  /** The label passed to `on_lock_change`. */
  function LockLabel(l: Lock): string {
    match l
    case Caps => "Caps"
    case Scroll => "Scroll"
    case Num => "Num"
    case Insert => "Insert"
  }

  /** The callbacks a handler calls, in order. */
  datatype Signal = LayoutChange | LockChange(lockLabel: string) | VolumeChange(deviceChanged: bool) | MediaChange

  /** The handler's flags; `latched` holds the lock keys seen down and not
      yet up. */
  datatype Handler = Handler(ctrl: bool, alt: bool, shift: bool, foreign: bool, latched: set<Lock>)

  const Initial := Handler(false, false, false, false, {})

  datatype Out = Out(h: Handler, signals: seq<Signal>)

  /** `on_caps_lock`, `on_scroll_lock`, `on_num_lock` and `on_insert`. */
  function OnLock(h: Handler, l: Lock, e: KeyEvent): (o: Out)
    ensures e.name != LockName(l) ==> o == Out(h, [])
    ensures e.name == LockName(l) && e.eventType == KeyDown ==>
      && l in o.h.latched
      && (o.signals == [LockChange(LockLabel(l))] <==> l !in h.latched)
      && (o.signals == [] <==> l in h.latched)
    ensures e.name == LockName(l) && e.eventType == KeyUp ==> l !in o.h.latched && o.signals == []
    ensures o.h.(latched := h.latched) == h
    ensures o.h.latched - {l} == h.latched - {l}
  {
    if e.name != LockName(l) then Out(h, [])
    else match e.eventType
      case KeyDown =>
        if l !in h.latched then Out(h.(latched := h.latched + {l}), [LockChange(LockLabel(l))])
        else Out(h, [])
      case KeyUp => Out(h.(latched := h.latched - {l}), [])
  }

  /** `on_ctrl_event`: releasing ctrl while shift is held, with no other key
      pressed during the chord, switches the layout; every release clears
      the foreign-key flag. */
  function OnCtrl(h: Handler, e: KeyEvent): (o: Out)
    ensures e.eventType == KeyDown ==> o == Out(h.(ctrl := true), [])
    ensures e.eventType == KeyUp ==> o.h == h.(ctrl := false, foreign := false)
    ensures e.eventType == KeyUp ==> (o.signals == [LayoutChange] <==> h.shift && !h.foreign)
    ensures e.eventType == KeyUp ==> (o.signals == [] <==> !(h.shift && !h.foreign))
  {
    match e.eventType
    case KeyDown => Out(h.(ctrl := true), [])
    case KeyUp => Out(h.(ctrl := false, foreign := false), if h.shift && !h.foreign then [LayoutChange] else [])
  }

  /** `on_alt_event`, the same for alt. */
  function OnAlt(h: Handler, e: KeyEvent): (o: Out)
    ensures e.eventType == KeyDown ==> o == Out(h.(alt := true), [])
    ensures e.eventType == KeyUp ==> o.h == h.(alt := false, foreign := false)
    ensures e.eventType == KeyUp ==> (o.signals == [LayoutChange] <==> h.shift && !h.foreign)
    ensures e.eventType == KeyUp ==> (o.signals == [] <==> !(h.shift && !h.foreign))
  {
    match e.eventType
    case KeyDown => Out(h.(alt := true), [])
    case KeyUp => Out(h.(alt := false, foreign := false), if h.shift && !h.foreign then [LayoutChange] else [])
  }

  /** `on_shift_event`: releasing shift while ctrl or alt is held. */
  function OnShift(h: Handler, e: KeyEvent): (o: Out)
    ensures e.eventType == KeyDown ==> o == Out(h.(shift := true), [])
    ensures e.eventType == KeyUp ==> o.h == h.(shift := false, foreign := false)
    ensures e.eventType == KeyUp ==> (o.signals == [LayoutChange] <==> (h.ctrl || h.alt) && !h.foreign)
    ensures e.eventType == KeyUp ==> (o.signals == [] <==> !((h.ctrl || h.alt) && !h.foreign))
  {
    match e.eventType
    case KeyDown => Out(h.(shift := true), [])
    case KeyUp =>
      Out(h.(shift := false, foreign := false), if (h.ctrl || h.alt) && !h.foreign then [LayoutChange] else [])
  }

  /** The names `on_any_key` ignores. */
  predicate IsModifierOrLock(name: string) {
    name in ["ctrl", "right ctrl", "shift", "right shift", "alt", "right alt",
             "caps lock", "num lock", "scroll lock", "insert"]
  }

  /** `on_any_key`: any other key pressed while (ctrl or alt) and shift are
      held marks the chord as not a layout switch. */
  function OnAnyKey(h: Handler, e: KeyEvent): (o: Handler)
    ensures IsModifierOrLock(e.name) || e.eventType == KeyUp ==> o == h
    ensures !IsModifierOrLock(e.name) && e.eventType == KeyDown ==>
      o == h.(foreign := h.foreign || ((h.ctrl || h.alt) && h.shift))
  {
    if IsModifierOrLock(e.name) then h
    else if e.eventType == KeyDown && (h.ctrl || h.alt) && h.shift then h.(foreign := true)
    else h
  }

  /** The `hook_key` handler an event reaches, chosen by the event's name. */
  datatype Route = ToLock(l: Lock) | ToCtrl | ToAlt | ToShift | ToNone

  function RouteOf(name: string): Route {
    if name == "caps lock" then ToLock(Caps)
    else if name == "scroll lock" then ToLock(Scroll)
    else if name == "num lock" then ToLock(Num)
    else if name == "insert" then ToLock(Insert)
    else if name == "ctrl" || name == "right ctrl" then ToCtrl
    else if name == "alt" || name == "right alt" then ToAlt
    else if name == "shift" || name == "right shift" then ToShift
    else ToNone
  }

  /** One key event through its own hook and then the catch-all hook. */
  function Dispatch(h: Handler, e: KeyEvent): Out {
    var o := match RouteOf(e.name)
      case ToLock(l) => OnLock(h, l, e)
      case ToCtrl => OnCtrl(h, e)
      case ToAlt => OnAlt(h, e)
      case ToShift => OnShift(h, e)
      case ToNone => Out(h, []);
    Out(OnAnyKey(o.h, e), o.signals)
  }

  /** A stream of events, collecting the signals in order. */
  function Feed(h: Handler, es: seq<KeyEvent>): Out
    decreases |es|
  {
    if es == [] then Out(h, [])
    else
      var o := Dispatch(h, es[0]);
      var rest := Feed(o.h, es[1..]);
      Out(rest.h, o.signals + rest.signals)
  }

  /** The foreign-key flag is only ever up during a chord: it is set while
      (ctrl or alt) and shift are held, and every release of one of them
      clears it. */
  predicate Valid(h: Handler) {
    h.foreign ==> (h.ctrl || h.alt) && h.shift
  }

  /** Each event keeps the handler valid, raises at most one signal, and a
      layout switch is only ever reported on a modifier release. */
  lemma DispatchProperties(h: Handler, e: KeyEvent)
    requires Valid(h)
    ensures Valid(Dispatch(h, e).h)
    ensures |Dispatch(h, e).signals| <= 1
    ensures LayoutChange in Dispatch(h, e).signals ==>
      e.eventType == KeyUp && RouteOf(e.name) in {ToCtrl, ToAlt, ToShift}
    ensures RouteOf(e.name).ToNone? ==> Dispatch(h, e).signals == []
  {
  }

  lemma {:induction false} FeedKeepsValid(h: Handler, es: seq<KeyEvent>)
    requires Valid(h)
    ensures Valid(Feed(h, es).h)
    ensures |Feed(h, es).signals| <= |es|
    decreases |es|
  {
    if es != [] {
      DispatchProperties(h, es[0]);
      FeedKeepsValid(Dispatch(h, es[0]).h, es[1..]);
    }
  }

  function Repeat(e: KeyEvent, n: nat): (es: seq<KeyEvent>)
    ensures |es| == n && forall k :: 0 <= k < n ==> es[k] == e
  {
    if n == 0 then [] else [e] + Repeat(e, n - 1)
  }

  /** Holding a lock key down (`n` auto-repeated KEY_DOWN events) reports
      the change once, and only if the key was not already latched; the
      other flags are untouched. */
  lemma {:induction false} AutoRepeatReportsOnce(h: Handler, l: Lock, n: nat)
    requires Valid(h)
    ensures var o := Feed(h, Repeat(KeyEvent(LockName(l), KeyDown), n));
      && o.signals == (if n > 0 && l !in h.latched then [LockChange(LockLabel(l))] else [])
      && o.h.(latched := h.latched) == h
      && (n > 0 ==> l in o.h.latched)
      && o.h.latched - {l} == h.latched - {l}
    decreases n
  {
    if n > 0 {
      var e := KeyEvent(LockName(l), KeyDown);
      var es := Repeat(e, n);
      assert es[0] == e && es[1..] == Repeat(e, n - 1);
      var o := Dispatch(h, e);
      assert !IsModifierOrLock(LockName(l)) ==> false;
      assert RouteOf(LockName(l)) == ToLock(l);
      assert o.h == h.(latched := h.latched + {l});
      assert o.signals == (if l !in h.latched then [LockChange(LockLabel(l))] else []);
      AutoRepeatReportsOnce(o.h, l, n - 1);
    }
  }

  /** After the key comes up, the next press is reported again. */
  lemma ReleaseRearms(h: Handler, l: Lock)
    ensures var up := Dispatch(h, KeyEvent(LockName(l), KeyUp));
      && l !in up.h.latched && up.signals == []
      && Dispatch(up.h, KeyEvent(LockName(l), KeyDown)).signals == [LockChange(LockLabel(l))]
  {
    assert RouteOf(LockName(l)) == ToLock(l);
    assert IsModifierOrLock(LockName(l));
  }

  /** The route and the catch-all test of the modifier names. */
  lemma ModifierNames(first: string, second: string)
    requires first in {"ctrl", "right ctrl", "alt", "right alt"}
    requires second in {"shift", "right shift"}
    ensures IsModifierOrLock(first) && IsModifierOrLock(second)
    ensures RouteOf(first) == (if first in {"ctrl", "right ctrl"} then ToCtrl else ToAlt)
    ensures RouteOf(second) == ToShift
  {
  }

  /** Every name outside the modifier and lock names reaches only the
      catch-all hook. */
  lemma OtherKeyRoute(name: string)
    requires !IsModifierOrLock(name)
    ensures RouteOf(name) == ToNone
  {
  }

  /** Feeding a non-empty stream is the first event, then the rest. */
  lemma FeedFirst(h: Handler, e: KeyEvent, es: seq<KeyEvent>)
    ensures Feed(h, [e] + es) ==
      Out(Feed(Dispatch(h, e).h, es).h, Dispatch(h, e).signals + Feed(Dispatch(h, e).h, es).signals)
  {
    assert ([e] + es)[0] == e && ([e] + es)[1..] == es;
  }

  /** Feeding four events is dispatching them one after the other. */
  lemma FeedFour(h: Handler, e1: KeyEvent, e2: KeyEvent, e3: KeyEvent, e4: KeyEvent)
    ensures var o1 := Dispatch(h, e1);
      var o2 := Dispatch(o1.h, e2);
      var o3 := Dispatch(o2.h, e3);
      var o4 := Dispatch(o3.h, e4);
      Feed(h, [e1, e2, e3, e4]) == Out(o4.h, o1.signals + o2.signals + o3.signals + o4.signals)
  {
    var o1 := Dispatch(h, e1);
    var o2 := Dispatch(o1.h, e2);
    var o3 := Dispatch(o2.h, e3);
    assert [e1, e2, e3, e4] == [e1] + ([e2] + ([e3] + ([e4] + [])));
    FeedFirst(o3.h, e4, []);
    FeedFirst(o2.h, e3, [e4]);
    FeedFirst(o1.h, e2, [e3, e4]);
    FeedFirst(h, e1, [e2, e3, e4]);
  }

  /** Ctrl+Shift (or Alt+Shift), released in either order, switches the
      layout once. */
  lemma ChordSwitches(first: string, second: string, firstUpFirst: bool)
    requires first in {"ctrl", "right ctrl", "alt", "right alt"}
    requires second in {"shift", "right shift"}
    ensures var up1 := if firstUpFirst then first else second;
      var up2 := if firstUpFirst then second else first;
      var o := Feed(Initial, [KeyEvent(first, KeyDown), KeyEvent(second, KeyDown),
                              KeyEvent(up1, KeyUp), KeyEvent(up2, KeyUp)]);
      o.signals == [LayoutChange] && o.h == Initial
  {
    ModifierNames(first, second);
    var up1 := if firstUpFirst then first else second;
    var up2 := if firstUpFirst then second else first;
    var e1, e2, e3, e4 := KeyEvent(first, KeyDown), KeyEvent(second, KeyDown), KeyEvent(up1, KeyUp), KeyEvent(up2, KeyUp);
    FeedFour(Initial, e1, e2, e3, e4);
    var h1 := Dispatch(Initial, e1).h;
    var h2 := Dispatch(h1, e2).h;
    var h3 := Dispatch(h2, e3).h;
    assert Dispatch(Initial, e1).signals == [] && Dispatch(h1, e2).signals == [];
    assert h2.shift && (h2.ctrl || h2.alt) && !h2.foreign;
    assert Dispatch(h2, e3).signals == [LayoutChange];
    assert Dispatch(h3, e4).signals == [] && Dispatch(h3, e4).h == Initial;
  }

  /** A key pressed inside the chord (Ctrl+Shift+S, say) vetoes the switch,
      and the veto ends with the release that follows it. */
  lemma ForeignKeyVetoes(first: string, second: string, other: string)
    requires first in {"ctrl", "right ctrl", "alt", "right alt"}
    requires second in {"shift", "right shift"}
    requires !IsModifierOrLock(other)
    ensures var o := Feed(Initial, [KeyEvent(first, KeyDown), KeyEvent(second, KeyDown),
                                    KeyEvent(other, KeyDown), KeyEvent(second, KeyUp)]);
      o.signals == [] && !o.h.foreign && !o.h.shift && (o.h.ctrl || o.h.alt)
  {
    ModifierNames(first, second);
    var e1, e2, e3, e4 := KeyEvent(first, KeyDown), KeyEvent(second, KeyDown), KeyEvent(other, KeyDown), KeyEvent(second, KeyUp);
    FeedFour(Initial, e1, e2, e3, e4);
    var h1 := Dispatch(Initial, e1).h;
    var h2 := Dispatch(h1, e2).h;
    OtherKeyRoute(other);
    assert h2.shift && (h2.ctrl || h2.alt);
    var h3 := Dispatch(h2, e3).h;
    assert h3 == h2.(foreign := true);
    assert Dispatch(h3, e4).signals == [];
  }

  /** What the volume hook asks the audio manager to do. */
  datatype VolumeCommand = StepUp | StepDown | ToggleMute

  /** The reaction of a suppressing hook: whether the event passes on to
      the system, the command run and the callbacks called. */
  datatype Reaction = Reaction(passThrough: bool, command: Option<VolumeCommand>, signals: seq<Signal>)

  /** `volume_buttons`: pass the key to the system when the volume window is
      off; otherwise swallow it and, on KEY_DOWN of a volume key, run the
      matching command and notify without a device change. */
  function VolumeButtons(volumeWindowEnable: bool, e: KeyEvent): (r: Reaction)
    ensures r.passThrough <==> !volumeWindowEnable
    ensures r.command.Some? <==>
      volumeWindowEnable && e.eventType == KeyDown && e.name in ["volume up", "volume down", "volume mute"]
    ensures r.command == Some(StepUp) ==> e.name == "volume up"
    ensures r.command == Some(StepDown) ==> e.name == "volume down"
    ensures r.command == Some(ToggleMute) ==> e.name == "volume mute"
    ensures r.signals == (if r.command.Some? then [VolumeChange(false)] else [])
  {
    if !volumeWindowEnable then Reaction(true, None, [])
    else
      var c := if e.eventType != KeyDown then None
        else if e.name == "volume up" then Some(StepUp)
        else if e.name == "volume down" then Some(StepDown)
        else if e.name == "volume mute" then Some(ToggleMute)
        else None;
      Reaction(false, c, if c.Some? then [VolumeChange(false)] else [])
  }

  /** `media_buttons`: never swallows, and notifies on KEY_DOWN only. */
  function MediaButtons(e: KeyEvent): (r: Reaction)
    ensures r.passThrough && r.command.None?
    ensures r.signals == [MediaChange] <==> e.eventType == KeyDown
    ensures r.signals == [] <==> e.eventType == KeyUp
  {
    Reaction(true, None, if e.eventType == KeyDown then [MediaChange] else [])
  }

  /** The switch-device hotkey: the name the handler remembers, and the
      hotkeys registered with the `keyboard` library. */
  datatype Hotkeys = Hotkeys(remembered: Option<string>, registered: set<string>)

  /** `remove_hotkey` looks the name up and raises KeyError when it is not
      registered. */
  datatype HotkeyError = KeyError(name: string)

  function RemoveHotkey(registered: set<string>, name: string): (r: Result<set<string>, HotkeyError>)
    ensures r.Success? <==> name in registered
    ensures r.Success? ==> r.value == registered - {name}
    ensures r.Failure? ==> r.error == KeyError(name)
  {
    if name in registered then Success(registered - {name}) else Failure(KeyError(name))
  }

  /** `set_switch_device_hotkey` as written: the removed name stays
      remembered, so the next call removes it a second time. */
  function SetSwitchHotkeyAsWritten(k: Hotkeys, enabled: bool, hotkey: string): (r: Result<Hotkeys, HotkeyError>)
    ensures r.Success? && enabled && hotkey != "" ==>
      r.value.remembered == Some(hotkey) && hotkey in r.value.registered
    ensures r.Success? && !(enabled && hotkey != "") ==> r.value.remembered == k.remembered
  {
    var afterRemove :- if k.remembered.Some? && k.remembered.value != ""
      then RemoveHotkey(k.registered, k.remembered.value) else Success(k.registered);
    if enabled && hotkey != "" then Success(Hotkeys(Some(hotkey), afterRemove + {hotkey}))
    else Success(Hotkeys(k.remembered, afterRemove))
  }

  /** Turning the hotkey off and on again, from a correctly registered
      hotkey, raises KeyError on the second call. */
  lemma StaleHotkeyAsWritten(hotkey: string, again: string)
    requires hotkey != ""
    ensures var first := SetSwitchHotkeyAsWritten(Hotkeys(None, {}), true, hotkey);
      && first == Success(Hotkeys(Some(hotkey), {hotkey}))
      && var off := SetSwitchHotkeyAsWritten(first.value, false, hotkey);
      && off == Success(Hotkeys(Some(hotkey), {}))
      && SetSwitchHotkeyAsWritten(off.value, true, again) == Failure(KeyError(hotkey))
  {
    assert {} + {hotkey} == {hotkey};
    assert {hotkey} - {hotkey} == {};
  }

  /** The handler's memory agrees with the library: exactly the remembered
      hotkey is registered. */
  predicate InSync(k: Hotkeys) {
    match k.remembered
    case None => k.registered == {}
    case Some(h) => h != "" && k.registered == {h}
  }

  /** `set_switch_device_hotkey` as intended: a removed hotkey is forgotten. */
  function SetSwitchHotkey(k: Hotkeys, enabled: bool, hotkey: string): (r: Result<Hotkeys, HotkeyError>)
    ensures r.Success? && enabled && hotkey != "" ==>
      r.value.remembered == Some(hotkey) && hotkey in r.value.registered
    ensures r.Success? && k.remembered.Some? && k.remembered.value != "" && k.remembered.value != hotkey ==>
      k.remembered.value !in r.value.registered
  {
    var afterRemove :- if k.remembered.Some? && k.remembered.value != ""
      then RemoveHotkey(k.registered, k.remembered.value) else Success(k.registered);
    if enabled && hotkey != "" then Success(Hotkeys(Some(hotkey), afterRemove + {hotkey}))
    else Success(Hotkeys(None, afterRemove))
  }

  /** From a synchronised state the corrected setter never raises, stays
      synchronised, and registers a hotkey exactly when the option is on and
      the string is non-empty. */
  lemma SetSwitchHotkeyInSync(k: Hotkeys, enabled: bool, hotkey: string)
    requires InSync(k)
    ensures SetSwitchHotkey(k, enabled, hotkey).Success?
    ensures InSync(SetSwitchHotkey(k, enabled, hotkey).value)
    ensures SetSwitchHotkey(k, enabled, hotkey).value.registered ==
      (if enabled && hotkey != "" then {hotkey} else {})
  {
  }

  /** The virtual-key codes `GetKeyState` is asked about. */
  function VirtualKey(l: Lock): int {
    match l
    case Caps => 0x14
    case Num => 0x90
    case Scroll => 0x91
    case Insert => 0x2D
  }

  /** `(state & 0x0001) != 0` on Python's integers: the toggle bit. */
  function ToggleBit(state: int): (on: bool)
    ensures 0 <= state < 0x10000 ==> (on <==> (state as bv16) & 1 == 1)
  {
    state % 2 == 1
  }

  /** `is_caps_lock_on` and its siblings, given `GetKeyState`. */
  function IsLockOn(l: Lock, getKeyState: int -> int): bool {
    ToggleBit(getKeyState(VirtualKey(l)))
  }

  /** The pressed bit (the sign of the SHORT `GetKeyState` returns) does not
      affect the reading: a key held down reads as its toggle state. */
  lemma PressedBitIgnored(low: int)
    requires 0 <= low < 0x8000
    ensures ToggleBit(low - 0x8000) == ToggleBit(low)
    ensures ToggleBit(low) <==> low % 2 == 1
  {
  }
}
