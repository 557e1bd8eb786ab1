/** The three popups built on the base popup and what their `show_popup`
    and event handlers do: the keyboard popup that follows the pointer
    (poppy/keyboard_popup_cursor.py), the volume popup
    (poppy/volume_popup.py) and the media popup (poppy/media_info_popup.py),
    including the way the volume and media popups show each other. */
module Windows {
  import opened Wrappers
  import opened Animation
  import opened Popups
  import opened Config
  import opened Text
  import opened Lifecycle
  import Audio
  import Media
  import Cursor

  // ---------------------------------------------------------------------
  // State
  // ---------------------------------------------------------------------

  /** The four icons of the volume popup. */
  datatype VolumeIcon = MuteIcon | LowIcon | MediumIcon | HighIcon

  /** The cursor popup's label and its move timer (the interval in ms). */
  datatype CursorView = CursorView(text: string, timer: Option<int>)

  /** The volume popup's widgets: the height it was built with, whether
      the device line is shown, its text, the slider, the number and the
      icon. */
  datatype VolumeView = VolumeView(originHeight: int, nameShown: bool, deviceLabel: string,
                                   slider: int, volumeLabel: string, icon: VolumeIcon)

  /** The media popup's widgets and its session: whether a media session
      exists, the labels, the cover shown (`None` for the default note
      glyph), the timeline progress, the metadata cache and the number of
      `_show_popup_async` tasks scheduled and not yet run. */
  datatype MediaView = MediaView(session: bool, title: string, artist: string, cover: Option<Media.Bytes>,
                                 progress: real, cache: Media.Cache, pending: nat)

  /** The application as these handlers see it: the popup registry with
      the positions of the three popups in it, their widgets, the current
      audio endpoint and its device name, and the sounds played. */
  datatype App = App(m: Manager, cursor: nat, volume: nat, media: nat,
                     cursorView: CursorView, volumeView: VolumeView, mediaView: MediaView,
                     endpoint: Audio.Endpoint, deviceName: string, sounds: nat)

  /** The three popups are registered and distinct. */
  predicate Wired(a: App) {
    && a.cursor < |a.m.popups| && a.volume < |a.m.popups| && a.media < |a.m.popups|
    && a.cursor != a.volume && a.cursor != a.media && a.volume != a.media
  }

  /** A handler keeps the three popups where they are in the registry. */
  predicate KeepsWiring(a: App, b: App) {
    && Wired(b) && b.cursor == a.cursor && b.volume == a.volume && b.media == a.media
    && |b.m.popups| == |a.m.popups|
  }

  /** The exceptions a handler can raise: one from an animation's start,
      `ZeroDivisionError` from `get_volume` with a zero step, and the three
      errors of the media popup's code as written (and Python's recursion
      limit for the chained show). */
  datatype ShowError = Raised(e: Error) | VolumeZeroDivision | AttributeError | TypeError | RecursionError

  /** The state after a handler, and the exception it ended with, if any;
      the state holds the effects made before the exception. */
  datatype Outcome = Outcome(app: App, raised: Option<ShowError>)

  /** `_show_popup` on popup `i`; an exception raised inside it leaves the
      state as it was before the call. */
  function Present(a: App, i: nat): (o: Outcome)
    requires i < |a.m.popups|
    ensures o.raised.None? <==> ShowPopup(a.m, i).Success?
    ensures o.raised.None? ==> o.app == a.(m := ShowPopup(a.m, i).value)
    ensures o.raised.Some? ==> o == Outcome(a, Some(Raised(ZeroDivision)))
    ensures |o.app.m.popups| == |a.m.popups| && o.app.m.cfg == a.m.cfg && o.app.m.screenRate == a.m.screenRate
    ensures o.app == a.(m := o.app.m)
  {
    match ShowPopup(a.m, i)
    case Failure(e) => Outcome(a, Some(Raised(e)))
    case Success(m) => Outcome(a.(m := m), None)
  }

  // ---------------------------------------------------------------------
  // The keyboard popup at the pointer
  // ---------------------------------------------------------------------

  /** The refresh rate assumed without a screen. */
  const DefaultRefreshRate: real := 60.0

  /** `KeyboardPopupCursor.show_popup`: nothing when the keyboard window is
      off; otherwise the label is set, the sound plays when the pointer
      option is on, the popup is shown and the move timer starts at one
      frame. */
  function ShowCursor(a: App, text: string): (o: Outcome)
    requires Wired(a)
    ensures KeepsWiring(a, o.app)
    ensures !a.m.cfg.keyboardWindowEnable ==> o == Outcome(a, None)
    ensures a.m.cfg.keyboardWindowEnable && a.m.screenRate != Some(0.0) ==> o.raised.None?
    ensures a.m.cfg.keyboardWindowEnable && o.raised.None? ==>
      && o.app.m.popups[a.cursor].visible
      && o.app.cursorView.text == text
      && o.app.sounds == a.sounds + (if a.m.cfg.keyboardShowCursor then 1 else 0)
      && o.app.cursorView.timer.Some? && o.app.cursorView.timer.value >= 1
      && (a.m.screenRate.None? ==> o.app.cursorView.timer == Some(16))
    ensures o.raised.Some? ==> o.raised.value == Raised(ZeroDivision)
  {
    if !a.m.cfg.keyboardWindowEnable then Outcome(a, None)
    else
      var a1 := a.(cursorView := a.cursorView.(text := text),
                   sounds := if a.m.cfg.keyboardShowCursor then a.sounds + 1 else a.sounds);
      var o := Present(a1, a.cursor);
      if o.raised.Some? then o
      else match a.m.screenRate
        case None => Outcome(o.app.(cursorView := o.app.cursorView.(timer := Some(TickInterval(DefaultRefreshRate)))), None)
        case Some(rate) =>
          if rate == 0.0 then Outcome(o.app, Some(Raised(ZeroDivision)))
          else Outcome(o.app.(cursorView := o.app.cursorView.(timer := Some(TickInterval(rate)))), None)
  }

  /** A tick of the move timer (`_move_to_cursor`): the cursor popup moves
      next to the pointer inside the work area; nothing else changes. */
  function CursorTick(a: App, pointer: Vec, area: Cursor.Rect): (r: App)
    requires Wired(a)
    ensures KeepsWiring(a, r)
    ensures a.cursorView.timer.None? ==> r == a
    ensures a.cursorView.timer.Some? ==>
      var p := a.m.popups[a.cursor];
      && r.m.popups[a.cursor] == p.(pos := Cursor.MoveToCursor(pointer, area, p.width, p.height))
      && r == a.(m := r.m) && r.m == a.m.(popups := r.m.popups)
      && forall j :: 0 <= j < |a.m.popups| && j != a.cursor ==> r.m.popups[j] == a.m.popups[j]
  {
    if a.cursorView.timer.None? then a
    else
      var p := a.m.popups[a.cursor];
      var q := p.(pos := Cursor.MoveToCursor(pointer, area, p.width, p.height));
      a.(m := a.m.(popups := a.m.popups[a.cursor := q]))
  }

  // ---------------------------------------------------------------------
  // The volume popup
  // ---------------------------------------------------------------------

  /** `_update_icon_by_volume`. */
  function IconFor(volume: int, mute: bool): (icon: VolumeIcon)
    ensures icon == MuteIcon <==> volume == 0 || mute
    ensures icon == LowIcon <==> !mute && volume != 0 && volume < 33
    ensures icon == MediumIcon <==> !mute && 33 <= volume < 66
    ensures icon == HighIcon <==> !mute && 66 <= volume
  {
    if volume == 0 || mute then MuteIcon
    else if volume < 33 then LowIcon
    else if volume < 66 then MediumIcon
    else HighIcon
  }

  /** How loud an icon looks. */
  function Loudness(icon: VolumeIcon): nat {
    match icon
    case MuteIcon => 0
    case LowIcon => 1
    case MediumIcon => 2
    case HighIcon => 3
  }

  /** A louder volume never shows a quieter icon. */
  lemma IconMonotone(v: int, w: int)
    requires 0 <= v <= w
    ensures Loudness(IconFor(v, false)) <= Loudness(IconFor(w, false))
  {
  }

  /** The extra height of the device line. */
  const NameHeight: int := 20

  /** `_update_device_name`: the friendly name, shortened unless the full
      name is asked for. */
  function DeviceLabel(cfg: Settings, name: string): string {
    if cfg.volumeFullName then name else StripAudioName(name)
  }

  /** `_on_slider_change`: the endpoint takes the value, the number shows
      it, and the icon is chosen as unmuted. */
  function SliderChange(a: App, value: int): (r: App)
    ensures r.endpoint == Audio.SetVolume(a.endpoint, value)
    ensures r.volumeView == a.volumeView.(slider := value, volumeLabel := Str(value), icon := IconFor(value, false))
    ensures r == a.(endpoint := r.endpoint, volumeView := r.volumeView)
  {
    a.(endpoint := Audio.SetVolume(a.endpoint, value),
       volumeView := a.volumeView.(slider := value, volumeLabel := Str(value), icon := IconFor(value, false)))
  }

  /** A slider value in the slider's range is what the endpoint, the number
      and the icon all show afterwards, with the sound unmuted. */
  lemma SliderShowsValue(a: App, value: int)
    requires 0 <= value <= 100
    ensures var r := SliderChange(a, value);
      && r.endpoint == Audio.Endpoint(value, 0)
      && DecimalValue(r.volumeView.volumeLabel) == value
      && (r.volumeView.icon == MuteIcon <==> value == 0)
  {
    StrRoundTrip(value);
  }

  /** `_on_icon_click`: mute is toggled and the icon follows the slider and
      the new mute state. */
  function IconClick(a: App): (r: App)
    ensures r.endpoint.level == a.endpoint.level && r.endpoint.mute == 1 - a.endpoint.mute
    ensures r.volumeView.icon == IconFor(a.volumeView.slider, a.endpoint.mute == 0)
    ensures r == a.(endpoint := r.endpoint, volumeView := a.volumeView.(icon := r.volumeView.icon))
  {
    var t := Audio.ToggleMute(a.endpoint);
    a.(endpoint := t.0, volumeView := a.volumeView.(icon := IconFor(a.volumeView.slider, t.1)))
  }

  /** Two clicks restore the endpoint, and the icon then shows its mute
      state. */
  lemma IconClickTwice(a: App)
    requires a.endpoint.mute == 0 || a.endpoint.mute == 1
    ensures IconClick(IconClick(a)).endpoint == a.endpoint
    ensures IconClick(IconClick(a)).volumeView.icon == IconFor(a.volumeView.slider, a.endpoint.mute == 1)
  {
  }

  /** The value a 0..100 `QSlider` holds after `setValue`: Qt clamps it
      into the slider's range. */
  function SliderValue(value: int): (s: int)
    ensures 0 <= s <= 100
    ensures 0 <= value <= 100 ==> s == value
    ensures value < 0 ==> s == 0
    ensures value > 100 ==> s == 100
  {
    if value < 0 then 0 else if value > 100 then 100 else value
  }

  /** The friendly name of the first output with the given id. */
  function NameOf(outputs: seq<Audio.Device>, id: string): (r: Option<string>)
    ensures r.None? <==> !Audio.HasId(outputs, id)
    ensures r.Some? ==> exists k :: 0 <= k < |outputs| && outputs[k].id == id && outputs[k].name == r.value
    decreases |outputs|
  {
    if outputs == [] then None
    else if outputs[0].id == id then Some(outputs[0].name)
    else
      var r := NameOf(outputs[1..], id);
      assert Audio.HasId(outputs, id) ==> Audio.HasId(outputs[1..], id) by {
        if Audio.HasId(outputs, id) {
          var k :| 0 <= k < |outputs| && outputs[k].id == id;
          assert outputs[1..][k - 1].id == id;
        }
      }
      assert r.Some? ==> exists k :: 0 <= k < |outputs| && outputs[k].id == id && outputs[k].name == r.value by {
        if r.Some? {
          var k :| 0 <= k < |outputs[1..]| && outputs[1..][k].id == id && outputs[1..][k].name == r.value;
          assert outputs[k + 1] == outputs[1..][k];
        }
      }
      r
  }

  /** `mouseDoubleClickEvent`: with double tap on, `switch_device` moves
      the default output on and `_update_device_name` puts the default
      device's name, shortened unless full names are on, on the device
      line. The switcher, the output list and the endpoint of the device
      switched to are parameters; the new default is the device of the
      first `SetDefaultDevice` call, and without a call nothing but the
      device line changes. A raising switch leaves everything as it was. */
  function DoubleClick(a: App, s: Audio.Switcher, outputs: seq<Audio.Device>, switchedTo: Audio.Endpoint)
    : (r: Result<(App, Audio.Switcher, seq<Audio.DefaultCall>), Audio.AudioError>)
    ensures !a.m.cfg.switchDoubleTap ==> r == Success((a, s, []))
    ensures a.m.cfg.switchDoubleTap ==> (r.Failure? <==> !a.m.cfg.switchSelect && outputs == [])
    ensures a.m.cfg.switchDoubleTap && r.Success? ==>
      var sw := Audio.SwitchDevice(s, a.m.cfg, outputs, None);
      && sw.Success? && (r.value.1, r.value.2) == sw.value
      && r.value.0 == a.(deviceName := r.value.0.deviceName, endpoint := r.value.0.endpoint,
                         volumeView := a.volumeView.(deviceLabel := DeviceLabel(a.m.cfg, r.value.0.deviceName)))
      && (r.value.2 == [] ==> r.value.0.deviceName == a.deviceName && r.value.0.endpoint == a.endpoint)
      && (r.value.2 != [] && NameOf(outputs, r.value.2[0].id).Some? ==>
            r.value.0.deviceName == NameOf(outputs, r.value.2[0].id).value && r.value.0.endpoint == switchedTo)
  {
    if !a.m.cfg.switchDoubleTap then Success((a, s, []))
    else match Audio.SwitchDevice(s, a.m.cfg, outputs, None)
      case Failure(e) => Failure(e)
      case Success(sw) =>
        var switched := sw.1 != [] && NameOf(outputs, sw.1[0].id).Some?;
        var name := if switched then NameOf(outputs, sw.1[0].id).value else a.deviceName;
        var endpoint := if switched then switchedTo else a.endpoint;
        Success((a.(deviceName := name, endpoint := endpoint,
                    volumeView := a.volumeView.(deviceLabel := DeviceLabel(a.m.cfg, name))),
                 sw.0, sw.1))
  }

  /** Switching among all outputs, a double click moves to the next output
      in the list and the device line names it. */
  lemma DoubleClickNamesNext(a: App, s: Audio.Switcher, outputs: seq<Audio.Device>, switchedTo: Audio.Endpoint)
    requires a.m.cfg.switchDoubleTap && !a.m.cfg.switchSelect && outputs != []
    requires forall j, k :: 0 <= j < k < |outputs| ==> outputs[j].id != outputs[k].id
    requires outputs[(s.index + 1) % |outputs|].id != ""
    ensures var r := DoubleClick(a, s, outputs, switchedTo);
      var next := outputs[(s.index + 1) % |outputs|];
      && r.Success?
      && r.value.1.index == (s.index + 1) % |outputs|
      && r.value.0.deviceName == next.name
      && r.value.0.endpoint == switchedTo
      && r.value.0.volumeView.deviceLabel == DeviceLabel(a.m.cfg, next.name)
  {
    var i := (s.index + 1) % |outputs|;
    var sw := Audio.SwitchDevice(s, a.m.cfg, outputs, None).value;
    assert sw.1 == Audio.Calls(Some(outputs[i].id), None, a.m.cfg.switchSetCommunication);
    assert sw.1 != [] && sw.1[0].id == outputs[i].id;
    assert Audio.HasId(outputs, outputs[i].id);
    var k :| 0 <= k < |outputs| && outputs[k].id == outputs[i].id && outputs[k].name == NameOf(outputs, outputs[i].id).value;
    assert k == i;
  }

  /** The height the volume popup takes for a given device-line choice. */
  function HeightFor(v: VolumeView, showName: bool): int {
    if showName then v.originHeight + NameHeight else v.originHeight
  }

  /** The widget updates of `VolumePopup.show_popup` for a volume reading:
      the height and device line are recomputed only when the popup is
      hidden or the device changed; the number and icon always show the
      volume, and the slider holds it clamped to the slider's range. */
  function VolumeRefresh(a: App, deviceChanged: bool, volume: int): (r: App)
    requires Wired(a)
    ensures KeepsWiring(a, r) && r.m.cfg == a.m.cfg && r.m.screenRate == a.m.screenRate && r.m.block == a.m.block
    ensures r.mediaView == a.mediaView && r.endpoint == a.endpoint && r.cursorView == a.cursorView
    ensures forall j :: 0 <= j < |a.m.popups| && j != a.volume ==> r.m.popups[j] == a.m.popups[j]
    ensures r.m.popups[a.volume] == a.m.popups[a.volume].(height := r.m.popups[a.volume].height)
    ensures r.volumeView.slider == SliderValue(volume) && r.volumeView.volumeLabel == Str(volume)
    ensures r.volumeView.icon == IconFor(volume, a.endpoint.mute == 1)
    ensures r.volumeView.originHeight == a.volumeView.originHeight
    ensures var showName := a.m.cfg.volumeShowName || deviceChanged;
      !a.m.popups[a.volume].visible || deviceChanged ==>
        && r.m.popups[a.volume].height == HeightFor(a.volumeView, showName)
        && r.volumeView.nameShown == showName
        && r.volumeView.deviceLabel == DeviceLabel(a.m.cfg, a.deviceName)
    ensures a.m.popups[a.volume].visible && !deviceChanged ==>
      && r.m.popups[a.volume].height == a.m.popups[a.volume].height
      && r.volumeView.nameShown == a.volumeView.nameShown
      && r.volumeView.deviceLabel == a.volumeView.deviceLabel
  {
    var showName := a.m.cfg.volumeShowName || deviceChanged;
    var p := a.m.popups[a.volume];
    var a1 := if !p.visible || deviceChanged then
        a.(m := a.m.(popups := a.m.popups[a.volume := p.(height := HeightFor(a.volumeView, showName))]),
           volumeView := a.volumeView.(nameShown := showName, deviceLabel := DeviceLabel(a.m.cfg, a.deviceName)))
      else a;
    a1.(volumeView := a1.volumeView.(slider := SliderValue(volume), volumeLabel := Str(volume),
                                     icon := IconFor(volume, a.endpoint.mute == 1)))
  }

  /** A step that does not divide 100 can read above 100: with step 6 at
      level 100 the reading is 102, which the number shows while the slider
      stops at 100. */
  lemma OverRangeReading(a: App)
    requires Wired(a) && a.endpoint.level == 100
    ensures Audio.GetVolume(a.endpoint, 6) == Success(102)
    ensures var r := VolumeRefresh(a, false, 102);
      r.volumeView.slider == 100 && DecimalValue(r.volumeView.volumeLabel) == 102
  {
    StrRoundTrip(102);
  }

  /** The body of `VolumePopup.show_popup` up to and including
      `_show_popup`: the volume is read (a zero step raises), the widgets
      are refreshed and the popup is shown. */
  function VolumeCore(a: App, deviceChanged: bool): (o: Outcome)
    requires Wired(a)
    ensures KeepsWiring(a, o.app) && o.app.m.cfg == a.m.cfg && o.app.m.screenRate == a.m.screenRate
    ensures o.app.mediaView == a.mediaView
    ensures a.m.cfg.volumeStep == 0 ==> o == Outcome(a, Some(VolumeZeroDivision))
    ensures a.m.cfg.volumeStep != 0 ==>
      o == Present(VolumeRefresh(a, deviceChanged, Audio.GetVolume(a.endpoint, a.m.cfg.volumeStep).value), a.volume)
  {
    match Audio.GetVolume(a.endpoint, a.m.cfg.volumeStep)
    case Failure(_) => Outcome(a, Some(VolumeZeroDivision))
    case Success(volume) => Present(VolumeRefresh(a, deviceChanged, volume), a.volume)
  }

  /** After a show of the volume popup it is visible with its activity
      unchanged, the widgets show the snapped volume, and every other
      inactive popup (the media popup among them, unless it is active) is
      untouched, since only active popups are re-stacked. */
  lemma VolumeShown(a: App, deviceChanged: bool)
    requires Wired(a) && a.m.cfg.volumeStep != 0 && a.m.screenRate != Some(0.0)
    ensures var o := VolumeCore(a, deviceChanged);
      var volume := Audio.GetVolume(a.endpoint, a.m.cfg.volumeStep).value;
      && o.raised.None?
      && o.app.m.popups[a.volume].visible
      && o.app.m.popups[a.volume].isActive == a.m.popups[a.volume].isActive
      && o.app.volumeView.slider == SliderValue(volume) && o.app.volumeView.volumeLabel == Str(volume)
      && (forall j :: 0 <= j < |a.m.popups| && j != a.volume && !a.m.popups[j].isActive ==>
            o.app.m.popups[j] == a.m.popups[j])
  {
    var volume := Audio.GetVolume(a.endpoint, a.m.cfg.volumeStep).value;
    var r := VolumeRefresh(a, deviceChanged, volume);
    assert forall j :: 0 <= j < |a.m.popups| ==> r.m.popups[j].isActive == a.m.popups[j].isActive;
  }

  /** The height rule: the device line adds its height exactly when the
      name is shown (by the option or because the device changed), and the
      height is only recomputed for a hidden popup or a device change. */
  lemma VolumeHeight(a: App, deviceChanged: bool)
    requires Wired(a) && a.m.cfg.volumeStep != 0 && a.m.screenRate != Some(0.0)
    ensures var q := VolumeCore(a, deviceChanged).app.m.popups[a.volume];
      var showName := a.m.cfg.volumeShowName || deviceChanged;
      && (!a.m.popups[a.volume].visible || deviceChanged ==>
            q.height == a.volumeView.originHeight + (if showName then NameHeight else 0))
      && (a.m.popups[a.volume].visible && !deviceChanged ==> q.height == a.m.popups[a.volume].height)
  {
  }

  /** Whether the volume popup goes on to show the media popup. */
  predicate ChainsToMedia(a: App)
    requires Wired(a)
  {
    a.m.cfg.volumeShowMedia && (!a.m.popups[a.media].visible || !a.m.popups[a.media].isActive)
  }

  /** Whether the media popup shows the volume popup instead. */
  predicate ChainsToVolume(a: App)
    requires Wired(a)
  {
    a.m.cfg.mediaShowVolume && (!a.m.popups[a.volume].visible || !a.m.popups[a.volume].isActive)
  }

  /** `VolumePopup.show_popup` as written: nothing when the volume window
      is off; otherwise the core, then the media popup's `show_popup` when
      chained. */
  function ShowVolume(a: App, deviceChanged: bool): (o: Outcome)
    requires Wired(a)
    ensures KeepsWiring(a, o.app)
    ensures !a.m.cfg.volumeWindowEnable ==> o == Outcome(a, None)
    ensures (a.m.cfg.volumeWindowEnable && VolumeCore(a, deviceChanged).raised.None?
             && !ChainsToMedia(VolumeCore(a, deviceChanged).app)) ==> o == VolumeCore(a, deviceChanged)
  {
    if !a.m.cfg.volumeWindowEnable then Outcome(a, None)
    else
      var o := VolumeCore(a, deviceChanged);
      if o.raised.Some? || !ChainsToMedia(o.app) then o else ShowMediaAsWritten(o.app)
  }

  /** With the media popup chained, showing the volume popup always raises
      `AttributeError` once the volume popup is up: the media popup's own
      chain back finds the volume popup shown but not yet active. */
  lemma VolumeChainRaises(a: App, deviceChanged: bool)
    requires Wired(a) && a.m.cfg.volumeWindowEnable && a.m.cfg.volumeStep != 0 && a.m.screenRate != Some(0.0)
    requires a.m.cfg.volumeShowMedia && a.m.cfg.mediaShowVolume && a.m.cfg.mediaWindowEnable && a.mediaView.session
    requires !a.m.popups[a.volume].isActive && !a.m.popups[a.media].isActive
    ensures var o := ShowVolume(a, deviceChanged);
      o.raised == Some(AttributeError) && o.app.m.popups[a.volume].visible
  {
    VolumeShown(a, deviceChanged);
  }

  // ---------------------------------------------------------------------
  // The media popup
  // ---------------------------------------------------------------------

  /** `MediaInfoPopup.show_popup` as written: the chained call first
      evaluates `self.app.keyboard_handler.get_volume()`, which the keyboard
      handler does not have. */
  function ShowMediaAsWritten(a: App): (o: Outcome)
    requires Wired(a)
    ensures KeepsWiring(a, o.app)
    ensures !a.m.cfg.mediaWindowEnable || !a.mediaView.session ==> o == Outcome(a, None)
    ensures a.m.cfg.mediaWindowEnable && a.mediaView.session && !ChainsToVolume(a) ==>
      o == Outcome(a.(mediaView := a.mediaView.(pending := a.mediaView.pending + 1)), None)
  {
    if !a.m.cfg.mediaWindowEnable || !a.mediaView.session then Outcome(a, None)
    else if ChainsToVolume(a) then Outcome(a, Some(AttributeError))
    else Outcome(a.(mediaView := a.mediaView.(pending := a.mediaView.pending + 1)), None)
  }

  /** As written the chained show never reaches the volume popup. */
  lemma MediaChainAsWritten(a: App)
    requires Wired(a) && a.m.cfg.mediaWindowEnable && a.mediaView.session && ChainsToVolume(a)
    ensures ShowMediaAsWritten(a) == Outcome(a, Some(AttributeError))
  {
  }

  /** The repaired chain: the media popup calls `volume_popup.show_popup()`
      with no device change, and the volume popup may chain back. `depth`
      is the call depth left before Python's recursion limit. */
  function ShowMedia(a: App, depth: nat): (o: Outcome)
    requires Wired(a)
    ensures KeepsWiring(a, o.app)
    ensures !a.m.cfg.mediaWindowEnable || !a.mediaView.session ==> o == Outcome(a, None)
    ensures a.m.cfg.mediaWindowEnable && a.mediaView.session && !ChainsToVolume(a) ==>
      o == Outcome(a.(mediaView := a.mediaView.(pending := a.mediaView.pending + 1)), None)
    ensures BothChained(a) ==> o.raised == Some(RecursionError)
    decreases depth, 0
  {
    if !a.m.cfg.mediaWindowEnable || !a.mediaView.session then Outcome(a, None)
    else if ChainsToVolume(a) then
      if depth == 0 then Outcome(a, Some(RecursionError)) else ShowVolumeChained(a, false, depth - 1)
    else Outcome(a.(mediaView := a.mediaView.(pending := a.mediaView.pending + 1)), None)
  }

  /** `VolumePopup.show_popup` calling the repaired media popup. */
  function ShowVolumeChained(a: App, deviceChanged: bool, depth: nat): (o: Outcome)
    requires Wired(a)
    ensures KeepsWiring(a, o.app)
    ensures !a.m.cfg.volumeWindowEnable ==> o == Outcome(a, None)
    ensures BothChained(a) ==> o.raised == Some(RecursionError)
    decreases depth, 1
  {
    if !a.m.cfg.volumeWindowEnable then Outcome(a, None)
    else
      CoreKeepsChained(a, deviceChanged);
      var o := VolumeCore(a, deviceChanged);
      if o.raised.Some? || !ChainsToMedia(o.app) then o
      else if depth == 0 then Outcome(o.app, Some(RecursionError))
      else ShowMedia(o.app, depth - 1)
  }

  /** Repaired, the chained media show brings up the volume popup (when
      the volume popup does not chain back) and leaves the media popup as
      it was. */
  lemma MediaChainShowsVolume(a: App, depth: nat)
    requires Wired(a) && a.m.cfg.mediaWindowEnable && a.mediaView.session && ChainsToVolume(a)
    requires a.m.cfg.volumeWindowEnable && !a.m.cfg.volumeShowMedia
    requires a.m.cfg.volumeStep != 0 && a.m.screenRate != Some(0.0) && depth >= 1
    ensures var o := ShowMedia(a, depth);
      && o.raised.None? && o.app.m.popups[a.volume].visible
      && o.app.mediaView == a.mediaView
      && (!a.m.popups[a.media].isActive ==> o.app.m.popups[a.media] == a.m.popups[a.media])
  {
  }

  /** Both popups enabled and chained to each other, a session, neither
      popup active, and nothing that makes the show raise. */
  predicate BothChained(a: App) {
    && Wired(a) && a.m.cfg.mediaWindowEnable && a.mediaView.session && a.m.cfg.volumeWindowEnable
    && a.m.cfg.volumeShowMedia && a.m.cfg.mediaShowVolume
    && a.m.cfg.volumeStep != 0 && a.m.screenRate != Some(0.0)
    && !a.m.popups[a.volume].isActive && !a.m.popups[a.media].isActive
  }

  /** Showing the volume popup keeps both popups inactive and the media
      popup as it was, so the volume popup chains on. */
  lemma CoreKeepsChained(a: App, deviceChanged: bool)
    requires Wired(a)
    ensures BothChained(a) ==> VolumeCore(a, deviceChanged).raised.None?
    ensures BothChained(a) ==>
      BothChained(VolumeCore(a, deviceChanged).app) && ChainsToMedia(VolumeCore(a, deviceChanged).app)
  {
    if BothChained(a) {
      VolumeShown(a, deviceChanged);
    }
  }

  /** `_show_popup_async`'s display step for one metadata dictionary: the
      labels, the cover (`None` when there are no bytes or they do not
      decode), the timeline, then `_show_popup`. `timeline` is the progress
      `_update_timeline` computes from the session, `None` when it returns
      early or fails. */
  function Display(a: App, info: Media.Info, decodes: bool, timeline: Option<real>): (o: Outcome)
    requires Wired(a)
    ensures KeepsWiring(a, o.app)
    ensures o.raised.None? ==>
      && o.app.mediaView.title == info.title && o.app.mediaView.artist == info.artist
      && o.app.m.popups[a.media].visible
      && (o.app.mediaView.cover.Some? <==> !Media.CoverMissing(info.cover) && decodes)
    ensures o.raised.None? && 0.0 <= a.mediaView.progress <= 1.0 ==> 0.0 <= o.app.mediaView.progress <= 1.0
  {
    var cover := if !Media.CoverMissing(info.cover) && decodes then info.cover else None;
    var progress :=
      if !a.mediaView.session || !a.m.cfg.mediaShowTimeline then 0.0
      else match timeline
        case None => a.mediaView.progress
        case Some(t) => Media.SetProgress(t);
    var v := a.mediaView.(title := info.title, artist := info.artist, cover := cover, progress := progress);
    Present(a.(mediaView := v), a.media)
  }

  /** The bar Display leaves behind: empty with no session or the timeline
      switched off, the previous value when the reading failed, and the
      reading clamped into [0, 1] by `set_progress` otherwise. */
  lemma DisplayProgress(a: App, info: Media.Info, decodes: bool, timeline: Option<real>)
    requires Wired(a)
    ensures var o := Display(a, info, decodes, timeline);
        && (!a.mediaView.session || !a.m.cfg.mediaShowTimeline ==> o.app.mediaView.progress == 0.0)
        && (a.mediaView.session && a.m.cfg.mediaShowTimeline && timeline.None? ==>
              o.app.mediaView.progress == a.mediaView.progress)
        && (a.mediaView.session && a.m.cfg.mediaShowTimeline && timeline.Some? ==>
              && (0.0 <= timeline.value <= 1.0 ==> o.app.mediaView.progress == timeline.value)
              && (timeline.value < 0.0 ==> o.app.mediaView.progress == 0.0)
              && (timeline.value > 1.0 ==> o.app.mediaView.progress == 1.0))
  {
  }

  /** The labels shown when the metadata cannot be read. */
  const UnknownTitle: string := "Неизвестное название"
  const UnknownArtist: string := "Неизвестный исполнитель"

  /** `_show_popup_async` as written: the metadata read returns `None`
      rather than raising, so `info["title"]` raises `TypeError` and the
      placeholder in the `except` branch is never used. The read keys the
      cover cache by `title + artist`. */
  function ShowAsyncAsWritten(a: App, props: Option<Media.Properties>, read: Option<Media.Bytes>,
                              decodes: bool, timeline: Option<real>): (o: Outcome)
    requires Wired(a)
    ensures KeepsWiring(a, o.app)
  {
    var got := Media.GetMediaInfoAsWritten(a.mediaView.cache, a.mediaView.session, props, read);
    var a1 := a.(mediaView := a.mediaView.(cache := got.cache,
                                           pending := if a.mediaView.pending > 0 then a.mediaView.pending - 1 else 0));
    match got.info
    case None => Outcome(a1, Some(TypeError))
    case Some(info) => Display(a1, info, decodes, timeline)
  }

  /** As written, a session without readable properties leaves the popup
      hidden and raises `TypeError`. */
  lemma NoInfoAsWritten(a: App, read: Option<Media.Bytes>, decodes: bool, timeline: Option<real>)
    requires Wired(a)
    ensures var o := ShowAsyncAsWritten(a, None, read, decodes, timeline);
      o.raised == Some(TypeError) && o.app.m == a.m
  {
  }

  /** `_show_popup_async` as evidently intended: no metadata shows the
      placeholder labels with the default cover. The cover cache is keyed
      by title and artist apart. */
  function ShowAsync(a: App, props: Option<Media.Properties>, read: Option<Media.Bytes>,
                     decodes: bool, timeline: Option<real>): (o: Outcome)
    requires Wired(a)
    ensures KeepsWiring(a, o.app)
    ensures a.m.screenRate != Some(0.0) ==> o.raised.None?
    ensures o.raised.None? ==> o.app.m.popups[a.media].visible
  {
    var got := Media.GetMediaInfo(a.mediaView.cache, a.mediaView.session, props, read);
    var a1 := a.(mediaView := a.mediaView.(cache := got.cache,
                                           pending := if a.mediaView.pending > 0 then a.mediaView.pending - 1 else 0));
    var info := if got.info.Some? then got.info.value else Media.Info(UnknownTitle, UnknownArtist, None);
    Display(a1, info, decodes, timeline)
  }

  /** Repaired, missing metadata shows the popup with the placeholder. */
  lemma NoInfoPlaceholder(a: App, read: Option<Media.Bytes>, decodes: bool, timeline: Option<real>)
    requires Wired(a) && a.m.screenRate != Some(0.0)
    ensures var o := ShowAsync(a, None, read, decodes, timeline);
      && o.raised.None? && o.app.m.popups[a.media].visible
      && o.app.mediaView.title == UnknownTitle && o.app.mediaView.artist == UnknownArtist
      && o.app.mediaView.cover.None?
  {
  }
}
