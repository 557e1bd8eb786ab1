# Poppy, modelled in Dafny

Poppy is a Windows tray utility that shows small always-on-top popups. It
shows one for the keyboard layout and lock keys, one for the volume, one for
the playing media and one next to the mouse pointer. This project models the
sequential, integer-valued logic behind those popups and proves properties
of it. Each component is one Dafny module:

- `Animation` (animation.dfy) is the tween engine. An animation is a state
  machine: idle, waiting on its delay, running, stopped. It covers value
  resolution, the type check, the zero-duration shortcut, truncating
  interpolation of points, sizes and colours, ticks, `stop` and `stop_all`.
  Time is an integer count of elapsed milliseconds.
- `Popups` (popup.dfy) is the state of one popup window. `Layout`
  (layout.dfy) is the popup manager's geometry: anchor positions, slide
  offsets, the nearest-lower-popup choice, stacking, and the animation
  factories.
- `Lifecycle` (lifecycle.dfy) is the popup lifecycle: construction, showing
  with the re-stack pass, fade-in completion, the dismiss timer, the hover
  veto and the hover freeze.
- `Keyboard` (keyboard.dfy) is the keyboard hook state machine: lock keys,
  layout-switch chords, the volume and media keys, the switch-device hotkey
  and the lock-bit readings.
- `Audio` (audio.dfy) covers volume stepping, mute and the device rotation.
  `Config` (config.dfy) covers settings loading, the `save_*` setters and
  the device-binding list.
- `Text` (text.dfy) holds the two string helpers of `utils.py`.
  `Localization` (localizer.dfy) is the translation lookup.
- `HotkeyEditor` (hotkey.dfy) covers the hotkey editor and the device
  selector of the audio-switch settings window.
- `Cursor` (cursor.dfy) is the cursor popup's clamping.
- `Windows` (windows.dfy) holds the show gating of the cursor-following
  keyboard popup, the volume popup and the media popup, the volume icon and
  slider, the volume popup's double click, and the mutual chaining of the
  volume and media popups.
- `Media` (media.dfy) covers the timeline progress, the average cover
  colour and the track and cover cache.
- `Wrappers` (wrappers.dfy) and `Arith` (arith.dfy) are support.

Every handler is a pure function from a state record to the next one. An
exception the source raises is a `Failure` (or a `raised` field). Calls
into Qt, the operating system and the `keyboard`, pycaw and winsdk
libraries are parameters: the getter's reading, the screen's refresh rate,
the image's pixels, the JSON parser, the session's media properties.

## Model

| member | source | states |
|---|---|---|
| Animation.Trunc | poppy/animations.py:108-109 | `int()` of a float truncates toward zero: the result is within one of the argument, on the side of zero |
| Animation.LerpEndpoints | poppy/animations.py:107-110 | one truncated component is the start at progress 0 and the end at progress 1 |
| Animation.LerpConstant | poppy/animations.py:127-132 | interpolating a component to itself yields it at every progress |
| Animation.LerpWithin | poppy/animations.py:117-120 | with progress in [0, 1], a component stays between its endpoints, though nothing clamps it |
| Animation.LerpMonotone | poppy/animations.py:107-110 | a growing progress moves a component monotonically toward its end |
| Animation.InterpolateEndpoints | poppy/animations.py:102-135 | for every interpolable kind, progress 0 gives the start and progress 1 the end (an int comes back as a float) |
| Animation.InterpolateConstant | poppy/animations.py:102-135 | C to C yields C at every progress, for scalars, points, sizes and colours |
| Animation.InterpolateSucceeds | poppy/animations.py:102-135 | interpolation succeeds exactly on two scalars or on two values of one shape among point, size and colour |
| Animation.Progress | poppy/animations.py:143 | progress never exceeds 1, is non-negative for a positive duration, and is 1 exactly when the elapsed time reaches the duration |
| Animation.ProgressMonotone | poppy/animations.py:141-143 | progress does not decrease as time passes |
| Animation.TickInterval | poppy/animations.py:87 | for the float frame rate, the tick interval is at least 1 ms; for a rate up to 1000 Hz it is the whole part of `1000 / framerate`, and a rate above 1000 Hz or a negative one gives 1 ms |
| Animation.TickIntervalWhole | poppy/animations.py:87 | for a whole positive frame rate the interval is `max(1, 1000 div framerate)` |
| Animation.TickIntervalFractional | poppy/animations.py:84-87 | a fractional refresh rate is not rounded before the division: 40.5 Hz gives 24 ms against 25 ms at 40 Hz, and 59.94 Hz gives 16 ms |
| Animation.TruncDivPositive | poppy/animations.py:87 | `int(1000 / framerate)` is integer division for a positive frame rate |
| Animation.Stop | poppy/animations.py:156-172 | stop leaves both timers cancelled and the live set, keeps the configuration, and fires onFinished exactly when the animation was running, asked to, and has a callback |
| Animation.StopIdempotent | poppy/animations.py:156-172 | a second stop fires nothing and changes nothing |
| Animation.Run | poppy/animations.py:41-54 | a run never fires onFinished; with a delay it only waits, calls nothing and raises nothing; it is running exactly when it joined the live set |
| Animation.DelayElapsed | poppy/animations.py:56-60 | only a pending delay timer can fire, and firing never calls onFinished |
| Animation.Tick | poppy/animations.py:137-154 | a tick on a stopped animation does nothing; a tick fires onFinished at most once, and only when it stops the animation |
| Animation.RunTicks | poppy/animations.py:56-97 | a run that leaves the animation running has resolved values of one interpolable kind and a positive duration |
| Animation.TickReachesEnd | poppy/animations.py:141-154 | a tick before the duration applies one value and keeps running; the first tick at or past it applies the end value, stops, and fires onFinished exactly when one is set |
| Animation.TicksWhenStopped | poppy/animations.py:137-139 | ticks after a stop apply nothing and change nothing |
| Animation.FinishedAtMostOnce | poppy/animations.py:137-172 | however many ticks arrive, onFinished fires at most once |
| Animation.ZeroDurationRun | poppy/animations.py:41-79 | with duration at most 0 and no delay, the setter is called exactly once, with the end value (the getter's reading when the end is read on run), and the animation ends stopped without onFinished and without error |
| Animation.RunResolvesValues | poppy/animations.py:62-66 | a missing or get-on-run start or end value is the getter's reading; any other is kept |
| Animation.RunRejectsMismatch | poppy/animations.py:68-73 | start and end of different types raise TypeError, call no setter and leave the animation not running |
| Animation.StartCoreMembership | poppy/animations.py:89-97 | the start procedure adds the animation to the live set exactly when it leaves it running |
| Animation.ApplyKeepsConsistent | poppy/animations.py:97-166 | adding to and discarding from the live set keeps it equal to the set of running animations |
| Animation.OperationsKeepConsistent | poppy/animations.py:41-172 | run, tick, stop and the delay timer each keep the live set equal to the set of running animations |
| Animation.StopAll | poppy/animations.py:182-186 | stop_all empties the live set and keeps every animation record |
| Animation.StopAllEffect | poppy/animations.py:182-186 | after stop_all nothing runs, the live set is still consistent, and an animation waiting on its delay keeps waiting |
| Popups.NewPopup | poppy/base_popup.py:31-53 | a new popup is hidden, transparent, inactive, not hovered and unanchored, has the given size, order and behaviour flags, and runs no animation |
| Popups.WithSlot | poppy/base_popup.py:43-47 | replacing one of the five animation attributes sets that one and keeps the other four and every other field |
| Layout.BaseMargins | poppy/popup_manager.py:106-132 | the table keeps 20 px from the left, right and top edges and 20 px plus the 45 px taskbar pad from the bottom; the middle column and the fallback split the free width (the left gap at most 1 px narrower); side and centre anchors sit one popup height above the vertical centre |
| Layout.SlideOffset | poppy/popup_manager.py:143-155 | no anchor gives (0,0); an anchor gives a 50 px offset along exactly one axis |
| Layout.SlideOffsetDirection | poppy/popup_manager.py:147-154 | left anchors give (-50,0), right anchors (50,0), "top" gives (0,-50), "bottom" and "center" give (0,50) |
| Layout.Scan | poppy/popup_manager.py:157-169 | the scan from any index keeps the best candidate so far: a visible other popup at the same anchor with the greatest order in (-1, order of the target), the first one on ties |
| Layout.NearestLower | poppy/popup_manager.py:157-169 | the result is None exactly when there is no candidate; otherwise it is a candidate of maximal order, and no earlier candidate has that order |
| Layout.TargetPosition | poppy/popup_manager.py:95-104 | an unanchored popup, or a hovered stay-on-hover one, keeps its position; any other popup without a screen goes to (0, 0) |
| Layout.StackKeepsX | poppy/popup_manager.py:134-141 | stacking changes only Y: X is the table's |
| Layout.StackStep | poppy/popup_manager.py:134-139 | the first popup at an anchor takes the table position; a later one sits 8 px below the one it stacks on for anchors containing "top", and 8 px above it otherwise |
| Layout.StackSeparates | poppy/popup_manager.py:134-139 | among visible popups at one anchor with distinct orders, any popup of lower non-negative order is at least 8 px away from a higher one, on the side the anchor grows to |
| Layout.StartPosition | poppy/popup_manager.py:42-46 | the start position is the target plus the slide offset when animation is on, and the target otherwise |
| Layout.Tween | poppy/popup_manager.py:86-93 | a factory animation reads its start on run, ends on the given target, and has the given duration and property and no delay |
| Layout.FadeInAnim | poppy/popup_manager.py:48-55 | the fade-in targets transparency / 100 over the show duration on the window opacity |
| Layout.FadeOutAnim | poppy/popup_manager.py:67-74 | the fade-out targets 0.0 over twice the show duration |
| Layout.SlideInAnim | poppy/popup_manager.py:57-65 | with animation on and an anchor, the slide-in moves to the target over the show duration; otherwise it is a default animation |
| Layout.SlideOutAnim | poppy/popup_manager.py:76-84 | with animation on and an anchor, the slide-out moves by the slide offset over twice the show duration; otherwise it is a default animation |
| Layout.ShiftAnim | poppy/popup_manager.py:86-93 | the shift moves to the target over the show duration, with no check of the animation setting or the anchor |
| Layout.SlideOutRetracesSlideIn | poppy/popup_manager.py:42-84 | for a popup resting at its target, the slide-out ends where the slide-in started |
| Lifecycle.Construct | poppy/base_popup.py:38-55 | a constructed popup is appended to the registry hidden, inactive, not hovered, with no timer armed and nothing running; the popups registered before are untouched |
| Lifecycle.ApplyEffects | poppy/animations.py:151-170 | setter calls without a finish callback change only the opacity and the position |
| Lifecycle.RunIn | poppy/base_popup.py:165-170 | installing and running an animation in one slot fails exactly when the run raises, and changes only that slot (and the place its setter writes) |
| Lifecycle.StopIn | poppy/base_popup.py:160-161 | stopping a slot leaves it neither running nor delaying and changes no other slot or field |
| Lifecycle.FactoryRun | poppy/popup_manager.py:48-93 | a factory animation fails only on a zero refresh rate with a positive duration; otherwise it runs exactly when its duration is positive, keeps its configuration and callback, and ends on its target (or on the getter's reading) |
| Lifecycle.FactoryStepRaises | poppy/animations.py:76-87 | for a factory-built animation, `run()` raises exactly for a positive duration and a zero refresh rate, and then it is a division by zero |
| Lifecycle.FactoryStepAnim | poppy/animations.py:56-97 | for a factory-built animation that does not raise, `run()` leaves it running exactly for a positive duration, ticking then, with its configuration kept |
| Lifecycle.FactoryRunKeepsPlace | poppy/animations.py:76-97 | a factory animation with a positive duration applies nothing when it starts, and the default animation's setter writes nowhere |
| Lifecycle.ApplyEffectsKeepsPlace | poppy/animations.py:29-30 | effects that neither finish nor write through a bound setter leave the popup unchanged |
| Lifecycle.FactoriesWellTyped | poppy/popup_manager.py:48-93 | all five factories build animations without delay or frame rate, read their start on run, and end on a value of the getter's shape |
| Lifecycle.RestartFadeIn | poppy/base_popup.py:163-167 | a fade-in that is not running is replaced by a fresh one that stops the dismiss timer and activates the popup when it ends; a running one is left alone |
| Lifecycle.RestartSlideIn | poppy/base_popup.py:168-170 | a slide-in that is not running is replaced by a fresh one towards the target; a running one is left alone; nothing else changes |
| Lifecycle.ShowStepsOutcome | poppy/base_popup.py:159-170 | the show steps fail only on a zero refresh rate with a positive show duration, keep the popup's identity, and leave fade-out and slide-out stopped |
| Lifecycle.ShowStepsAnims | poppy/base_popup.py:159-170 | the show steps start a fade-in exactly when none was running, keep a running fade-in and slide-in and the shift, and do not move the popup when the show duration is positive |
| Lifecycle.ShowAnimation | poppy/base_popup.py:159-170 | show_animation cancels fade-out and slide-out without callbacks, restarts fade-in (stopping the timer) and slide-in only if they are not running, and fails only on a zero refresh rate |
| Lifecycle.StartFadeOut | poppy/base_popup.py:183-185 | the hide starts a fresh fade-out to full transparency that ends in `hide()`, changing no other slot |
| Lifecycle.StartSlideOut | poppy/base_popup.py:187-189 | a fresh slide-out is installed and runs exactly for a popup that slides when hiding, with animation on, an anchor and a positive show duration |
| Lifecycle.HideAnimation | poppy/base_popup.py:176-189 | hide_animation is vetoed for a hovered stay-on-hover popup; otherwise it deactivates the popup, runs the fade-out ending in `hide()`, and runs the slide-out only for popups that slide when hiding; only that popup changes |
| Lifecycle.Enter | poppy/base_popup.py:191-195 | pointer enter stops the timer of an active stay-on-hover popup, records the pointer, and changes nothing else |
| Lifecycle.Leave | poppy/base_popup.py:197-201 | pointer leave re-arms the timer of an active stay-on-hover popup for the full popup duration, records the pointer leaving, and changes nothing else |
| Lifecycle.HoverVetoesHide | poppy/base_popup.py:176-195 | once the pointer is on a stay-on-hover popup, a hide request changes nothing |
| Lifecycle.HoverRearms | poppy/base_popup.py:191-201 | entering and leaving an active stay-on-hover popup restarts its countdown from the full duration and changes nothing else |
| Lifecycle.TimerFired | poppy/base_popup.py:49-51 | the single-shot dismiss timer fires only when armed, disarms itself, and deactivates the popup unless the hover veto applies |
| Lifecycle.TickSlot | poppy/animations.py:137-154 | a tick of a slot that is not running changes nothing; a tick changes only its own popup |
| Lifecycle.FadeInCompletes | poppy/base_popup.py:172-174 | the fade-in's last tick brings the popup to the configured opacity, activates it and arms the dismiss timer for the popup duration |
| Lifecycle.FadeOutCompletes | poppy/base_popup.py:183-185 | the fade-out's last tick leaves the popup fully transparent and hidden |
| Lifecycle.ShowCancelsHide | poppy/base_popup.py:159-161 | after show_animation no later tick of the fade-out or slide-out calls anything, so a pending hide never happens |
| Lifecycle.ZeroShowDuration | poppy/animations.py:76-79 | with a show duration of 0 or less, showing never activates the popup or arms its timer, and hiding never hides the window |
| Lifecycle.ShiftPopup | poppy/base_popup.py:136-145 | shift_popup leaves a hidden popup alone; a shown one gets a new shift towards its target and re-runs show_animation; only that popup changes |
| Lifecycle.ShiftLoop | poppy/popup_manager.py:37-39 | the loop shifts each other active popup at the same anchor and leaves every other popup exactly as it was |
| Lifecycle.ShiftThenLoop | poppy/popup_manager.py:37-39 | shifting one popup and then the rest of the loop changes only the re-stacked popups from that index on |
| Lifecycle.ShiftKeepsStacking | poppy/popup_manager.py:38 | shifting a popup changes neither which popups are re-stacked nor the shown popup |
| Lifecycle.UpdatePopups | poppy/popup_manager.py:32-40 | update_popups is a no-op under the guard; otherwise it shifts the other active popups at the same anchor, leaves all other popups unchanged, and lowers the guard again |
| Lifecycle.Reveal | poppy/base_popup.py:150-153 | a hidden popup is anchored from its settings, moved to its start position and shown; no other popup changes |
| Lifecycle.RestackAndAnimate | poppy/base_popup.py:155-157 | the re-stack pass runs, then show_animation: the popup ends with any hide cancelled and a fade-in if none was running; popups that are not re-stacked are untouched |
| Lifecycle.ShowPopup | poppy/base_popup.py:147-157 | `_show_popup` leaves the popup shown and anchored with any hide cancelled and its flags kept, re-stacks the other active popups at its anchor, and touches no other popup |
| Lifecycle.ShowPlacesHidden | poppy/base_popup.py:150-153 | a hidden popup is placed at its start position: the slide offset away from the target with animation on, the target otherwise |
| Lifecycle.ReentryIsShowAnimation | poppy/base_popup.py:145-157 | for a shown popup under the guard, re-entering `_show_popup` only runs show_animation |
| Lifecycle.ShowThenActivate | poppy/base_popup.py:147-174 | showing a popup whose fade-in is not running, and letting that fade-in finish, leaves it shown, active, at the configured opacity, with the timer armed for the popup duration |
| Keyboard.OnLock | poppy/keyboard_handler.py:102-144 | a lock key's handler ignores other names; a press latches the key and reports the lock change exactly when it was not latched already; a release unlatches it silently; nothing else changes |
| Keyboard.OnCtrl | poppy/keyboard_handler.py:148-155 | ctrl down sets the flag; ctrl up clears it and the foreign-key flag, and reports a layout switch exactly when shift is held and no foreign key was pressed |
| Keyboard.OnAlt | poppy/keyboard_handler.py:157-164 | the same for alt |
| Keyboard.OnShift | poppy/keyboard_handler.py:166-173 | shift up reports a layout switch exactly when ctrl or alt is held and no foreign key was pressed, and clears shift and the foreign-key flag |
| Keyboard.OnAnyKey | poppy/keyboard_handler.py:181-188 | the catch-all hook ignores modifier and lock names and releases; any other key pressed while (ctrl or alt) and shift are held marks the chord foreign |
| Keyboard.DispatchProperties | poppy/keyboard_handler.py:40-69 | each event keeps the foreign-key flag confined to a held chord, raises at most one callback, reports a layout switch only on a modifier release, and nothing for keys without a handler of their own |
| Keyboard.FeedKeepsValid | poppy/keyboard_handler.py:40-69 | any sequence of events keeps the foreign-key flag confined to a held chord and raises at most one callback per event |
| Keyboard.AutoRepeatReportsOnce | poppy/keyboard_handler.py:106-109 | a lock key held down with any number of auto-repeats is reported once, and only if it was not latched; other flags are untouched |
| Keyboard.ReleaseRearms | poppy/keyboard_handler.py:110-111 | after a lock key comes up, the next press is reported again |
| Keyboard.ChordSwitches | poppy/keyboard_handler.py:148-173 | ctrl or alt with shift, pressed and released in either order, switches the layout exactly once and returns the handler to its initial state |
| Keyboard.ForeignKeyVetoes | poppy/keyboard_handler.py:153-188 | a key pressed inside the chord vetoes the switch, and the release that follows clears the veto |
| Keyboard.VolumeButtons | poppy/keyboard_handler.py:79-94 | the volume keys pass through exactly when the volume window is off; otherwise they are swallowed, and a press of volume up, down or mute runs that command and reports a volume change without a device change |
| Keyboard.MediaButtons | poppy/keyboard_handler.py:96-99 | the media keys always pass through and report a media change exactly on key-down |
| Keyboard.RemoveHotkey | poppy/keyboard_handler.py:73 | removing a hotkey succeeds exactly when it is registered, and then only it is removed; otherwise KeyError |
| Keyboard.SetSwitchHotkeyAsWritten | poppy/keyboard_handler.py:71-77 | as written: an enabled non-empty hotkey is registered and remembered; otherwise the old name stays remembered although it was removed |
| Keyboard.StaleHotkeyAsWritten | poppy/keyboard_handler.py:71-77 | registering a hotkey, turning the option off, and turning it on again raises KeyError on the last call |
| Keyboard.SetSwitchHotkey | poppy/keyboard_handler.py:71-77 | corrected: an enabled non-empty hotkey is registered and remembered, and a previous different hotkey is no longer registered |
| Keyboard.SetSwitchHotkeyInSync | poppy/keyboard_handler.py:71-77 | from a state where exactly the remembered hotkey is registered, the corrected setter never raises, keeps that agreement, and registers a hotkey exactly when the option is on and the string non-empty |
| Keyboard.ToggleBit | poppy/keyboard_handler.py:196 | `state & 0x0001 != 0` is the low bit of the 16-bit key state |
| Keyboard.PressedBitIgnored | poppy/keyboard_handler.py:193-211 | the pressed bit (the sign of the returned SHORT) does not change the reading, which is the parity of the toggle state |
| Audio.RoundHalfEven | poppy/audio_manager.py:30 | Python's `round` of an exact quotient is within half a divisor of it, and exact on multiples |
| Audio.Snap | poppy/audio_manager.py:30 | the reading snapped to the step is within half a step of the level, a multiple of the step, and the level itself when that is a multiple |
| Audio.GetVolume | poppy/audio_manager.py:50-52 | `get_volume` raises exactly for a zero step, and is otherwise within half a step of the level |
| Audio.VolumeUp | poppy/audio_manager.py:28-34 | `volume_up` raises exactly for a zero step; otherwise it unmutes, and the new level is the smaller of 100 and one step above the snapped reading, positive from a non-negative level |
| Audio.VolumeDown | poppy/audio_manager.py:36-42 | `volume_down` raises exactly for a zero step; otherwise it unmutes, and the new level is the larger of 0 and one step below the snapped reading, below 100 from a level at most 100 |
| Audio.UpThenDown | poppy/audio_manager.py:28-42 | on a multiple of the step at least a step below the top, a step up adds exactly one step and a step down comes back, unmuted |
| Audio.DownThenUp | poppy/audio_manager.py:28-42 | on a multiple of the step at least a step above 0, a step down and a step up come back, unmuted |
| Audio.SetVolume | poppy/audio_manager.py:44-48 | `set_volume` clamps the argument into [0, 100] and unmutes |
| Audio.ToggleMute | poppy/audio_manager.py:58-63 | `toggle_mute` writes `1 - mute`, keeps the level, and reports muted exactly when the endpoint was unmuted |
| Audio.ToggleTwice | poppy/audio_manager.py:58-63 | two toggles restore the endpoint and, from a 0/1 state, report opposite states |
| Audio.VolumeKey | poppy/keyboard_handler.py:79-94 | the volume hook with its audio-manager call reacts as `volume_buttons` does, raises exactly for a zero step on a volume-up or volume-down press with the window on, and leaves the endpoint alone when no command runs |
| Audio.VolumeKeysRunCommands | poppy/keyboard_handler.py:84-92 | with the volume window on, a press of volume up, down or mute leaves the endpoint as `volume_up`, `volume_down` or `toggle_mute` leave it, swallows the key and refreshes the popup without a device change; with the window off every key passes through and the endpoint is kept |
| Audio.OtherVolumeEventsInert | poppy/keyboard_handler.py:79-94 | with the volume window on, a release or any other key is swallowed and runs nothing |
| Audio.Enabled | poppy/audio_manager.py:81-84 | the select-mode candidates are exactly the switched-on bindings whose device is among the outputs |
| Audio.EnabledAppend | poppy/audio_manager.py:81-84 | the candidates keep configuration order: a binding added at the end of the configuration is added at the end of the candidates exactly when it qualifies |
| Audio.FirstId | poppy/audio_manager.py:92-97 | the lookup finds the first candidate with the id, or reports that none has it |
| Audio.Calls | poppy/audio_manager.py:108-112 | one default-device call for a non-empty device id, first, and one for a non-empty microphone id, last, and no others; every call carries console and communications roles exactly when the option is on |
| Audio.SwitchDevice | poppy/audio_manager.py:76-112 | `switch_device` fails (division by zero) exactly in all-devices mode with no outputs; in select mode with no candidates it does nothing; without an id it moves to the next candidate or output cyclically and sets that candidate's device and bound microphone (only the device in all-devices mode); with an id it jumps to the first candidate having it, or does nothing |
| Audio.RotateCycles | poppy/audio_manager.py:99-104 | k switches without an id from an index inside the cycle land on `(index + k) mod n` |
| Audio.StepAdvances | poppy/audio_manager.py:99-104 | one switch without an id moves to the next device of the cycle |
| Audio.RotationReturns | poppy/audio_manager.py:99-104 | n switches come back to the starting device |
| Audio.InitialIndex | poppy/audio_manager.py:18-26 | the starting index is the first output named like the current default, or 0 when none is |
| Config.LoadSetting | poppy/config.py:43-50 | `_load_setting` returns the stored value when the key has one and the default otherwise |
| Config.LoadFlag | poppy/config.py:60-61 | an on/off setting with nothing stored takes its default |
| Config.LoadNumber | poppy/config.py:116-118 | an integer setting reads the stored DWORD, and takes its default when nothing is stored |
| Config.LoadText | poppy/config.py:88-89 | a string setting reads the stored REG_SZ, and takes its default when nothing is stored |
| Config.LoadEmpty | poppy/config.py:7-41 | on a first start every setting takes its default: keyboard popup, volume popup, media popup, timeline, sound and taskbar offset on; step 2, sound type 5, 2500 ms, 95 %, 80 ms; anchors "center", "bottom", "right-bottom"; hotkey "alt+a"; no bindings |
| Config.LoadStored | poppy/config.py:43-50 | a stored value of the expected type wins over the default; an on/off setting reads as its truthiness |
| Config.Deserialize | poppy/config.py:341-347 | an empty or undecodable stored list, or a DWORD in its place, loads as the empty list; a decodable one as what it decodes to |
| Config.SaveFlag | poppy/config.py:63-65 | an on/off setter keeps the value in memory, leaves every other flag, number, text and the device list in memory as they were, and stores DWORD 1 or 0 under its own key |
| Config.SaveNumber | poppy/config.py:120-122 | an integer setter keeps the value in memory, leaves every flag, other number, text and the device list in memory as they were, and stores it as a DWORD under its own key |
| Config.SaveText | poppy/config.py:91-93 | a string setter keeps the value in memory, leaves every flag, number, other text and the device list in memory as they were, and stores it as REG_SZ under its own key |
| Config.FlagFrame | poppy/config.py:63-65 | replacing one on/off setting in memory sets it and keeps every other flag, every integer and every string setting |
| Config.NumberFrame | poppy/config.py:120-122 | replacing one integer setting in memory sets it and keeps every flag, every other integer and every string setting |
| Config.TextFrame | poppy/config.py:91-93 | replacing one string setting in memory sets it and keeps every flag, every integer and every other string setting |
| Config.SaveRoundTrip | poppy/config.py:43-306 | what any setter keeps in memory is what the next start loads for that setting |
| Config.Without | poppy/config.py:239 | the filtered list holds no binding for the id, only bindings of the list |
| Config.FirstWith | poppy/config.py:242-245 | the lookup finds the first binding for the id, or reports that none has it |
| Config.UpsertDevice | poppy/config.py:233-247 | a binding switched off is removed under its id; one switched on replaces the first entry with its id in place, or is appended when there is none |
| Config.WithoutAppend | poppy/config.py:239 | filtering distributes over appending one binding |
| Config.WithoutUpdate | poppy/config.py:244 | replacing an entry by one with the same id does not change the filtered list |
| Config.UpsertKeepsOthers | poppy/config.py:233-247 | the entries for other ids keep their values and order, and a binding switched off leaves no entry for its id |
| Config.WithoutIdempotent | poppy/config.py:239 | filtering twice is filtering once |
| Config.SaveDevice | poppy/config.py:233-249 | `save_audio_switch_device` changes the list in memory and writes the whole list back as one string |
| Config.SaveDeviceRoundTrip | poppy/config.py:229-249 | with a codec that decodes what it encodes, the saved list is what the next start loads |
| Text.Leading | poppy/utils.py:133 | the leading run that `strip()` removes is all whitespace and stops at a non-space character |
| Text.Trailing | poppy/utils.py:133 | the trailing run that `strip()` removes is all whitespace and stops at a non-space character |
| Text.Strip | poppy/utils.py:133 | `strip()` yields a slice of the string with no whitespace at either end, and everything cut away on either side is whitespace |
| Text.StripIdempotent | poppy/utils.py:133 | stripping twice strips nothing more |
| Text.LastIndexOf | poppy/utils.py:130 | `rfind` gives the last occurrence, or -1 exactly when the character does not occur |
| Text.StripAudioName | poppy/utils.py:128-133 | the cleaned device name is a trimmed slice of the name; for a name containing '(' and ending in ')' it ends before the last '(' with only whitespace in between; any other name is just stripped |
| Text.SliceContains | poppy/popup_manager.py:136 | `"top" in s` holds whenever the text occurs at some offset |
| Text.ContainsOffset | poppy/popup_manager.py:136 | and every positive `in` test has an offset behind it |
| Text.HexRoundTrip | poppy/utils.py:90 | the upper-case digits `hex` prints read back as the number |
| Text.StrRoundTrip | poppy/volume_popup.py:99 | the decimal text `str` prints reads back as the number, behind a minus sign for a negative one |
| Text.ZFill2 | poppy/utils.py:90 | `zfill(2)` pads to two characters and never shortens |
| Text.ColorWithAlpha | poppy/utils.py:80-91 | `color_with_alpha` raises ValueError exactly when what is left after dropping one leading '#' is not six characters; otherwise the result starts with '#', has at least nine characters and ends with those six |
| Text.ColorWithAlphaRoundTrip | poppy/utils.py:80-91 | for an alpha in [0, 255] the result has the nine characters of "#AARRGGBB" and its alpha digits read back as the alpha |
| Localization.New | poppy/localizer.py:9-14 | the constructor raises ValueError exactly when the default language has no table; otherwise it starts in that language with the given tables |
| Localization.SetLanguage | poppy/localizer.py:16-22 | `set_language` raises ValueError exactly for a language without a table; switching to the current language changes and emits nothing; any other switch emits the new language once |
| Localization.SetLanguageIdempotent | poppy/localizer.py:19-20 | choosing the same language twice emits only once, and the second call is a no-op |
| Localization.Tr | poppy/localizer.py:24-25 | `tr` returns the current language's entry, or the key in braces when there is none |
| Localization.FallbackShowsKey | poppy/localizer.py:25 | a missing key reads as itself between '{' and '}' |
| Localization.SwitchedLookup | poppy/localizer.py:16-25 | after a switch, lookups read the new language's table |
| HotkeyEditor.MappedNamePlain | poppy/audio_switch_settings_window.py:75-106 | no name in the key map contains '+' |
| HotkeyEditor.KeyNamePlain | poppy/audio_switch_settings_window.py:64-112 | no key name contains '+', so a key name is one segment of a hotkey string |
| HotkeyEditor.KeyName | poppy/audio_switch_settings_window.py:64-112 | letters and digits name themselves in lower case, F1-F24 are "f1"-"f24", Enter and Return are "enter", '[' and ']' are the left and right bracket, and no name contains '+' |
| HotkeyEditor.BracketRightAsWritten | poppy/audio_switch_settings_window.py:100-101 | as written, the ']' key has no name and the '}' key is called "right bracket" |
| HotkeyEditor.ModParts | poppy/audio_switch_settings_window.py:41-49 | the modifier segments are non-empty and '+'-free, at most four, and absent exactly when no modifier is held |
| HotkeyEditor.SplitJoin | poppy/audio_switch_settings_window.py:58 | splitting a "+"-join of '+'-free segments at '+' gives the segments back |
| HotkeyEditor.Clear | poppy/audio_switch_settings_window.py:114-118 | `clear` empties the hotkey and emits the empty string |
| HotkeyEditor.SetHotkey | poppy/audio_switch_settings_window.py:124-132 | `setHotkey` of the empty string is `clear`; any other string becomes the hotkey and is emitted |
| HotkeyEditor.CtrlBracketAsWritten | poppy/audio_switch_settings_window.py:21-62 | as written, Ctrl+] records the bare modifier "ctrl" as the hotkey |
| HotkeyEditor.KeyPress | poppy/audio_switch_settings_window.py:21-62 | with the corrected key map (']' as "right bracket"): Tab, unknown keys and bare modifiers are ignored; Esc clears; otherwise the edit clears exactly when there is neither a modifier nor a key name, and else records and emits a hotkey whose '+'-segments are the held modifiers in order followed by the key name, none of them empty |
| HotkeyEditor.PressShape | poppy/audio_switch_settings_window.py:38-60 | a recorded hotkey is the non-empty "+"-join of its segments, and splitting it gives them back |
| HotkeyEditor.CtrlBracket | poppy/audio_switch_settings_window.py:21-62 | with the corrected map, Ctrl+] records "ctrl+right bracket" |
| HotkeyEditor.LastBinding | poppy/audio_switch_settings_window.py:164 | the lookup dictionary yields the last binding of the list with that id, or nothing when the list has none |
| HotkeyEditor.IndexOf | poppy/audio_switch_settings_window.py:189 | `list.index` finds the first position of the value, and fails exactly when the value is absent |
| HotkeyEditor.InitialRow | poppy/audio_switch_settings_window.py:179-198 | a device without a binding starts unchecked on "do not change the microphone"; with a binding the box shows its on flag and, checked or not, the combo selects the first position of the bound microphone among the inputs (plus one), or "do not change" when there is none or it is not listed |
| HotkeyEditor.OnChange | poppy/audio_switch_settings_window.py:205-212 | the emitted binding has the device's id and the check box state, and a microphone exactly when checked with a real microphone selected |
| HotkeyEditor.SelectorRoundTrip | poppy/audio_switch_settings_window.py:164-212 | re-emitting an untouched row gives back the stored binding when it is on and its microphone is listed or unset; otherwise the microphone is dropped |
| Cursor.ClampAxis | poppy/keyboard_popup_cursor.py:72-79 | one axis of the clamp: never before the near edge, not past the far edge when the popup fits, unchanged when already inside, and the near edge when the popup is too large |
| Cursor.ClampNearest | poppy/keyboard_popup_cursor.py:72-79 | when the popup fits, the clamp picks the allowed position nearest to the pointer's target |
| Cursor.MoveToCursor | poppy/keyboard_popup_cursor.py:57-81 | the popup goes to the pointer plus (10, 23), pulled back inside the work area whose `right()` and `bottom()` are its last column and row; too large a popup sits on the left or top edge |
| Cursor.InsideFollowsPointer | poppy/keyboard_popup_cursor.py:64-69 | a pointer well inside the work area puts the popup exactly at the fixed offset from it |
| Cursor.MoveIdempotent | poppy/keyboard_popup_cursor.py:57-81 | moving again from the placed position, with the offset taken back, changes nothing |
| Windows.Present | poppy/base_popup.py:147-157 | `_show_popup` from a popup's own handler succeeds exactly when the lifecycle's show does; on an exception the state is as before the call; only the registry changes |
| Windows.ShowCursor | poppy/keyboard_popup_cursor.py:35-51 | the cursor popup's `show_popup` does nothing with the keyboard window off; otherwise it sets the label, plays the sound only with the pointer option on, shows the popup and starts the move timer at one frame, at least 1 ms and 16 ms without a screen |
| Windows.CursorTick | poppy/keyboard_popup_cursor.py:57-81 | a tick of the running move timer places the cursor popup next to the pointer inside the work area and changes nothing else; without the timer nothing happens |
| Windows.IconFor | poppy/volume_popup.py:80-89 | the icon choice is total and exclusive: mute for volume 0 or muted, else low below 33, medium below 66, high otherwise |
| Windows.IconMonotone | poppy/volume_popup.py:80-89 | a louder unmuted volume never shows a quieter icon |
| Windows.SliderChange | poppy/volume_popup.py:97-100 | a slider change sets the endpoint's volume, shows the value as its decimal text and picks the icon as unmuted, changing nothing else |
| Windows.SliderShowsValue | poppy/volume_popup.py:97-100 | a slider value in [0, 100] is what the endpoint, the number and the icon show afterwards, unmuted |
| Windows.IconClick | poppy/volume_popup.py:93-95 | a click on the icon toggles mute and shows the icon for the slider value and the new mute state |
| Windows.IconClickTwice | poppy/volume_popup.py:93-95 | two clicks restore the endpoint and the icon shows its mute state again |
| Windows.SliderValue | poppy/volume_popup.py:36-37 | the 0..100 slider holds a value inside its range: an in-range value as it is, anything else clamped to the nearer end |
| Windows.VolumeRefresh | poppy/volume_popup.py:106-120 | the number and icon always show the reading and the slider holds it clamped to 0..100; the height and device line are recomputed only for a hidden popup or a device change, and nothing outside the volume popup changes |
| Windows.VolumeCore | poppy/volume_popup.py:102-122 | the volume popup's show raises ZeroDivisionError for a zero step before touching anything; otherwise it refreshes the widgets and presents the popup |
| Windows.OverRangeReading | poppy/volume_popup.py:102-119 | a step of 6 at level 100 reads 102: the number shows 102 while the slider stops at 100 |
| Windows.NameOf | poppy/volume_popup.py:132-136 | the device name looked up by id is found exactly when some output has that id, and it is that output's name |
| Windows.DoubleClick | poppy/volume_popup.py:127-136 | with double tap off the double click changes nothing; with it on, it runs the device switch (failing exactly when there is no binding list and no output), and the device line shows the new endpoint's name, shortened unless full names are on, while nothing else in the app changes |
| Windows.DoubleClickNamesNext | poppy/volume_popup.py:127-136 | with the device list off and distinct output ids, a double click moves to the next output in the rotation and the device line shows that output's name |
| Windows.VolumeShown | poppy/volume_popup.py:102-122 | after the show the volume popup is visible with its activity unchanged, its number shows the snapped volume and its slider that volume within 0..100, and every other inactive popup is untouched |
| Windows.VolumeHeight | poppy/volume_popup.py:108-113 | the device line adds 20 px exactly when the name is shown, by the option or a device change; the height is only recomputed for a hidden popup or a device change |
| Windows.ShowVolume | poppy/volume_popup.py:102-125 | the volume popup's `show_popup` does nothing with the volume window off, and is just the core show when it does not chain to the media popup |
| Windows.VolumeChainRaises | poppy/volume_popup.py:124-125 | with both popups chained to each other and inactive, showing the volume popup brings it up and then raises AttributeError in the media popup's chain back |
| Windows.ShowMediaAsWritten | poppy/media_info_popup.py:192-207 | as written, the media popup's `show_popup` does nothing when off or without a session, schedules one metadata task when not chained, and raises AttributeError when chained |
| Windows.MediaChainAsWritten | poppy/media_info_popup.py:199-201 | as written, the chained show never reaches the volume popup and changes nothing |
| Windows.ShowMedia | poppy/media_info_popup.py:192-207 | repaired, the media popup's gating is kept, and with both popups chained to each other and inactive the shows call each other until the recursion limit |
| Windows.ShowVolumeChained | poppy/volume_popup.py:102-125 | the volume popup calling the repaired media popup does nothing when off, and recurses until the limit when both popups chain to each other |
| Windows.MediaChainShowsVolume | poppy/media_info_popup.py:199-201 | repaired, the chained media show brings up the volume popup when that does not chain back, and leaves the media popup's widgets and (if inactive) the popup as they were |
| Windows.CoreKeepsChained | poppy/volume_popup.py:102-124 | showing the volume popup keeps both popups inactive and chained to each other, so the volume popup chains on |
| Windows.Display | poppy/media_info_popup.py:217-229 | the display step shows the title and artist, a cover exactly when there are bytes that decode, keeps the progress in [0, 1], and presents the popup |
| Windows.DisplayProgress | poppy/media_info_popup.py:226-265 | the bar is empty without a session or with the timeline off, keeps its value when the reading fails, and otherwise shows the reading clamped into [0, 1] |
| Windows.ShowAsyncAsWritten | poppy/media_info_popup.py:209-229 | as written, the asynchronous show keeps the three popups where they are in the registry; what it does with no metadata is stated by `NoInfoAsWritten` |
| Windows.NoInfoAsWritten | poppy/media_info_popup.py:209-218 | as written, a session without readable metadata raises TypeError and leaves the popups as they were |
| Windows.ShowAsync | poppy/media_info_popup.py:209-229 | repaired, the asynchronous show raises only from a zero refresh rate and otherwise leaves the media popup visible |
| Windows.NoInfoPlaceholder | poppy/media_info_popup.py:211-215 | repaired, missing metadata shows the popup with the placeholder title and artist and the default cover |
| Media.SetProgress | poppy/media_info_popup.py:41-43 | `set_progress` keeps its value in [0, 1], unchanged inside, 0 below and 1 above |
| Media.TallyAppend | poppy/media_info_popup.py:437-450 | the channel sums of two runs of samples add up |
| Media.SampleRow | poppy/media_info_popup.py:442-450 | the inner loop adds exactly the tally of the row's samples at 0, step, 2·step, … |
| Media.AverageColor | poppy/media_info_popup.py:425-460 | `_get_average_color` equals the floor average of the counted samples of every step-th row and column, or (128, 128, 128) for a null or empty image or when nothing was counted |
| Media.TallyBounds | poppy/media_info_popup.py:437-450 | at most every sample is counted, and each channel sum is at most 255 per counted pixel |
| Media.AverageInRange | poppy/media_info_popup.py:456-460 | every channel of the average lies in [0, 255] |
| Media.UniformCover | poppy/media_info_popup.py:425-460 | a cover of one solid visible colour averages to that colour |
| Media.TransparentCoverFallback | poppy/media_info_popup.py:445-454 | when the alpha test sees each pixel's own alpha, a transparent cover gives the fallback grey |
| Media.TransparentCoverAsWritten | poppy/media_info_popup.py:443-446 | as written, a transparent black pixel read through `QColor(QRgb)` is opaque, so the cover averages to black instead of the fallback |
| Media.InfoWith | poppy/media_info_popup.py:303-338 | no session or no properties yields no info and keeps the cache; otherwise the info carries the title and artist (or their defaults) and the cached cover, the thumbnail is read exactly when the track changed or no cover is cached and there is a thumbnail, and an unchanged track with a cover keeps the cache |
| Media.CoverFollowsTrack | poppy/media_info_popup.py:318-327 | a read of the same track with a cover cached reuses it without reading; a different track takes its freshly read thumbnail |
| Media.TrackKeyInjective | poppy/media_info_popup.py:314-320 | keys that keep title and artist apart are equal exactly for equal titles and artists |
| Media.TrackKeyCollisionAsWritten | poppy/media_info_popup.py:316-320 | as written, "AB" by "C" and "A" by "BC" share a key, so the second track shows the first one's cover and its own thumbnail is never read |
| Media.TrackKeyCollisionFixed | poppy/media_info_popup.py:316-320 | with the pair key those two tracks each get their own cover |

## Left out

- Qt widgets, painting, stylesheets and the theme lookup (`apply_theme`, `get_windows_theme`, `load_icon`, the timeline's HSL colour, the play/pause buttons, the background colour): rendering, not logic.
- Floating point: the QPointF and QSizeF interpolation branches and `_update_timeline`'s datetime arithmetic. Progress and opacity are exact reals, and the timeline's reading is a parameter of `Windows.Display`.
- Real timers and clocks: an animation tick carries the elapsed milliseconds, the dismiss timer is the armed duration, and the screen's refresh rate is a parameter, a real number as Qt reports it (`None` without a screen).
- Registry and JSON I/O: the registry key is a map, a key that cannot be opened reads as the empty map, and the JSON codec is a pair of parameters. `_load_autostart` and `save_autostart` touch another key and the executable path, and are not part of this model.
- The `keyboard` library, pycaw and winsdk: hooks become events fed to `Keyboard.Dispatch`, the endpoint is a record with an integer level in percent (the pycaw scalar taken as exactly `level / 100`), `GetKeyState` is a function parameter, and the media session's properties and thumbnail bytes are parameters.
- `_get_duration` of the cursor popup: it reads two configuration attributes the `Config` class does not define, so it would raise AttributeError, and nothing calls it. The dismiss timer uses `popup_duration` directly, as the model does.
- `hideEvent` stopping the cursor popup's move timer and the media popup's timeline timer, and `showEvent` starting the latter: they only start and stop timers, and the timers' ticks are modelled by `Windows.CursorTick` and the `timeline` parameter of `Windows.Display`.
- Exceptions inside a handler: PyQt6 ends the process on an exception escaping a slot, so a handler that raises is a `Failure` with no partial state, except in `Windows`, where the state before the exception is kept.
- The shift factory, unlike the slide-in factory, checks neither the animation setting nor the anchor. The model follows the code (`Layout.ShiftAnim`).
- A zero or negative sampling step in `_get_average_color` is not modelled: `Media.AverageColor` and its lemmas require a positive step, and the source always passes 5.
- In the key map, the "esc" and "tab" entries are unreachable, since `keyPressEvent` handles both keys before the lookup. They are kept in the map.
- Windows.ShowMedia: `depth` stands in for Python's recursion limit, so the mutual recursion of the repaired chain ends in RecursionError after that many calls rather than after Python's limit.
- A show duration of 0 or less is kept as the source behaves, not repaired: the fade-in then never calls its finish callback, so the popup is never activated and never dismissed by its timer (`Lifecycle.ZeroShowDuration`).
- Config.LoadNumber / Config.LoadText: a stored value of the other registry type (a REG_SZ where a number is expected, a DWORD where a string is) reads as the setting's default, because a `Settings` field has one type. `_load_setting` hands back the raw value instead, so a VolumeWindowStep stored as the string "5" would make `volume_up` raise TypeError in the source.
- Audio.GetVolume: states only the bound of the snapped reading, not the exact ties-to-even choice `round` makes, which `Audio.RoundHalfEven` defines.

## Findings

| source | as written | input that shows it | evidently intended | confidence | as-written member | corrected member |
|---|---|---|---|---|---|---|
| poppy/keyboard_handler.py:71-77 | a removed hotkey stays remembered, so the next call removes it again | register "alt+a", turn the option off, turn it on again: the last call raises KeyError | forget a hotkey once it is removed | high, not executed | Keyboard.StaleHotkeyAsWritten | Keyboard.SetSwitchHotkeyInSync |
| poppy/audio_switch_settings_window.py:100-101 | "right bracket" is keyed by `Key_BraceRight` ('}') | Ctrl+] records "ctrl" | "right bracket" on `Key_BracketRight`, like "left bracket" on `Key_BracketLeft` | high, not executed | HotkeyEditor.CtrlBracketAsWritten | HotkeyEditor.CtrlBracket |
| poppy/media_info_popup.py:199-201 | the chained show calls `keyboard_handler.get_volume()`, which `KeyboardHandler` does not define | media popup with "show volume" on and the volume popup hidden: AttributeError, no popup appears | call `volume_popup.show_popup()` | high, not executed | Windows.MediaChainAsWritten | Windows.MediaChainShowsVolume |
| poppy/media_info_popup.py:209-218 | `_get_media_info` returns `None` instead of raising, so `info["title"]` raises TypeError and the placeholder is dead code | a session whose properties cannot be read | show the placeholder labels | high, not executed | Windows.NoInfoAsWritten | Windows.NoInfoPlaceholder |
| poppy/media_info_popup.py:443-446 | the pixel is read through `QColor(QRgb)`, which drops the alpha, so the transparency skip never fires | a 1×1 transparent black cover averages to black | skip near-transparent pixels and fall back to grey | medium, not executed | Media.TransparentCoverAsWritten | Media.TransparentCoverFallback |
| poppy/media_info_popup.py:316-320 | the track key is `title + artist` | "AB" by "C" then "A" by "BC": the second track shows the first one's cover | a key that keeps title and artist apart | high, not executed | Media.TrackKeyCollisionAsWritten | Media.TrackKeyCollisionFixed |
