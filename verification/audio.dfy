/** The audio manager of poppy/audio_manager.py: stepping, setting and
    muting the default output's volume, and rotating the default device.

    The endpoint is its master level in percent and its mute state; the
    pycaw scalar is taken as exactly `level / 100`, so `round` sees the
    exact quotient. The device list and `SetDefaultDevice` are values: the
    outputs are a parameter and the calls come back as a list. */
module Audio {
  import opened Wrappers
  import opened Arith
  import opened Config
  import Keyboard

  datatype Endpoint = Endpoint(level: int, mute: int)

  datatype AudioError = ZeroDivision

  /** Python's `round` on the exact quotient `n / d` (`d > 0`): to the
      nearest integer, ties to the even one. */
  function RoundHalfEven(n: int, d: int): (k: int)
    requires d > 0
    ensures 2 * (n - k * d) <= d && 2 * (k * d - n) <= d
    ensures n % d == 0 ==> k * d == n
  {
    var q := n / d;
    var r := n % d;
    assert n == q * d + r;
    assert (q + 1) * d == q * d + d;
    if 2 * r > d then q + 1
    else if 2 * r < d then q
    else if q % 2 == 0 then q
    else q + 1
  }

  /** `int(round(level * 100 / step) * step)`: the reading snapped to the
      nearest multiple of the step. */
  function Snap(level: int, step: int): (s: int)
    requires step != 0
    ensures step > 0 ==> 2 * (level - s) <= step && 2 * (s - level) <= step
    ensures step > 0 && level % step == 0 ==> s == level
    ensures step > 0 ==> s % step == 0
  {
    if step > 0 then
      var k := RoundHalfEven(level, step);
      assert (k * step) % step == 0 by { ModMultiple(k, step); }
      k * step
    else RoundHalfEven(-level, -step) * step
  }

  /** `get_volume`. */
  function GetVolume(e: Endpoint, step: int): (r: Result<int, AudioError>)
    ensures r.Failure? <==> step == 0
    ensures r.Success? && step > 0 ==> 2 * (e.level - r.value) <= step && 2 * (r.value - e.level) <= step
  {
    if step == 0 then Failure(ZeroDivision) else Success(Snap(e.level, step))
  }

  /** `volume_up`: one step above the snapped reading, at most 100, and
      unmuted. The returned level is the new endpoint's. */
  function VolumeUp(e: Endpoint, step: int): (r: Result<Endpoint, AudioError>)
    ensures r.Failure? <==> step == 0
    ensures r.Success? ==> r.value.mute == 0
    ensures r.Success? ==> r.value.level <= 100
    ensures r.Success? ==> r.value.level == 100 || r.value.level == Snap(e.level, step) + step
    ensures r.Success? ==> r.value.level <= Snap(e.level, step) + step
    ensures r.Success? && step > 0 && 0 <= e.level ==> 0 < r.value.level
  {
    if step == 0 then Failure(ZeroDivision)
    else
      var current := Snap(e.level, step);
      Success(Endpoint(if 100 < current + step then 100 else current + step, 0))
  }

  /** `volume_down`: one step below the snapped reading, at least 0. */
  function VolumeDown(e: Endpoint, step: int): (r: Result<Endpoint, AudioError>)
    ensures r.Failure? <==> step == 0
    ensures r.Success? ==> r.value.mute == 0
    ensures r.Success? ==> 0 <= r.value.level
    ensures r.Success? ==> r.value.level == 0 || r.value.level == Snap(e.level, step) - step
    ensures r.Success? ==> Snap(e.level, step) - step <= r.value.level
    ensures r.Success? && step > 0 && e.level <= 100 ==> r.value.level < 100
  {
    if step == 0 then Failure(ZeroDivision)
    else
      var current := Snap(e.level, step);
      Success(Endpoint(if current - step < 0 then 0 else current - step, 0))
  }

  /** On a level that is a multiple of the step and at least a step away
      from the top, a step up and a step down come back to it. */
  lemma UpThenDown(e: Endpoint, step: int)
    requires step > 0 && e.level % step == 0 && 0 <= e.level && e.level + step <= 100
    ensures VolumeUp(e, step).Success?
    ensures VolumeUp(e, step).value.level == e.level + step
    ensures VolumeDown(VolumeUp(e, step).value, step) == Success(Endpoint(e.level, 0))
  {
    var up := VolumeUp(e, step).value;
    assert (e.level + step) % step == 0 by { ModShift(1, e.level, step); }
    assert Snap(up.level, step) == up.level;
  }

  /** The same from below. */
  lemma DownThenUp(e: Endpoint, step: int)
    requires step > 0 && e.level % step == 0 && step <= e.level <= 100
    ensures VolumeDown(e, step).Success?
    ensures VolumeDown(e, step).value.level == e.level - step
    ensures VolumeUp(VolumeDown(e, step).value, step) == Success(Endpoint(e.level, 0))
  {
    var down := VolumeDown(e, step).value;
    assert (e.level - step) % step == 0 by { ModShift(-1, e.level, step); }
    assert Snap(down.level, step) == down.level;
  }

  /** `set_volume`: the argument clamped into [0, 100], unmuted. */
  function SetVolume(e: Endpoint, value: int): (r: Endpoint)
    ensures 0 <= r.level <= 100 && r.mute == 0
    ensures 0 <= value <= 100 ==> r.level == value
    ensures value < 0 ==> r.level == 0
    ensures value > 100 ==> r.level == 100
  {
    Endpoint(if value < 0 then 0 else if value > 100 then 100 else value, 0)
  }

  /** `toggle_mute`: the endpoint with `1 - mute`, and whether it is now
      muted. */
  function ToggleMute(e: Endpoint): (r: (Endpoint, bool))
    ensures r.0.level == e.level && r.0.mute + e.mute == 1
    ensures r.1 <==> e.mute == 0
  {
    var m := 1 - e.mute;
    (e.(mute := m), m == 1)
  }

  /** Two toggles restore the mute state, and report opposite states. */
  lemma ToggleTwice(e: Endpoint)
    ensures ToggleMute(ToggleMute(e).0).0 == e
    ensures e.mute == 0 || e.mute == 1 ==> ToggleMute(ToggleMute(e).0).1 != ToggleMute(e).1
  {
  }

  /** A volume key's command on the endpoint. */
  function Perform(e: Endpoint, step: int, c: Keyboard.VolumeCommand): Result<Endpoint, AudioError> {
    match c
    case StepUp => VolumeUp(e, step)
    case StepDown => VolumeDown(e, step)
    case ToggleMute => Success(ToggleMute(e).0)
  }

  /** `volume_buttons` with the audio-manager call it makes: the hook's
      reaction and the endpoint afterwards. An exception from the call
      escapes the hook. */
  function VolumeKey(e: Endpoint, step: int, enable: bool, ev: Keyboard.KeyEvent): (r: Result<(Endpoint, Keyboard.Reaction), AudioError>)
    ensures r.Success? ==> r.value.1 == Keyboard.VolumeButtons(enable, ev)
    ensures r.Failure? <==> step == 0 && enable && ev.eventType == Keyboard.KeyDown && ev.name in ["volume up", "volume down"]
    ensures Keyboard.VolumeButtons(enable, ev).command.None? ==> r.Success? && r.value.0 == e
  {
    var re := Keyboard.VolumeButtons(enable, ev);
    match re.command
    case None => Success((e, re))
    case Some(c) =>
      match Perform(e, step, c)
      case Failure(err) => Failure(err)
      case Success(e2) => Success((e2, re))
  }

  /** With the volume window on, a key-down of each volume key leaves the
      endpoint as `volume_up`, `volume_down` or `toggle_mute` leave it,
      swallows the key and refreshes the popup without a device change.
      With the window off every key passes through and nothing changes. */
  lemma VolumeKeysRunCommands(e: Endpoint, step: int)
    ensures var r := VolumeKey(e, step, true, Keyboard.KeyEvent("volume up", Keyboard.KeyDown));
      && (r.Success? <==> VolumeUp(e, step).Success?)
      && (r.Success? ==> r.value == (VolumeUp(e, step).value, Keyboard.Reaction(false, Some(Keyboard.StepUp), [Keyboard.VolumeChange(false)])))
    ensures var r := VolumeKey(e, step, true, Keyboard.KeyEvent("volume down", Keyboard.KeyDown));
      && (r.Success? <==> VolumeDown(e, step).Success?)
      && (r.Success? ==> r.value == (VolumeDown(e, step).value, Keyboard.Reaction(false, Some(Keyboard.StepDown), [Keyboard.VolumeChange(false)])))
    ensures VolumeKey(e, step, true, Keyboard.KeyEvent("volume mute", Keyboard.KeyDown))
      == Success((ToggleMute(e).0, Keyboard.Reaction(false, Some(Keyboard.ToggleMute), [Keyboard.VolumeChange(false)])))
    ensures forall ev: Keyboard.KeyEvent :: VolumeKey(e, step, false, ev) == Success((e, Keyboard.Reaction(true, None, [])))
  {
  }

  /** A key-up, or a key-down of any other key, is swallowed and changes
      nothing while the volume window is on. */
  lemma OtherVolumeEventsInert(e: Endpoint, step: int, ev: Keyboard.KeyEvent)
    requires ev.eventType == Keyboard.KeyUp || ev.name !in ["volume up", "volume down", "volume mute"]
    ensures VolumeKey(e, step, true, ev) == Success((e, Keyboard.Reaction(false, None, [])))
  {
  }

  /** An output device as `get_all_output_devices` lists it. */
  datatype Device = Device(id: string, name: string)

  predicate HasId(outputs: seq<Device>, id: string) {
    exists k :: 0 <= k < |outputs| && outputs[k].id == id
  }

  /** The select-mode candidates: the switched-on bindings whose device is
      among the current outputs, in configuration order. */
  function Enabled(bindings: seq<Binding>, outputs: seq<Device>): (r: seq<Binding>)
    ensures |r| <= |bindings|
    ensures forall k :: 0 <= k < |r| ==> r[k] in bindings && r[k].on && HasId(outputs, r[k].id)
    ensures forall b :: b in bindings && b.on && HasId(outputs, b.id) ==> b in r
    decreases |bindings|
  {
    if bindings == [] then []
    else
      var rest := Enabled(bindings[1..], outputs);
      assert forall b :: b in bindings[1..] ==> b in bindings;
      assert forall b :: b in bindings ==> b == bindings[0] || b in bindings[1..];
      if bindings[0].on && HasId(outputs, bindings[0].id) then [bindings[0]] + rest else rest
  }

  /** The candidates keep configuration order: filtering a list with one
      more binding at the end adds that binding at the end exactly when it
      qualifies. */
  lemma {:induction false} EnabledAppend(bindings: seq<Binding>, b: Binding, outputs: seq<Device>)
    ensures Enabled(bindings + [b], outputs)
      == Enabled(bindings, outputs) + (if b.on && HasId(outputs, b.id) then [b] else [])
    decreases |bindings|
  {
    if bindings == [] {
      assert ([] + [b])[1..] == [];
    } else {
      assert (bindings + [b])[0] == bindings[0];
      assert (bindings + [b])[1..] == bindings[1..] + [b];
      EnabledAppend(bindings[1..], b, outputs);
    }
  }

  /** The position of the first candidate with the given id. */
  function FirstId(devs: seq<Binding>, id: string): (i: Option<nat>)
    ensures i.Some? ==> i.value < |devs| && devs[i.value].id == id
    ensures i.Some? ==> forall k :: 0 <= k < i.value ==> devs[k].id != id
    ensures i.None? ==> forall k :: 0 <= k < |devs| ==> devs[k].id != id
    decreases |devs|
  {
    if devs == [] then None
    else if devs[0].id == id then Some(0)
    else match FirstId(devs[1..], id)
      case None => None
      case Some(k) => Some(k + 1)
  }

  /** The roles passed to `SetDefaultDevice`: console and communications
      when the option is on, the library default otherwise. */
  datatype Role = Console | Communications

  datatype DefaultCall = SetDefaultDevice(id: string, roles: Option<seq<Role>>)

  /** The switcher's state and what it reads. */
  datatype Switcher = Switcher(index: nat)

  /** `if dev_id:` and `if mic_id:`, each followed by a `SetDefaultDevice`. */
  function Calls(dev: Option<string>, mic: Option<string>, communication: bool): (cs: seq<DefaultCall>)
    ensures |cs| <= 2
    ensures (dev.Some? && dev.value != "") <==> (cs != [] && cs[0].id == dev.GetOr(""))
    ensures |cs| == (if dev.Some? && dev.value != "" then 1 else 0) + (if mic.Some? && mic.value != "" then 1 else 0)
    ensures mic.Some? && mic.value != "" ==> cs[|cs| - 1].id == mic.value
    ensures forall k :: 0 <= k < |cs| ==> cs[k].roles == (if communication then Some([Console, Communications]) else None)
  {
    var roles := if communication then Some([Console, Communications]) else None;
    (if dev.Some? && dev.value != "" then [SetDefaultDevice(dev.value, roles)] else [])
    + (if mic.Some? && mic.value != "" then [SetDefaultDevice(mic.value, roles)] else [])
  }

  /** `switch_device`: the next index and the calls made. */
  function SwitchDevice(s: Switcher, cfg: Settings, outputs: seq<Device>, deviceId: Option<string>)
    : (r: Result<(Switcher, seq<DefaultCall>), AudioError>)
    ensures r.Failure? <==> !cfg.switchSelect && outputs == []
    ensures r.Success? && cfg.switchSelect && Enabled(cfg.switchDevices, outputs) == [] ==> r.value == (s, [])
    ensures r.Success? && deviceId.None? && cfg.switchSelect && Enabled(cfg.switchDevices, outputs) != [] ==>
      var en := Enabled(cfg.switchDevices, outputs);
      && r.value.0.index == (s.index + 1) % |en|
      && r.value.1 == Calls(Some(en[r.value.0.index].id), en[r.value.0.index].mic, cfg.switchSetCommunication)
    ensures r.Success? && !cfg.switchSelect ==>
      r.value.0.index == (s.index + 1) % |outputs| && r.value.1 == Calls(Some(outputs[r.value.0.index].id), None, cfg.switchSetCommunication)
    ensures r.Success? && cfg.switchSelect && deviceId.Some? ==>
      var en := Enabled(cfg.switchDevices, outputs);
      match FirstId(en, deviceId.value)
      case None => r.value == (s, [])
      case Some(i) => r.value.0.index == i && r.value.1 == Calls(Some(deviceId.value), en[i].mic, cfg.switchSetCommunication)
  {
    if cfg.switchSelect then
      var en := Enabled(cfg.switchDevices, outputs);
      if en == [] then Success((s, []))
      else match deviceId
        case Some(id) =>
          (match FirstId(en, id)
           case None => Success((s, Calls(None, None, cfg.switchSetCommunication)))
           case Some(i) => Success((Switcher(i), Calls(Some(en[i].id), en[i].mic, cfg.switchSetCommunication))))
        case None =>
          var i := (s.index + 1) % |en|;
          Success((Switcher(i), Calls(Some(en[i].id), en[i].mic, cfg.switchSetCommunication)))
    else if outputs == [] then Failure(ZeroDivision)
    else
      var i := (s.index + 1) % |outputs|;
      Success((Switcher(i), Calls(Some(outputs[i].id), None, cfg.switchSetCommunication)))
  }

  /** `k` rotations without an id, from an index already inside the list,
      land on `(index + k) mod n`; `n` rotations come back to the start. */
  function Rotate(s: Switcher, cfg: Settings, outputs: seq<Device>, k: nat): Result<Switcher, AudioError>
    decreases k
  {
    if k == 0 then Success(s)
    else match SwitchDevice(s, cfg, outputs, None)
      case Failure(e) => Failure(e)
      case Success(v) => Rotate(v.0, cfg, outputs, k - 1)
  }

  /** The number of devices a rotation cycles through. */
  function CycleLength(cfg: Settings, outputs: seq<Device>): nat {
    if cfg.switchSelect then |Enabled(cfg.switchDevices, outputs)| else |outputs|
  }

  lemma {:induction false} RotateCycles(s: Switcher, cfg: Settings, outputs: seq<Device>, k: nat)
    requires CycleLength(cfg, outputs) > 0 && s.index < CycleLength(cfg, outputs)
    ensures Rotate(s, cfg, outputs, k) == Success(Switcher((s.index + k) % CycleLength(cfg, outputs)))
    decreases k
  {
    var n := CycleLength(cfg, outputs);
    if k > 0 {
      StepAdvances(s, cfg, outputs);
      var next := Switcher((s.index + 1) % n);
      assert Rotate(s, cfg, outputs, k) == Rotate(next, cfg, outputs, k - 1);
      RotateCycles(next, cfg, outputs, k - 1);
      ModAdd(s.index, k, n);
    }
  }

  /** One switch without a device id moves to the next device of the cycle. */
  lemma StepAdvances(s: Switcher, cfg: Settings, outputs: seq<Device>)
    requires CycleLength(cfg, outputs) > 0
    ensures SwitchDevice(s, cfg, outputs, None).Success?
    ensures SwitchDevice(s, cfg, outputs, None).value.0 == Switcher((s.index + 1) % CycleLength(cfg, outputs))
  {
  }

  lemma ModAdd(i: nat, k: nat, n: nat)
    requires n > 0 && k > 0
    ensures ((i + 1) % n + (k - 1)) % n == (i + k) % n
  {
    var q := (i + 1) / n;
    assert i + 1 == q * n + (i + 1) % n;
    assert (i + k) == q * n + ((i + 1) % n + (k - 1));
    ModShift(q, (i + 1) % n + (k - 1), n);
  }

  lemma ModShift(q: int, x: int, n: int)
    requires n > 0
    ensures (q * n + x) % n == x % n
  {
    var a, b := x / n, x % n;
    assert x == a * n + b;
    assert q * n + x == (q + a) * n + b;
    DivModUnique(q * n + x, n, q + a, b);
  }

  lemma RotationReturns(s: Switcher, cfg: Settings, outputs: seq<Device>)
    requires CycleLength(cfg, outputs) > 0 && s.index < CycleLength(cfg, outputs)
    ensures Rotate(s, cfg, outputs, CycleLength(cfg, outputs)) == Success(s)
  {
    var n := CycleLength(cfg, outputs);
    assert (s.index + n) % n == s.index by {
      ModShift(1, s.index, n);
      DivModUnique(s.index, n, 0, s.index);
    }
    RotateCycles(s, cfg, outputs, n);
  }

  /** `AudioManager.__init__`: the position of the first output named like
      the current default, or 0 when none is. */
  function InitialIndex(outputs: seq<Device>, currentName: string): (i: nat)
    ensures i == 0 || i < |outputs|
    ensures (exists k :: 0 <= k < |outputs| && outputs[k].name == currentName) ==>
      i < |outputs| && outputs[i].name == currentName && forall k :: 0 <= k < i ==> outputs[k].name != currentName
    ensures (forall k :: 0 <= k < |outputs| ==> outputs[k].name != currentName) ==> i == 0
    decreases |outputs|
  {
    if outputs == [] then 0
    else if outputs[0].name == currentName then 0
    else
      var rest := InitialIndex(outputs[1..], currentName);
      if exists k :: 0 <= k < |outputs| - 1 && outputs[1..][k].name == currentName then
        rest + 1
      else
        assert forall k :: 0 <= k < |outputs| ==> outputs[k].name != currentName by {
          forall k | 0 <= k < |outputs| ensures outputs[k].name != currentName {
            if k > 0 { assert outputs[1..][k - 1] == outputs[k]; }
          }
        }
        0
  }
}
