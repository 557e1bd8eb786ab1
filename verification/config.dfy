/** poppy/config.py: the settings record, its defaults, loading each setting
    from the `Software\Poppy` registry key with a fallback, the `save_*`
    setters that update memory and persist, and the list of audio-switch
    device bindings.

    The registry key is a map from value names to DWORD or string values; a
    key that cannot be opened reads as the empty map. JSON encoding and
    decoding of the binding list are parameters (`serialize`, `parse`). */
module Config {
  import opened Wrappers

  /** A registry value: REG_DWORD or REG_SZ. */
  datatype RegValue = Dword(n: int) | Sz(s: string)

  type Registry = map<string, RegValue>

  /** One entry of `audio_switch_devices`: `{"id", "on", "mic"}`. */
  datatype Binding = Binding(id: string, on: bool, mic: Option<string>)

  /** The attributes of a `Config` object the rest of the program reads. */
  datatype Settings = Settings(
    keyboardWindowEnable: bool,
    keyboardShowLanguage: bool,
    keyboardShowCursor: bool,
    keyboardShowModifiers: bool,
    keyboardWindowPosition: string,
    volumeWindowEnable: bool,
    volumeWindowPosition: string,
    volumeShowMedia: bool,
    volumeStep: int,
    volumeShowName: bool,
    volumeFullName: bool,
    mediaWindowEnable: bool,
    mediaWindowPosition: string,
    mediaShowVolume: bool,
    mediaShowTimeline: bool,
    mediaColorByCover: bool,
    mediaShowOnChange: bool,
    switchDoubleTap: bool,
    switchTray: bool,
    switchTrayFullName: bool,
    switchHotkey: bool,
    switchHotkeyValue: string,
    switchSetCommunication: bool,
    switchSelect: bool,
    switchDevices: seq<Binding>,
    sound: bool,
    soundType: int,
    taskbar: bool,
    popupDuration: int,
    popupTransparency: int,
    popupShowDuration: int,
    animation: bool,
    language: string)

  /** The on/off settings, each persisted as DWORD 1 or 0. */
  datatype FlagSetting =
    | KeyboardWindowEnable | KeyboardShowLanguage | KeyboardShowCursor | KeyboardShowModifiers
    | VolumeWindowEnable | VolumeShowMedia | VolumeShowName | VolumeFullName
    | MediaWindowEnable | MediaShowVolume | MediaShowTimeline | MediaColorByCover | MediaShowOnChange
    | SwitchDoubleTap | SwitchTray | SwitchTrayFullName | SwitchHotkey | SwitchSetCommunication
    | SwitchSelect | Sound | Taskbar | AnimationFlag

  /** The integer settings, persisted as DWORD. */
  datatype NumberSetting = VolumeStep | SoundType | PopupDuration | PopupTransparency | PopupShowDuration

  /** The string settings, persisted as REG_SZ. */
  datatype TextSetting = KeyboardPosition | VolumePosition | MediaPosition | HotkeyValue | Language

  function FlagKey(f: FlagSetting): string {
    match f
    case KeyboardWindowEnable => "KeyboardWindowEnable"
    case KeyboardShowLanguage => "KeyboardWindowShowLanguage"
    case KeyboardShowCursor => "KeyboardWindowShowCursor"
    case KeyboardShowModifiers => "KeyboardWindowShowModifiers"
    case VolumeWindowEnable => "VolumeWindowEnable"
    case VolumeShowMedia => "VolumeWindowShowMedia"
    case VolumeShowName => "VolumeWindowShowName"
    case VolumeFullName => "VolumeWindowFullName"
    case MediaWindowEnable => "MediaWindowEnable"
    case MediaShowVolume => "MediaWindowShowVolume"
    case MediaShowTimeline => "MediaWindowShowTimeline"
    case MediaColorByCover => "MediaWindowColorByCover"
    case MediaShowOnChange => "MediaWindowShowOnChange"
    case SwitchDoubleTap => "AudioSwitchDoubleTap"
    case SwitchTray => "AudioSwitchTray"
    case SwitchTrayFullName => "AudioSwitchTrayFullName"
    case SwitchHotkey => "AudioSwitchHotkey"
    case SwitchSetCommunication => "AudioSwitchSetCommunication"
    case SwitchSelect => "AudioSwitchSelect"
    case Sound => "SoundEnabled"
    case Taskbar => "TaskbarOffset"
    case AnimationFlag => "Animation"
  }

  function NumberKey(n: NumberSetting): string {
    match n
    case VolumeStep => "VolumeWindowStep"
    case SoundType => "SoundType"
    case PopupDuration => "PopupDuration"
    case PopupTransparency => "PopupTransparency"
    case PopupShowDuration => "PopupShowDuration"
  }

  function TextKey(t: TextSetting): string {
    match t
    case KeyboardPosition => "KeyboardWindowPosition"
    case VolumePosition => "VolumeWindowPosition"
    case MediaPosition => "MediaWindowPosition"
    case HotkeyValue => "AudioSwitchHotkeyValue"
    case Language => "Language"
  }

  const DevicesKey: string := "AudioSwitchDevices"

  /** `_load_setting`: the stored value, or the default when it is missing. */
  function LoadSetting(reg: Registry, key: string, default: RegValue): (v: RegValue)
    ensures key in reg ==> v == reg[key]
    ensures key !in reg ==> v == default
  {
    if key in reg then reg[key] else default
  }

  /** Python truthiness of a loaded value, which is how every on/off setting
      is used (some loaders wrap it in `bool()`, the others leave the int). */
  predicate Truthy(v: RegValue) {
    match v
    case Dword(n) => n != 0
    case Sz(s) => s != ""
  }

  function FlagDefault(f: FlagSetting): bool {
    match f
    case KeyboardWindowEnable => true
    case KeyboardShowLanguage => true
    case KeyboardShowCursor => false
    case KeyboardShowModifiers => true
    case VolumeWindowEnable => true
    case VolumeShowMedia => false
    case VolumeShowName => false
    case VolumeFullName => false
    case MediaWindowEnable => true
    case MediaShowVolume => false
    case MediaShowTimeline => true
    case MediaColorByCover => false
    case MediaShowOnChange => true
    case SwitchDoubleTap => false
    case SwitchTray => false
    case SwitchTrayFullName => false
    case SwitchHotkey => false
    case SwitchSetCommunication => false
    case SwitchSelect => false
    case Sound => true
    case Taskbar => true
    case AnimationFlag => true
  }

  function NumberDefault(n: NumberSetting): int {
    match n
    case VolumeStep => 2
    case SoundType => 5
    case PopupDuration => 2500
    case PopupTransparency => 95
    case PopupShowDuration => 80
  }

  function TextDefault(t: TextSetting): string {
    match t
    case KeyboardPosition => "center"
    case VolumePosition => "bottom"
    case MediaPosition => "right-bottom"
    case HotkeyValue => "alt+a"
    case Language => ""
  }

  function LoadFlag(reg: Registry, f: FlagSetting): (b: bool)
    ensures FlagKey(f) !in reg ==> b == FlagDefault(f)
  {
    Truthy(LoadSetting(reg, FlagKey(f), Dword(if FlagDefault(f) then 1 else 0)))
  }

  /** An integer setting: a stored DWORD, or the default when the value is
      missing or is a string. */
  function LoadNumber(reg: Registry, n: NumberSetting): (v: int)
    ensures NumberKey(n) !in reg ==> v == NumberDefault(n)
    ensures NumberKey(n) in reg && reg[NumberKey(n)].Dword? ==> v == reg[NumberKey(n)].n
    ensures NumberKey(n) in reg && reg[NumberKey(n)].Sz? ==> v == NumberDefault(n)
  {
    match LoadSetting(reg, NumberKey(n), Dword(NumberDefault(n)))
    case Dword(v) => v
    case Sz(_) => NumberDefault(n)
  }

  /** A string setting: a stored REG_SZ, or the default when the value is
      missing or is a DWORD. */
  function LoadText(reg: Registry, t: TextSetting): (v: string)
    ensures TextKey(t) !in reg ==> v == TextDefault(t)
    ensures TextKey(t) in reg && reg[TextKey(t)].Sz? ==> v == reg[TextKey(t)].s
    ensures TextKey(t) in reg && reg[TextKey(t)].Dword? ==> v == TextDefault(t)
  {
    match LoadSetting(reg, TextKey(t), Sz(TextDefault(t)))
    case Sz(s) => s
    case Dword(_) => TextDefault(t)
  }

  /** `_deserialize_audio_switch_devices`: an empty string, or one that does
      not decode, yields the empty list. A DWORD is falsy when zero and makes
      `json.loads` raise TypeError otherwise, so it yields the empty list too. */
  function Deserialize(v: RegValue, parse: string -> Option<seq<Binding>>): (r: seq<Binding>)
    ensures v == Sz("") ==> r == []
    ensures v.Dword? ==> r == []
    ensures v.Sz? && v.s != "" && parse(v.s).Some? ==> r == parse(v.s).value
    ensures v.Sz? && parse(v.s).None? ==> r == []
  {
    match v
    case Dword(_) => []
    case Sz(s) => if s == "" then [] else parse(s).GetOr([])
  }

  function FlagOf(c: Settings, f: FlagSetting): bool {
    match f
    case KeyboardWindowEnable => c.keyboardWindowEnable
    case KeyboardShowLanguage => c.keyboardShowLanguage
    case KeyboardShowCursor => c.keyboardShowCursor
    case KeyboardShowModifiers => c.keyboardShowModifiers
    case VolumeWindowEnable => c.volumeWindowEnable
    case VolumeShowMedia => c.volumeShowMedia
    case VolumeShowName => c.volumeShowName
    case VolumeFullName => c.volumeFullName
    case MediaWindowEnable => c.mediaWindowEnable
    case MediaShowVolume => c.mediaShowVolume
    case MediaShowTimeline => c.mediaShowTimeline
    case MediaColorByCover => c.mediaColorByCover
    case MediaShowOnChange => c.mediaShowOnChange
    case SwitchDoubleTap => c.switchDoubleTap
    case SwitchTray => c.switchTray
    case SwitchTrayFullName => c.switchTrayFullName
    case SwitchHotkey => c.switchHotkey
    case SwitchSetCommunication => c.switchSetCommunication
    case SwitchSelect => c.switchSelect
    case Sound => c.sound
    case Taskbar => c.taskbar
    case AnimationFlag => c.animation
  }

  /** The settings with one flag replaced and nothing else changed. */
  function WithFlag(c: Settings, f: FlagSetting, v: bool): Settings {
    Settings(
      if f == KeyboardWindowEnable then v else c.keyboardWindowEnable,
      if f == KeyboardShowLanguage then v else c.keyboardShowLanguage,
      if f == KeyboardShowCursor then v else c.keyboardShowCursor,
      if f == KeyboardShowModifiers then v else c.keyboardShowModifiers,
      c.keyboardWindowPosition,
      if f == VolumeWindowEnable then v else c.volumeWindowEnable,
      c.volumeWindowPosition,
      if f == VolumeShowMedia then v else c.volumeShowMedia,
      c.volumeStep,
      if f == VolumeShowName then v else c.volumeShowName,
      if f == VolumeFullName then v else c.volumeFullName,
      if f == MediaWindowEnable then v else c.mediaWindowEnable,
      c.mediaWindowPosition,
      if f == MediaShowVolume then v else c.mediaShowVolume,
      if f == MediaShowTimeline then v else c.mediaShowTimeline,
      if f == MediaColorByCover then v else c.mediaColorByCover,
      if f == MediaShowOnChange then v else c.mediaShowOnChange,
      if f == SwitchDoubleTap then v else c.switchDoubleTap,
      if f == SwitchTray then v else c.switchTray,
      if f == SwitchTrayFullName then v else c.switchTrayFullName,
      if f == SwitchHotkey then v else c.switchHotkey,
      c.switchHotkeyValue,
      if f == SwitchSetCommunication then v else c.switchSetCommunication,
      if f == SwitchSelect then v else c.switchSelect,
      c.switchDevices,
      if f == Sound then v else c.sound,
      c.soundType,
      if f == Taskbar then v else c.taskbar,
      c.popupDuration,
      c.popupTransparency,
      c.popupShowDuration,
      if f == AnimationFlag then v else c.animation,
      c.language)
  }

  function NumberOf(c: Settings, n: NumberSetting): int {
    match n
    case VolumeStep => c.volumeStep
    case SoundType => c.soundType
    case PopupDuration => c.popupDuration
    case PopupTransparency => c.popupTransparency
    case PopupShowDuration => c.popupShowDuration
  }

  /** The settings with one integer setting replaced and nothing else
      changed. */
  function WithNumber(c: Settings, n: NumberSetting, v: int): Settings {
    Settings(
      c.keyboardWindowEnable,
      c.keyboardShowLanguage,
      c.keyboardShowCursor,
      c.keyboardShowModifiers,
      c.keyboardWindowPosition,
      c.volumeWindowEnable,
      c.volumeWindowPosition,
      c.volumeShowMedia,
      if n == VolumeStep then v else c.volumeStep,
      c.volumeShowName,
      c.volumeFullName,
      c.mediaWindowEnable,
      c.mediaWindowPosition,
      c.mediaShowVolume,
      c.mediaShowTimeline,
      c.mediaColorByCover,
      c.mediaShowOnChange,
      c.switchDoubleTap,
      c.switchTray,
      c.switchTrayFullName,
      c.switchHotkey,
      c.switchHotkeyValue,
      c.switchSetCommunication,
      c.switchSelect,
      c.switchDevices,
      c.sound,
      if n == SoundType then v else c.soundType,
      c.taskbar,
      if n == PopupDuration then v else c.popupDuration,
      if n == PopupTransparency then v else c.popupTransparency,
      if n == PopupShowDuration then v else c.popupShowDuration,
      c.animation,
      c.language)
  }

  function TextOf(c: Settings, t: TextSetting): string {
    match t
    case KeyboardPosition => c.keyboardWindowPosition
    case VolumePosition => c.volumeWindowPosition
    case MediaPosition => c.mediaWindowPosition
    case HotkeyValue => c.switchHotkeyValue
    case Language => c.language
  }

  /** The settings with one string setting replaced and nothing else
      changed. */
  function WithText(c: Settings, t: TextSetting, v: string): Settings {
    Settings(
      c.keyboardWindowEnable,
      c.keyboardShowLanguage,
      c.keyboardShowCursor,
      c.keyboardShowModifiers,
      if t == KeyboardPosition then v else c.keyboardWindowPosition,
      c.volumeWindowEnable,
      if t == VolumePosition then v else c.volumeWindowPosition,
      c.volumeShowMedia,
      c.volumeStep,
      c.volumeShowName,
      c.volumeFullName,
      c.mediaWindowEnable,
      if t == MediaPosition then v else c.mediaWindowPosition,
      c.mediaShowVolume,
      c.mediaShowTimeline,
      c.mediaColorByCover,
      c.mediaShowOnChange,
      c.switchDoubleTap,
      c.switchTray,
      c.switchTrayFullName,
      c.switchHotkey,
      if t == HotkeyValue then v else c.switchHotkeyValue,
      c.switchSetCommunication,
      c.switchSelect,
      c.switchDevices,
      c.sound,
      c.soundType,
      c.taskbar,
      c.popupDuration,
      c.popupTransparency,
      c.popupShowDuration,
      c.animation,
      if t == Language then v else c.language)
  }

  /** The two settings hold the same flags. */
  predicate FlagsAgree(a: Settings, b: Settings) {
    && a.keyboardWindowEnable == b.keyboardWindowEnable
    && a.keyboardShowLanguage == b.keyboardShowLanguage
    && a.keyboardShowCursor == b.keyboardShowCursor
    && a.keyboardShowModifiers == b.keyboardShowModifiers
    && a.volumeWindowEnable == b.volumeWindowEnable
    && a.volumeShowMedia == b.volumeShowMedia
    && a.volumeShowName == b.volumeShowName
    && a.volumeFullName == b.volumeFullName
    && a.mediaWindowEnable == b.mediaWindowEnable
    && a.mediaShowVolume == b.mediaShowVolume
    && a.mediaShowTimeline == b.mediaShowTimeline
    && a.mediaColorByCover == b.mediaColorByCover
    && a.mediaShowOnChange == b.mediaShowOnChange
    && a.switchDoubleTap == b.switchDoubleTap
    && a.switchTray == b.switchTray
    && a.switchTrayFullName == b.switchTrayFullName
    && a.switchHotkey == b.switchHotkey
    && a.switchSetCommunication == b.switchSetCommunication
    && a.switchSelect == b.switchSelect
    && a.sound == b.sound
    && a.taskbar == b.taskbar
    && a.animation == b.animation
  }

  /** The two settings hold the same integer settings. */
  predicate NumbersAgree(a: Settings, b: Settings) {
    && a.volumeStep == b.volumeStep
    && a.soundType == b.soundType
    && a.popupDuration == b.popupDuration
    && a.popupTransparency == b.popupTransparency
    && a.popupShowDuration == b.popupShowDuration
  }

  /** The two settings hold the same string settings. */
  predicate TextsAgree(a: Settings, b: Settings) {
    && a.keyboardWindowPosition == b.keyboardWindowPosition
    && a.volumeWindowPosition == b.volumeWindowPosition
    && a.mediaWindowPosition == b.mediaWindowPosition
    && a.switchHotkeyValue == b.switchHotkeyValue
    && a.language == b.language
  }

  lemma FlagsAgreeOf(a: Settings, b: Settings, f: FlagSetting)
    requires FlagsAgree(a, b)
    ensures FlagOf(a, f) == FlagOf(b, f)
  {
    match f
    case KeyboardWindowEnable =>
    case KeyboardShowLanguage =>
    case KeyboardShowCursor =>
    case KeyboardShowModifiers =>
    case VolumeWindowEnable =>
    case VolumeShowMedia =>
    case VolumeShowName =>
    case VolumeFullName =>
    case MediaWindowEnable =>
    case MediaShowVolume =>
    case MediaShowTimeline =>
    case MediaColorByCover =>
    case MediaShowOnChange =>
    case SwitchDoubleTap =>
    case SwitchTray =>
    case SwitchTrayFullName =>
    case SwitchHotkey =>
    case SwitchSetCommunication =>
    case SwitchSelect =>
    case Sound =>
    case Taskbar =>
    case AnimationFlag =>
  }

  lemma NumbersAgreeOf(a: Settings, b: Settings, n: NumberSetting)
    requires NumbersAgree(a, b)
    ensures NumberOf(a, n) == NumberOf(b, n)
  {
  }

  lemma TextsAgreeOf(a: Settings, b: Settings, t: TextSetting)
    requires TextsAgree(a, b)
    ensures TextOf(a, t) == TextOf(b, t)
  {
  }

  /** The flags of the keyboard popup. */
  predicate KeyboardFlag(f: FlagSetting) {
    f.KeyboardWindowEnable? || f.KeyboardShowLanguage? || f.KeyboardShowCursor? || f.KeyboardShowModifiers?
  }

  /** The flags of the volume popup. */
  predicate VolumeFlag(f: FlagSetting) {
    f.VolumeWindowEnable? || f.VolumeShowMedia? || f.VolumeShowName? || f.VolumeFullName?
  }

  /** The flags of the media popup. */
  predicate MediaFlag(f: FlagSetting) {
    f.MediaWindowEnable? || f.MediaShowVolume? || f.MediaShowTimeline? || f.MediaColorByCover? || f.MediaShowOnChange?
  }

  /** The flags of the device switch. */
  predicate SwitchFlag(f: FlagSetting) {
    f.SwitchDoubleTap? || f.SwitchTray? || f.SwitchTrayFullName? || f.SwitchHotkey? || f.SwitchSetCommunication? || f.SwitchSelect?
  }

  /** The flags of sound, taskbar and animation. */
  predicate GeneralFlag(f: FlagSetting) {
    f.Sound? || f.Taskbar? || f.AnimationFlag?
  }

  lemma KeyboardFlagKept(c: Settings, f: FlagSetting, v: bool, g: FlagSetting)
    requires KeyboardFlag(g) && g != f
    ensures FlagOf(WithFlag(c, f, v), g) == FlagOf(c, g)
  {
  }

  lemma VolumeFlagKept(c: Settings, f: FlagSetting, v: bool, g: FlagSetting)
    requires VolumeFlag(g) && g != f
    ensures FlagOf(WithFlag(c, f, v), g) == FlagOf(c, g)
  {
  }

  lemma MediaFlagKept(c: Settings, f: FlagSetting, v: bool, g: FlagSetting)
    requires MediaFlag(g) && g != f
    ensures FlagOf(WithFlag(c, f, v), g) == FlagOf(c, g)
  {
  }

  lemma SwitchFlagKept(c: Settings, f: FlagSetting, v: bool, g: FlagSetting)
    requires SwitchFlag(g) && g != f
    ensures FlagOf(WithFlag(c, f, v), g) == FlagOf(c, g)
  {
  }

  lemma GeneralFlagKept(c: Settings, f: FlagSetting, v: bool, g: FlagSetting)
    requires GeneralFlag(g) && g != f
    ensures FlagOf(WithFlag(c, f, v), g) == FlagOf(c, g)
  {
  }

  lemma KeyboardFlagSet(c: Settings, f: FlagSetting, v: bool)
    requires KeyboardFlag(f)
    ensures FlagOf(WithFlag(c, f, v), f) == v
  {
  }

  lemma VolumeFlagSet(c: Settings, f: FlagSetting, v: bool)
    requires VolumeFlag(f)
    ensures FlagOf(WithFlag(c, f, v), f) == v
  {
  }

  lemma MediaFlagSet(c: Settings, f: FlagSetting, v: bool)
    requires MediaFlag(f)
    ensures FlagOf(WithFlag(c, f, v), f) == v
  {
  }

  lemma SwitchFlagSet(c: Settings, f: FlagSetting, v: bool)
    requires SwitchFlag(f)
    ensures FlagOf(WithFlag(c, f, v), f) == v
  {
  }

  lemma GeneralFlagSet(c: Settings, f: FlagSetting, v: bool)
    requires GeneralFlag(f)
    ensures FlagOf(WithFlag(c, f, v), f) == v
  {
  }

  /** Replacing one flag sets it, one group at a time. */
  lemma FlagSet(c: Settings, f: FlagSetting, v: bool)
    ensures FlagOf(WithFlag(c, f, v), f) == v
  {
    if KeyboardFlag(f) {
      KeyboardFlagSet(c, f, v);
    } else if VolumeFlag(f) {
      VolumeFlagSet(c, f, v);
    } else if MediaFlag(f) {
      MediaFlagSet(c, f, v);
    } else if SwitchFlag(f) {
      SwitchFlagSet(c, f, v);
    } else if GeneralFlag(f) {
      GeneralFlagSet(c, f, v);
    }
  }

  /** Replacing one flag keeps every other flag, one group at a time. */
  lemma FlagOthersKept(c: Settings, f: FlagSetting, v: bool, g: FlagSetting)
    requires g != f
    ensures FlagOf(WithFlag(c, f, v), g) == FlagOf(c, g)
  {
    if KeyboardFlag(g) {
      KeyboardFlagKept(c, f, v, g);
    } else if VolumeFlag(g) {
      VolumeFlagKept(c, f, v, g);
    } else if MediaFlag(g) {
      MediaFlagKept(c, f, v, g);
    } else if SwitchFlag(g) {
      SwitchFlagKept(c, f, v, g);
    } else if GeneralFlag(g) {
      GeneralFlagKept(c, f, v, g);
    }
  }

  /** Replacing one flag leaves every other setting as it was. */
  lemma FlagFrame(c: Settings, f: FlagSetting, v: bool, g: FlagSetting, n: NumberSetting, t: TextSetting)
    ensures FlagOf(WithFlag(c, f, v), f) == v
    ensures g != f ==> FlagOf(WithFlag(c, f, v), g) == FlagOf(c, g)
    ensures NumberOf(WithFlag(c, f, v), n) == NumberOf(c, n)
    ensures TextOf(WithFlag(c, f, v), t) == TextOf(c, t)
  {
    FlagSet(c, f, v);
    if g != f {
      FlagOthersKept(c, f, v, g);
    }
    NumbersAgreeOf(WithFlag(c, f, v), c, n);
    TextsAgreeOf(WithFlag(c, f, v), c, t);
  }

  /** Replacing one integer setting leaves every other setting as it was. */
  lemma NumberFrame(c: Settings, n: NumberSetting, v: int, f: FlagSetting, m: NumberSetting, t: TextSetting)
    ensures NumberOf(WithNumber(c, n, v), n) == v
    ensures m != n ==> NumberOf(WithNumber(c, n, v), m) == NumberOf(c, m)
    ensures FlagOf(WithNumber(c, n, v), f) == FlagOf(c, f)
    ensures TextOf(WithNumber(c, n, v), t) == TextOf(c, t)
  {
    FlagsAgreeOf(WithNumber(c, n, v), c, f);
    TextsAgreeOf(WithNumber(c, n, v), c, t);
  }

  /** Replacing one string setting leaves every other setting as it was. */
  lemma TextFrame(c: Settings, t: TextSetting, v: string, f: FlagSetting, n: NumberSetting, u: TextSetting)
    ensures TextOf(WithText(c, t, v), t) == v
    ensures u != t ==> TextOf(WithText(c, t, v), u) == TextOf(c, u)
    ensures FlagOf(WithText(c, t, v), f) == FlagOf(c, f)
    ensures NumberOf(WithText(c, t, v), n) == NumberOf(c, n)
  {
    FlagsAgreeOf(WithText(c, t, v), c, f);
    NumbersAgreeOf(WithText(c, t, v), c, n);
  }

  /** The frames over every other setting at once. */
  lemma FlagFrameAll(c: Settings, f: FlagSetting, v: bool)
    ensures forall g :: g != f ==> FlagOf(WithFlag(c, f, v), g) == FlagOf(c, g)
    ensures forall n :: NumberOf(WithFlag(c, f, v), n) == NumberOf(c, n)
    ensures forall t :: TextOf(WithFlag(c, f, v), t) == TextOf(c, t)
  {
    forall g | g != f ensures FlagOf(WithFlag(c, f, v), g) == FlagOf(c, g) {
      FlagFrame(c, f, v, g, VolumeStep, Language);
    }
    forall n ensures NumberOf(WithFlag(c, f, v), n) == NumberOf(c, n) {
      FlagFrame(c, f, v, f, n, Language);
    }
    forall t ensures TextOf(WithFlag(c, f, v), t) == TextOf(c, t) {
      FlagFrame(c, f, v, f, VolumeStep, t);
    }
  }

  lemma NumberFrameAll(c: Settings, n: NumberSetting, v: int)
    ensures forall m :: m != n ==> NumberOf(WithNumber(c, n, v), m) == NumberOf(c, m)
    ensures forall f :: FlagOf(WithNumber(c, n, v), f) == FlagOf(c, f)
    ensures forall t :: TextOf(WithNumber(c, n, v), t) == TextOf(c, t)
  {
    forall m | m != n ensures NumberOf(WithNumber(c, n, v), m) == NumberOf(c, m) {
      NumberFrame(c, n, v, Sound, m, Language);
    }
    forall f ensures FlagOf(WithNumber(c, n, v), f) == FlagOf(c, f) {
      NumberFrame(c, n, v, f, n, Language);
    }
    forall t ensures TextOf(WithNumber(c, n, v), t) == TextOf(c, t) {
      NumberFrame(c, n, v, Sound, n, t);
    }
  }

  lemma TextFrameAll(c: Settings, t: TextSetting, v: string)
    ensures forall u :: u != t ==> TextOf(WithText(c, t, v), u) == TextOf(c, u)
    ensures forall f :: FlagOf(WithText(c, t, v), f) == FlagOf(c, f)
    ensures forall n :: NumberOf(WithText(c, t, v), n) == NumberOf(c, n)
  {
    forall u | u != t ensures TextOf(WithText(c, t, v), u) == TextOf(c, u) {
      TextFrame(c, t, v, Sound, VolumeStep, u);
    }
    forall f ensures FlagOf(WithText(c, t, v), f) == FlagOf(c, f) {
      TextFrame(c, t, v, f, VolumeStep, t);
    }
    forall n ensures NumberOf(WithText(c, t, v), n) == NumberOf(c, n) {
      TextFrame(c, t, v, Sound, n, t);
    }
  }

  /** `Config.__init__`: every setting loaded from the registry. */
  function Load(reg: Registry, parse: string -> Option<seq<Binding>>): Settings {
    Settings(
      LoadFlag(reg, KeyboardWindowEnable), LoadFlag(reg, KeyboardShowLanguage),
      LoadFlag(reg, KeyboardShowCursor), LoadFlag(reg, KeyboardShowModifiers),
      LoadText(reg, KeyboardPosition),
      LoadFlag(reg, VolumeWindowEnable), LoadText(reg, VolumePosition),
      LoadFlag(reg, VolumeShowMedia), LoadNumber(reg, VolumeStep),
      LoadFlag(reg, VolumeShowName), LoadFlag(reg, VolumeFullName),
      LoadFlag(reg, MediaWindowEnable), LoadText(reg, MediaPosition),
      LoadFlag(reg, MediaShowVolume), LoadFlag(reg, MediaShowTimeline),
      LoadFlag(reg, MediaColorByCover), LoadFlag(reg, MediaShowOnChange),
      LoadFlag(reg, SwitchDoubleTap), LoadFlag(reg, SwitchTray), LoadFlag(reg, SwitchTrayFullName),
      LoadFlag(reg, SwitchHotkey), LoadText(reg, HotkeyValue),
      LoadFlag(reg, SwitchSetCommunication), LoadFlag(reg, SwitchSelect),
      Deserialize(LoadSetting(reg, DevicesKey, Sz("")), parse),
      LoadFlag(reg, Sound), LoadNumber(reg, SoundType), LoadFlag(reg, Taskbar),
      LoadNumber(reg, PopupDuration), LoadNumber(reg, PopupTransparency),
      LoadNumber(reg, PopupShowDuration), LoadFlag(reg, AnimationFlag), LoadText(reg, Language))
  }

  /** The settings of a first start, with nothing stored yet: every
      setting at its entry in the default tables, and no bindings. */
  const Defaults: Settings := Settings(
      FlagDefault(KeyboardWindowEnable), FlagDefault(KeyboardShowLanguage),
      FlagDefault(KeyboardShowCursor), FlagDefault(KeyboardShowModifiers),
      TextDefault(KeyboardPosition),
      FlagDefault(VolumeWindowEnable), TextDefault(VolumePosition),
      FlagDefault(VolumeShowMedia), NumberDefault(VolumeStep),
      FlagDefault(VolumeShowName), FlagDefault(VolumeFullName),
      FlagDefault(MediaWindowEnable), TextDefault(MediaPosition),
      FlagDefault(MediaShowVolume), FlagDefault(MediaShowTimeline),
      FlagDefault(MediaColorByCover), FlagDefault(MediaShowOnChange),
      FlagDefault(SwitchDoubleTap), FlagDefault(SwitchTray), FlagDefault(SwitchTrayFullName),
      FlagDefault(SwitchHotkey), TextDefault(HotkeyValue),
      FlagDefault(SwitchSetCommunication), FlagDefault(SwitchSelect),
      [],
      FlagDefault(Sound), NumberDefault(SoundType), FlagDefault(Taskbar),
      NumberDefault(PopupDuration), NumberDefault(PopupTransparency),
      NumberDefault(PopupShowDuration), FlagDefault(AnimationFlag), TextDefault(Language))

  /** With nothing stored every setting takes its default: volume step 2,
      popup duration 2500 ms, transparency 95 %, show duration 80 ms, … */
  lemma LoadEmpty(parse: string -> Option<seq<Binding>>)
    ensures Load(map[], parse) == Defaults
  {
  }

  /** A stored value of the expected type wins over the default. */
  lemma LoadStored(reg: Registry, f: FlagSetting, n: NumberSetting, t: TextSetting)
    ensures FlagKey(f) in reg ==> LoadFlag(reg, f) == Truthy(reg[FlagKey(f)])
    ensures NumberKey(n) in reg && reg[NumberKey(n)].Dword? ==> LoadNumber(reg, n) == reg[NumberKey(n)].n
    ensures TextKey(t) in reg && reg[TextKey(t)].Sz? ==> LoadText(reg, t) == reg[TextKey(t)].s
  {
  }

  /** `_save_setting` followed by the attribute assignment of a boolean
      `save_*` setter: memory takes the value, the registry 1 or 0. */
  function SaveFlag(c: Settings, reg: Registry, f: FlagSetting, v: bool): (r: (Settings, Registry))
    ensures FlagOf(r.0, f) == v
    ensures forall g :: g != f ==> FlagOf(r.0, g) == FlagOf(c, g)
    ensures forall n :: NumberOf(r.0, n) == NumberOf(c, n)
    ensures forall t :: TextOf(r.0, t) == TextOf(c, t)
    ensures r.0.switchDevices == c.switchDevices
    ensures r.1 == reg[FlagKey(f) := Dword(if v then 1 else 0)]
  {
    FlagFrameAll(c, f, v);
    FlagFrame(c, f, v, f, VolumeStep, Language);
    (WithFlag(c, f, v), reg[FlagKey(f) := Dword(if v then 1 else 0)])
  }

  function SaveNumber(c: Settings, reg: Registry, n: NumberSetting, v: int): (r: (Settings, Registry))
    ensures NumberOf(r.0, n) == v
    ensures forall m :: m != n ==> NumberOf(r.0, m) == NumberOf(c, m)
    ensures forall f :: FlagOf(r.0, f) == FlagOf(c, f)
    ensures forall t :: TextOf(r.0, t) == TextOf(c, t)
    ensures r.0.switchDevices == c.switchDevices
    ensures r.1 == reg[NumberKey(n) := Dword(v)]
  {
    NumberFrameAll(c, n, v);
    NumberFrame(c, n, v, Sound, n, Language);
    (WithNumber(c, n, v), reg[NumberKey(n) := Dword(v)])
  }

  function SaveText(c: Settings, reg: Registry, t: TextSetting, v: string): (r: (Settings, Registry))
    ensures TextOf(r.0, t) == v
    ensures forall u :: u != t ==> TextOf(r.0, u) == TextOf(c, u)
    ensures forall f :: FlagOf(r.0, f) == FlagOf(c, f)
    ensures forall n :: NumberOf(r.0, n) == NumberOf(c, n)
    ensures r.0.switchDevices == c.switchDevices
    ensures r.1 == reg[TextKey(t) := Sz(v)]
  {
    TextFrameAll(c, t, v);
    TextFrame(c, t, v, Sound, VolumeStep, t);
    (WithText(c, t, v), reg[TextKey(t) := Sz(v)])
  }

  /** What a setter keeps in memory is what the next start loads. */
  lemma SaveRoundTrip(c: Settings, reg: Registry, f: FlagSetting, n: NumberSetting, t: TextSetting, b: bool, v: int, s: string)
    ensures LoadFlag(SaveFlag(c, reg, f, b).1, f) == FlagOf(SaveFlag(c, reg, f, b).0, f)
    ensures LoadNumber(SaveNumber(c, reg, n, v).1, n) == NumberOf(SaveNumber(c, reg, n, v).0, n)
    ensures LoadText(SaveText(c, reg, t, s).1, t) == TextOf(SaveText(c, reg, t, s).0, t)
  {
  }

  /** The bindings without any entry for `id`. */
  function Without(devs: seq<Binding>, id: string): (r: seq<Binding>)
    ensures |r| <= |devs|
    ensures forall k :: 0 <= k < |r| ==> r[k].id != id && r[k] in devs
    decreases |devs|
  {
    if devs == [] then []
    else if devs[|devs| - 1].id == id then Without(devs[..|devs| - 1], id)
    else Without(devs[..|devs| - 1], id) + [devs[|devs| - 1]]
  }

  /** The index of the first binding for `id`, if any. */
  function FirstWith(devs: seq<Binding>, id: string): (i: Option<nat>)
    ensures i.Some? ==>
      i.value < |devs| && devs[i.value].id == id && forall k :: 0 <= k < i.value ==> devs[k].id != id
    ensures i.None? ==> forall k :: 0 <= k < |devs| ==> devs[k].id != id
    decreases |devs|
  {
    if devs == [] then None
    else if devs[0].id == id then Some(0)
    else
      match FirstWith(devs[1..], id)
      case None => None
      case Some(j) => Some(j + 1)
  }

  /** The list change of `save_audio_switch_device`: a binding switched off
      is removed under its id; one switched on replaces the first entry
      with its id in place, or is appended. */
  function UpsertDevice(devs: seq<Binding>, value: Binding): (r: seq<Binding>)
    ensures !value.on ==> r == Without(devs, value.id)
    ensures value.on ==> |devs| <= |r| <= |devs| + 1 && value in r
    ensures value.on && FirstWith(devs, value.id).Some? ==>
      r == devs[FirstWith(devs, value.id).value := value]
    ensures value.on && FirstWith(devs, value.id).None? ==> r == devs + [value]
  {
    if !value.on then Without(devs, value.id)
    else
      match FirstWith(devs, value.id)
      case Some(i) =>
        assert devs[i := value][i] == value;
        devs[i := value]
      case None =>
        assert (devs + [value])[|devs|] == value;
        devs + [value]
  }

  lemma {:induction false} WithoutAppend(devs: seq<Binding>, b: Binding, id: string)
    ensures Without(devs + [b], id) == Without(devs, id) + (if b.id == id then [] else [b])
  {
    assert (devs + [b])[..|devs + [b]| - 1] == devs;
  }

  lemma {:induction false} WithoutUpdate(devs: seq<Binding>, i: nat, b: Binding, id: string)
    requires i < |devs| && devs[i].id == id && b.id == id
    ensures Without(devs[i := b], id) == Without(devs, id)
    decreases |devs|
  {
    var last := |devs| - 1;
    if i == last {
      assert devs[i := b][..last] == devs[..last];
    } else {
      assert devs[i := b][..last] == devs[..last][i := b];
      assert devs[i := b][last] == devs[last];
      WithoutUpdate(devs[..last], i, b, id);
    }
  }

  /** Entries for other ids keep their values and their relative order, and
      switching a binding off leaves no entry for its id at all. */
  lemma UpsertKeepsOthers(devs: seq<Binding>, value: Binding)
    ensures Without(UpsertDevice(devs, value), value.id) == Without(devs, value.id)
    ensures !value.on ==> forall k :: 0 <= k < |UpsertDevice(devs, value)| ==> UpsertDevice(devs, value)[k].id != value.id
  {
    if value.on {
      match FirstWith(devs, value.id)
      case Some(i) => WithoutUpdate(devs, i, value, value.id);
      case None => WithoutAppend(devs, value, value.id);
    } else {
      WithoutIdempotent(devs, value.id);
    }
  }

  lemma {:induction false} WithoutIdempotent(devs: seq<Binding>, id: string)
    ensures Without(Without(devs, id), id) == Without(devs, id)
    decreases |devs|
  {
    if devs != [] {
      var last := |devs| - 1;
      WithoutIdempotent(devs[..last], id);
      if devs[last].id != id {
        WithoutAppend(Without(devs[..last], id), devs[last], id);
      }
    }
  }

  /** `save_audio_switch_device`: the list change, then the whole list is
      written back as one JSON string. */
  function SaveDevice(c: Settings, reg: Registry, value: Binding, serialize: seq<Binding> -> string): (r: (Settings, Registry))
    ensures r.0 == c.(switchDevices := UpsertDevice(c.switchDevices, value))
    ensures r.1 == reg[DevicesKey := Sz(serialize(r.0.switchDevices))]
  {
    var devs := UpsertDevice(c.switchDevices, value);
    (c.(switchDevices := devs), reg[DevicesKey := Sz(serialize(devs))])
  }

  /** With a JSON codec that decodes what it encodes (and never encodes to
      the empty string), the saved list is what the next start loads. */
  lemma SaveDeviceRoundTrip(c: Settings, reg: Registry, value: Binding,
                            serialize: seq<Binding> -> string, parse: string -> Option<seq<Binding>>)
    requires forall l :: serialize(l) != "" && parse(serialize(l)) == Some(l)
    ensures Load(SaveDevice(c, reg, value, serialize).1, parse).switchDevices == SaveDevice(c, reg, value, serialize).0.switchDevices
  {
    var devs := UpsertDevice(c.switchDevices, value);
    assert parse(serialize(devs)) == Some(devs);
  }
}
