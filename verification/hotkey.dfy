/** The switch-device settings of poppy/audio_switch_settings_window.py:
    the `HotkeyEdit` field that turns a Qt key press into a hotkey string
    for the `keyboard` library, and the per-device check box and
    microphone combo of `AudioDeviceSelector`. */
module HotkeyEditor {
  import opened Wrappers
  import opened Text
  import opened Config

  // Qt.Key values
  const KeyEscape := 0x0100_0000
  const KeyTab := 0x0100_0001
  const KeyBackspace := 0x0100_0003
  const KeyReturn := 0x0100_0004
  const KeyEnter := 0x0100_0005
  const KeyInsert := 0x0100_0006
  const KeyDelete := 0x0100_0007
  const KeyHome := 0x0100_0010
  const KeyEnd := 0x0100_0011
  const KeyLeft := 0x0100_0012
  const KeyUp := 0x0100_0013
  const KeyRight := 0x0100_0014
  const KeyDown := 0x0100_0015
  const KeyPageUp := 0x0100_0016
  const KeyPageDown := 0x0100_0017
  const KeyShift := 0x0100_0020
  const KeyControl := 0x0100_0021
  const KeyMeta := 0x0100_0022
  const KeyAlt := 0x0100_0023
  const KeyCapsLock := 0x0100_0024
  const KeyNumLock := 0x0100_0025
  const KeyScrollLock := 0x0100_0026
  const KeyF1 := 0x0100_0030
  const KeyF24 := 0x0100_0047
  const KeyUnknown := 0x01ff_ffff
  const KeySpace := 0x20
  const KeyApostrophe := 0x27
  const KeyComma := 0x2c
  const KeyMinus := 0x2d
  const KeyPeriod := 0x2e
  const KeySlash := 0x2f
  const Key0 := 0x30
  const Key9 := 0x39
  const KeySemicolon := 0x3b
  const KeyEqual := 0x3d
  const KeyA := 0x41
  const KeyZ := 0x5a
  const KeyBracketLeft := 0x5b
  const KeyBackslash := 0x5c
  const KeyBracketRight := 0x5d
  const KeyQuoteLeft := 0x60
  const KeyBraceRight := 0x7d

  /** The `key_map` of `_key_to_keyboard_name`, with the code given for
      "right bracket"; "" for a key it does not hold (`dict.get(key, "")`). */
  function MappedName(key: int, rightBracket: int): string {
    if key == KeyEnter then "enter" else if key == KeyReturn then "enter"
    else if key == KeyEscape then "esc" else if key == KeyBackspace then "backspace"
    else if key == KeyTab then "tab" else if key == KeySpace then "space"
    else if key == KeyDelete then "delete" else if key == KeyHome then "home"
    else if key == KeyEnd then "end" else if key == KeyInsert then "insert"
    else if key == KeyPageUp then "page up" else if key == KeyPageDown then "page down"
    else if key == KeyUp then "up" else if key == KeyDown then "down"
    else if key == KeyLeft then "left" else if key == KeyRight then "right"
    else if key == KeyCapsLock then "caps lock" else if key == KeyNumLock then "num lock"
    else if key == KeyScrollLock then "scroll lock" else if key == KeyComma then "comma"
    else if key == KeyPeriod then "period" else if key == KeySlash then "slash"
    else if key == KeySemicolon then "semicolon" else if key == KeyApostrophe then "quote"
    else if key == KeyBracketLeft then "left bracket" else if key == rightBracket then "right bracket"
    else if key == KeyBackslash then "backslash" else if key == KeyMinus then "minus"
    else if key == KeyEqual then "equal" else if key == KeyQuoteLeft then "grave"
    else ""
  }

  /** No '+' in a segment. */
  predicate Plain(s: string) {
    '+' !in s
  }

  lemma MappedNamePlain(key: int, rightBracket: int)
    ensures Plain(MappedName(key, rightBracket))
  {
  }

  /** `_key_to_keyboard_name`, with the code given for "right bracket". */
  function KeyNameWith(rightBracket: int, key: int): string {
    if KeyA <= key <= KeyZ then [('a' as int + (key - KeyA)) as char]
    else if Key0 <= key <= Key9 then [('0' as int + (key - Key0)) as char]
    else if KeyF1 <= key <= KeyF24 then "f" + Decimal(key - KeyF1 + 1)
    else MappedName(key, rightBracket)
  }

  lemma KeyNamePlain(rightBracket: int, key: int)
    ensures Plain(KeyNameWith(rightBracket, key))
  {
    if KeyF1 <= key <= KeyF24 {
      var d := Decimal(key - KeyF1 + 1);
      assert "f" + d == ['f'] + d;
      assert forall k :: 0 <= k < |d| ==> d[k] != '+';
    } else if !(KeyA <= key <= KeyZ || Key0 <= key <= Key9) {
      MappedNamePlain(key, rightBracket);
    }
  }

  /** The name a key gets as written: the "right bracket" entry is keyed by
      `Key_BraceRight` ('}'), so the ']' key itself has no name. */
  function KeyNameAsWritten(key: int): string {
    KeyNameWith(KeyBraceRight, key)
  }

  /** The name a key gets, with "right bracket" on `Key_BracketRight` like
      "left bracket" on `Key_BracketLeft`. */
  function KeyName(key: int): (s: string)
    ensures KeyA <= key <= KeyZ ==> s == [('a' as int + (key - KeyA)) as char]
    ensures Key0 <= key <= Key9 ==> s == [('0' as int + (key - Key0)) as char]
    ensures KeyF1 <= key <= KeyF24 ==> s == "f" + Str(key - KeyF1 + 1)
    ensures key == KeyEnter || key == KeyReturn ==> s == "enter"
    ensures key == KeyBracketLeft ==> s == "left bracket"
    ensures key == KeyBracketRight ==> s == "right bracket"
    ensures Plain(s)
  {
    KeyNamePlain(KeyBracketRight, key);
    KeyNameWith(KeyBracketRight, key)
  }

  /** The ']' key has no name as written, and the '}' key has its name. */
  lemma BracketRightAsWritten()
    ensures KeyNameAsWritten(KeyBracketRight) == ""
    ensures KeyNameAsWritten(KeyBraceRight) == "right bracket"
  {
  }

  /** The modifier state of the key event. */
  datatype Mods = Mods(ctrl: bool, alt: bool, shift: bool, meta: bool)

  /** The modifier segments in their fixed order. */
  function ModParts(m: Mods): (ps: seq<string>)
    ensures |ps| <= 4
    ensures ps == [] <==> !m.ctrl && !m.alt && !m.shift && !m.meta
    ensures forall k :: 0 <= k < |ps| ==> Plain(ps[k]) && ps[k] != ""
  {
    (if m.ctrl then ["ctrl"] else []) + (if m.alt then ["alt"] else [])
    + (if m.shift then ["shift"] else []) + (if m.meta then ["windows"] else [])
  }

  /** `"+".join(parts)`. */
  function Join(parts: seq<string>): string
    decreases |parts|
  {
    if parts == [] then "" else if |parts| == 1 then parts[0] else parts[0] + "+" + Join(parts[1..])
  }

  /** `str.split("+")`. */
  function Split(s: string): (ps: seq<string>)
    ensures |ps| >= 1
    decreases |s|
  {
    if s == [] then [""]
    else
      var rest := Split(s[1..]);
      if s[0] == '+' then [""] + rest else [[s[0]] + rest[0]] + rest[1..]
  }

  lemma {:induction false} SplitPlainPrefix(p: string, t: string)
    requires Plain(p)
    ensures Split(p + t) == [p + Split(t)[0]] + Split(t)[1..]
    decreases |p|
  {
    if p != [] {
      assert (p + t)[1..] == p[1..] + t;
      assert (p + t)[0] == p[0] && p[0] in p;
      assert forall c :: c in p[1..] ==> c in p;
      SplitPlainPrefix(p[1..], t);
      assert [p[0]] + (p[1..] + Split(t)[0]) == p + Split(t)[0];
    } else {
      assert p + t == t;
      assert p + Split(t)[0] == Split(t)[0];
      assert Split(t) == [Split(t)[0]] + Split(t)[1..];
    }
  }

  /** Splitting a join of '+'-free segments gives the segments back. */
  lemma {:induction false} SplitJoin(parts: seq<string>)
    requires |parts| >= 1
    requires forall k :: 0 <= k < |parts| ==> Plain(parts[k])
    ensures Split(Join(parts)) == parts
    decreases |parts|
  {
    if |parts| == 1 {
      SplitPlainPrefix(parts[0], "");
      assert Split("") == [""];
      assert parts[0] + "" == parts[0];
      assert Join(parts) == parts[0];
    } else {
      var tail := Join(parts[1..]);
      SplitJoin(parts[1..]);
      SplitPlainPrefix(parts[0], "+" + tail);
      assert ("+" + tail)[0] == '+' && ("+" + tail)[1..] == tail;
      assert Split("+" + tail) == [""] + Split(tail);
      assert Split("+" + tail)[0] == "" && Split("+" + tail)[1..] == parts[1..];
      assert parts[0] + "" == parts[0];
      assert parts[0] + "+" + tail == parts[0] + ("+" + tail);
      assert parts == [parts[0]] + parts[1..];
    }
  }

  /** The edit's state: `_hotkey_str`, which is also the text shown. */
  datatype Edit = Edit(hotkey: string)

  /** A handler's new state and the `hotkeyChanged` values emitted. */
  datatype EditOut = EditOut(ed: Edit, emitted: seq<string>)

  /** `clear`. */
  function Clear(ed: Edit): (o: EditOut)
    ensures o.ed.hotkey == "" && o.emitted == [""]
  {
    EditOut(Edit(""), [""])
  }

  /** `setHotkey`. */
  function SetHotkey(ed: Edit, hotkey: string): (o: EditOut)
    ensures hotkey == "" ==> o == Clear(ed)
    ensures hotkey != "" ==> o.ed.hotkey == hotkey && o.emitted == [hotkey]
  {
    if hotkey == "" then Clear(ed) else EditOut(Edit(hotkey), [hotkey])
  }

  /** The keys `keyPressEvent` ignores outright. */
  predicate Ignored(key: int) {
    key in {KeyTab, KeyUnknown, KeyControl, KeyShift, KeyAlt, KeyMeta}
  }

  /** `keyPressEvent` over a given `key_map`. */
  function PressWith(rightBracket: int, ed: Edit, key: int, m: Mods): EditOut {
    if Ignored(key) then EditOut(ed, [])
    else if key == KeyEscape then Clear(ed)
    else
      var name := KeyNameWith(rightBracket, key);
      var parts := ModParts(m) + (if name != "" then [name] else []);
      if parts != [] then EditOut(Edit(Join(parts)), [Join(parts)]) else Clear(ed)
  }

  /** `keyPressEvent` as written. */
  function KeyPressAsWritten(ed: Edit, key: int, m: Mods): EditOut {
    PressWith(KeyBraceRight, ed, key, m)
  }

  /** Ctrl+] records the bare modifier "ctrl" as the hotkey. */
  lemma CtrlBracketAsWritten(ed: Edit)
    ensures KeyPressAsWritten(ed, KeyBracketRight, Mods(true, false, false, false)) == EditOut(Edit("ctrl"), ["ctrl"])
  {
    assert !Ignored(KeyBracketRight);
    BracketRightAsWritten();
  }

  /** `keyPressEvent` with the corrected `key_map`. */
  function KeyPress(ed: Edit, key: int, m: Mods): (o: EditOut)
    ensures Ignored(key) ==> o == EditOut(ed, [])
    ensures key == KeyEscape ==> o == Clear(ed)
    ensures !Ignored(key) && key != KeyEscape ==>
      (o == Clear(ed) <==> ModParts(m) == [] && KeyName(key) == "")
    ensures !Ignored(key) && key != KeyEscape && !(ModParts(m) == [] && KeyName(key) == "") ==>
      && o.emitted == [o.ed.hotkey]
      && Split(o.ed.hotkey) == ModParts(m) + (if KeyName(key) != "" then [KeyName(key)] else [])
      && forall k :: 0 <= k < |Split(o.ed.hotkey)| ==> Split(o.ed.hotkey)[k] != ""
  {
    PressShape(ed, key, m);
    PressWith(KeyBracketRight, ed, key, m)
  }

  /** The segments of a recorded hotkey: the modifiers, then the key. */
  lemma PressShape(ed: Edit, key: int, m: Mods)
    ensures !Ignored(key) && key != KeyEscape && !(ModParts(m) == [] && KeyName(key) == "") ==>
      var o := PressWith(KeyBracketRight, ed, key, m);
      var parts := ModParts(m) + (if KeyName(key) != "" then [KeyName(key)] else []);
      && o.ed.hotkey == Join(parts) && o.emitted == [Join(parts)]
      && Split(Join(parts)) == parts
      && Join(parts) != ""
  {
    if !Ignored(key) && key != KeyEscape && !(ModParts(m) == [] && KeyName(key) == "") {
      var name := KeyName(key);
      var mods := ModParts(m);
      var parts := mods + (if name != "" then [name] else []);
      assert forall k :: 0 <= k < |parts| ==> parts[k] == (if k < |mods| then mods[k] else name);
      SplitJoin(parts);
      JoinNonEmpty(parts);
    }
  }

  lemma {:induction false} JoinNonEmpty(parts: seq<string>)
    requires |parts| >= 1 && parts[0] != ""
    ensures Join(parts) != ""
  {
  }

  /** The ']' key is recorded with the corrected map. */
  lemma CtrlBracket(ed: Edit)
    ensures KeyPress(ed, KeyBracketRight, Mods(true, false, false, false)).ed.hotkey == "ctrl+right bracket"
  {
    assert !Ignored(KeyBracketRight);
    assert ModParts(Mods(true, false, false, false)) == ["ctrl"];
    assert KeyName(KeyBracketRight) == "right bracket";
    assert Join(["ctrl", "right bracket"]) == "ctrl" + "+" + Join(["right bracket"]);
  }

  /** `bindings_dict.get(id)`: the dict keeps the last binding per id. */
  function LastBinding(bindings: seq<Binding>, id: string): (r: Option<Binding>)
    ensures r.Some? ==> r.value in bindings && r.value.id == id
    ensures r.None? ==> forall k :: 0 <= k < |bindings| ==> bindings[k].id != id
    ensures r.Some? ==> exists k :: 0 <= k < |bindings| && bindings[k] == r.value
                          && forall j :: k < j < |bindings| ==> bindings[j].id != id
    decreases |bindings|
  {
    if bindings == [] then None
    else if bindings[|bindings| - 1].id == id then Some(bindings[|bindings| - 1])
    else
      var r := LastBinding(bindings[..|bindings| - 1], id);
      assert forall b :: b in bindings[..|bindings| - 1] ==> b in bindings;
      r
  }

  /** `list.index`: the first position of a value. */
  function IndexOf(ids: seq<string>, x: string): (i: Option<nat>)
    ensures i.Some? ==> i.value < |ids| && ids[i.value] == x && forall k :: 0 <= k < i.value ==> ids[k] != x
    ensures i.None? <==> x !in ids
    decreases |ids|
  {
    if ids == [] then None
    else if ids[0] == x then Some(0)
    else match IndexOf(ids[1..], x)
      case None => None
      case Some(k) => Some(k + 1)
  }

  /** The check box state and combo index `setDevices` gives an output;
      index 0 is "do not change the microphone". */
  datatype Row = Row(checked: bool, comboIndex: nat)

  function InitialRow(bindings: seq<Binding>, deviceId: string, inputIds: seq<string>): (r: Row)
    ensures r.comboIndex <= |inputIds|
    ensures LastBinding(bindings, deviceId).None? ==> r == Row(false, 0)
    ensures r.comboIndex > 0 ==>
      LastBinding(bindings, deviceId).Some? && LastBinding(bindings, deviceId).value.mic == Some(inputIds[r.comboIndex - 1])
    ensures LastBinding(bindings, deviceId).Some? ==> r.checked == LastBinding(bindings, deviceId).value.on
    ensures var lb := LastBinding(bindings, deviceId);
      lb.Some? && lb.value.mic.Some? && lb.value.mic.value in inputIds ==>
        var m := lb.value.mic.value;
        r.comboIndex > 0 && inputIds[r.comboIndex - 1] == m && m !in inputIds[..r.comboIndex - 1]
    ensures var lb := LastBinding(bindings, deviceId);
      lb.Some? && (lb.value.mic.None? || lb.value.mic.value !in inputIds) ==> r.comboIndex == 0
  {
    match LastBinding(bindings, deviceId)
    case None => Row(false, 0)
    case Some(b) =>
      var index := match b.mic
        case None => 0
        case Some(m) => (match IndexOf(inputIds, m) case None => 0 case Some(i) => i + 1);
      Row(b.on, index)
  }

  /** The binding `on_change` emits for a row. */
  function OnChange(deviceId: string, row: Row, inputIds: seq<string>): (b: Binding)
    requires row.comboIndex <= |inputIds|
    ensures b.id == deviceId && b.on == row.checked
    ensures b.mic.Some? <==> row.checked && row.comboIndex > 0
    ensures b.mic.Some? ==> b.mic.value == inputIds[row.comboIndex - 1]
  {
    Binding(deviceId, row.checked, if row.checked && row.comboIndex > 0 then Some(inputIds[row.comboIndex - 1]) else None)
  }

  /** Re-emitting an untouched row gives back the stored binding when it is
      switched on and its microphone is listed (or unset); otherwise the
      microphone is dropped. */
  lemma SelectorRoundTrip(bindings: seq<Binding>, deviceId: string, inputIds: seq<string>)
    requires LastBinding(bindings, deviceId).Some?
    ensures var b := LastBinding(bindings, deviceId).value;
      var e := OnChange(deviceId, InitialRow(bindings, deviceId, inputIds), inputIds);
      && e.id == b.id && e.on == b.on
      && (b.on && (b.mic.None? || b.mic.value in inputIds) ==> e == b)
      && (!b.on || (b.mic.Some? && b.mic.value !in inputIds) ==> e.mic.None?)
  {
  }
}
