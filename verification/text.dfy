/** The string helpers of poppy/utils.py (`strip_audio_name`,
    `color_with_alpha`) and the few Python `str` operations the rest of the
    model relies on: whitespace stripping, prefix and substring tests, and
    `hex()` with `zfill`. Strings are sequences of Unicode code points. */
module Text {
  import opened Wrappers

  /** Python's `str.isspace` for one character: the whitespace `str.strip()`
      removes when called without arguments. */
  predicate IsSpace(c: char) {
    c in Whitespace
  }

  const Whitespace: set<char> := {
    ' ', '\t', '\n', '\r', '\U{B}', '\U{C}', '\U{1C}', '\U{1D}', '\U{1E}', '\U{1F}', '\U{85}', '\U{A0}',
    '\U{1680}', '\U{2000}', '\U{2001}', '\U{2002}', '\U{2003}', '\U{2004}', '\U{2005}', '\U{2006}',
    '\U{2007}', '\U{2008}', '\U{2009}', '\U{200A}', '\U{2028}', '\U{2029}', '\U{202F}', '\U{205F}', '\U{3000}'
  }

  /** The number of leading whitespace characters. */
  function Leading(s: string): (n: nat)
    ensures n <= |s|
    ensures forall k :: 0 <= k < n ==> IsSpace(s[k])
    ensures n < |s| ==> !IsSpace(s[n])
    decreases |s|
  {
    if s != [] && IsSpace(s[0]) then 1 + Leading(s[1..]) else 0
  }

  /** The number of trailing whitespace characters. */
  function Trailing(s: string): (n: nat)
    ensures n <= |s|
    ensures forall k :: |s| - n <= k < |s| ==> IsSpace(s[k])
    ensures n < |s| ==> !IsSpace(s[|s| - n - 1])
    decreases |s|
  {
    if s != [] && IsSpace(s[|s| - 1]) then 1 + Trailing(s[..|s| - 1]) else 0
  }

  /** No whitespace at either end. */
  predicate Trimmed(s: string) {
    s == [] || (!IsSpace(s[0]) && !IsSpace(s[|s| - 1]))
  }

  /** `s.strip()`: the slice left once whitespace is removed from both ends.
      It is trimmed, and all that was cut away on either side is whitespace. */
  function Strip(s: string): (r: string)
    ensures Trimmed(r)
    ensures Leading(s) + |r| <= |s| && r == s[Leading(s)..Leading(s) + |r|]
    ensures forall k :: Leading(s) + |r| <= k < |s| ==> IsSpace(s[k])
  {
    var a := Leading(s);
    if a == |s| then []
    else
      var b := Trailing(s);
      assert !IsSpace(s[a]);
      s[a..|s| - b]
  }

  /** Stripping twice strips nothing more. */
  lemma StripIdempotent(s: string)
    ensures Strip(Strip(s)) == Strip(s)
  {
    var t := Strip(s);
    if t != [] {
      assert Leading(t) == 0;
      assert Trailing(t) == 0;
    }
  }

  /** `c in s`. */
  predicate HasChar(s: string, c: char) {
    exists k :: 0 <= k < |s| && s[k] == c
  }

  /** `s.rfind(c)`: the index of the last occurrence, or -1. */
  function LastIndexOf(s: string, c: char): (i: int)
    ensures -1 <= i < |s|
    ensures i >= 0 ==> s[i] == c
    ensures forall k :: i < k < |s| ==> s[k] != c
    ensures i == -1 <==> !HasChar(s, c)
    decreases |s|
  {
    if s == [] then -1
    else if s[|s| - 1] == c then |s| - 1
    else
      var i := LastIndexOf(s[..|s| - 1], c);
      assert forall k :: 0 <= k < |s| - 1 ==> s[..|s| - 1][k] == s[k];
      i
  }

  /** A prefix that still reaches a non-space character starts with the
      same whitespace as the whole string. */
  lemma {:induction false} LeadingOfPrefix(s: string, i: nat)
    requires i < |s| && !IsSpace(s[i])
    ensures Leading(s[..i]) == Leading(s)
    decreases i
  {
    if i > 0 && IsSpace(s[0]) {
      assert s[..i][1..] == s[1..][..i - 1];
      LeadingOfPrefix(s[1..], i - 1);
    }
  }

  /** Stripping a prefix `s[..i]` that stops at a non-space character (or
      is all of `s`) yields a slice of `s` itself. */
  lemma StripOfPrefix(s: string, i: nat)
    requires i == |s| || (i < |s| && !IsSpace(s[i]))
    ensures var r := Strip(s[..i]);
      && Leading(s) + |r| <= i && r == s[Leading(s)..Leading(s) + |r|]
      && forall k :: Leading(s) + |r| <= k < i ==> IsSpace(s[k])
  {
    var p := s[..i];
    if i < |s| {
      LeadingOfPrefix(s, i);
    } else {
      assert p == s;
    }
    var lead := Leading(s);
    var r := Strip(p);
    PrefixSlices(s, i, lead + |r|);
  }

  /** Inside a prefix, its slices and characters are those of the whole. */
  lemma PrefixSlices(s: string, i: nat, from: nat)
    requires from <= i <= |s|
    ensures forall x :: 0 <= x <= from ==> s[..i][x..from] == s[x..from]
    ensures forall k :: from <= k < i ==> s[..i][k] == s[k]
  {
  }

  /** `strip_audio_name`: a device name that contains '(' and ends with ')'
      loses everything from its last '(' on, and what is left is stripped.
      The result is a trimmed slice of the name; in the bracketed case it ends
      before the last '(' and only whitespace lies between them. */
  function StripAudioName(name: string): (r: string)
    ensures Trimmed(r) && |r| <= |name|
    ensures Leading(name) + |r| <= |name| && r == name[Leading(name)..Leading(name) + |r|]
    ensures HasChar(name, '(') && name[|name| - 1] == ')' ==>
      var i := LastIndexOf(name, '(');
      && Leading(name) + |r| <= i
      && forall k :: Leading(name) + |r| <= k < i ==> IsSpace(name[k])
    ensures !(HasChar(name, '(') && name[|name| - 1] == ')') ==>
      forall k :: Leading(name) + |r| <= k < |name| ==> IsSpace(name[k])
  {
    var j := LastIndexOf(name, '(');
    var i := if j >= 0 && name[|name| - 1] == ')' then j else |name|;
    assert i < |name| ==> name[i] == '(' && !IsSpace(name[i]);
    StripOfPrefix(name, i);
    Strip(name[..i])
  }

  /** `s.startswith(p)`. */
  predicate StartsWith(s: string, p: string) {
    p <= s
  }

  /** `t in s` for strings: `t` occurs somewhere in `s` as a slice. */
  predicate Contains(s: string, t: string)
    decreases |s|
  {
    t <= s || (s != [] && Contains(s[1..], t))
  }

  /** An occurrence at any offset is found by `Contains`. */
  lemma {:induction false} SliceContains(s: string, t: string, a: nat)
    requires a + |t| <= |s| && s[a..a + |t|] == t
    ensures Contains(s, t)
    decreases a
  {
    if a == 0 {
      assert s[..|t|] == t;
    } else {
      assert s[1..][a - 1..a - 1 + |t|] == s[a..a + |t|];
      SliceContains(s[1..], t, a - 1);
    }
  }

  /** And every `Contains` answer has an offset behind it. */
  lemma {:induction false} ContainsOffset(s: string, t: string) returns (a: nat)
    requires Contains(s, t)
    ensures a + |t| <= |s| && s[a..a + |t|] == t
    decreases |s|
  {
    if t <= s {
      a := 0;
    } else {
      var b := ContainsOffset(s[1..], t);
      assert s[1..][b..b + |t|] == s[b + 1..b + 1 + |t|];
      a := b + 1;
    }
  }

  /** One upper-case hexadecimal digit. */
  function HexDigit(d: int): (c: char)
    requires 0 <= d < 16
  {
    if d < 10 then ('0' as int + d) as char else ('A' as int + d - 10) as char
  }

  /** The value of an upper-case hexadecimal digit, -1 for any other character. */
  function DigitValue(c: char): (d: int)
    ensures -1 <= d < 16
  {
    if '0' <= c <= '9' then c as int - '0' as int
    else if 'A' <= c <= 'F' then c as int - 'A' as int + 10
    else -1
  }

  lemma DigitRoundTrip(d: int)
    requires 0 <= d < 16
    ensures DigitValue(HexDigit(d)) == d
  {
  }

  /** The digits of `hex(n)[2:].upper()` for a natural number. */
  function HexUpper(n: nat): (s: string)
    ensures |s| >= 1
    ensures forall k :: 0 <= k < |s| ==> 0 <= DigitValue(s[k])
    decreases n
  {
    if n < 16 then [HexDigit(n)] else HexUpper(n / 16) + [HexDigit(n % 16)]
  }

  /** Reading a string of hexadecimal digits back as a number. */
  function HexValue(s: string): int
    decreases |s|
  {
    if s == [] then 0 else HexValue(s[..|s| - 1]) * 16 + DigitValue(s[|s| - 1])
  }

  lemma {:induction false} HexRoundTrip(n: nat)
    ensures HexValue(HexUpper(n)) == n
    decreases n
  {
    if n < 16 {
      DigitRoundTrip(n);
      assert [HexDigit(n)][..0] == [];
    } else {
      var s := HexUpper(n);
      HexRoundTrip(n / 16);
      DigitRoundTrip(n % 16);
      assert s[..|s| - 1] == HexUpper(n / 16);
    }
  }

  /** The digits of `str(n)` for a natural number. */
  function Decimal(n: nat): (s: string)
    ensures |s| >= 1
    ensures forall k :: 0 <= k < |s| ==> '0' <= s[k] <= '9'
    decreases n
  {
    if n < 10 then [HexDigit(n)] else Decimal(n / 10) + [HexDigit(n % 10)]
  }

  /** Reading a string of decimal digits back as a number. */
  function DecimalValue(s: string): int
    decreases |s|
  {
    if s == [] then 0 else DecimalValue(s[..|s| - 1]) * 10 + DigitValue(s[|s| - 1])
  }

  lemma {:induction false} DecimalRoundTrip(n: nat)
    ensures DecimalValue(Decimal(n)) == n
    decreases n
  {
    if n < 10 {
      DigitRoundTrip(n);
      assert [HexDigit(n)][..0] == [];
    } else {
      var s := Decimal(n);
      DecimalRoundTrip(n / 10);
      DigitRoundTrip(n % 10);
      assert s[..|s| - 1] == Decimal(n / 10);
    }
  }

  /** `str(n)` for any integer: a minus sign in front of a negative one. */
  function Str(n: int): (s: string)
    ensures |s| >= 1
    ensures n >= 0 <==> '0' <= s[0] <= '9'
  {
    if n >= 0 then Decimal(n) else "-" + Decimal(-n)
  }

  /** `int(s)` on what `str` printed. */
  lemma StrRoundTrip(n: int)
    ensures n >= 0 ==> DecimalValue(Str(n)) == n
    ensures n < 0 ==> Str(n)[0] == '-' && DecimalValue(Str(n)[1..]) == -n
  {
    if n >= 0 { DecimalRoundTrip(n); } else { DecimalRoundTrip(-n); assert Str(n)[1..] == Decimal(-n); }
  }

  /** `str.zfill(2)`: pad with zeros on the left to two characters (only
      strings starting with a sign keep it in front; the text here never
      starts with one). */
  function ZFill2(s: string): (r: string)
    ensures |r| == if |s| < 2 then 2 else |s|
  {
    if |s| == 0 then "00" else if |s| == 1 then ['0'] + s else s
  }

  /** `hex(alpha)[2:].upper().zfill(2)`. For a negative alpha `hex` yields
      "-0x…", so dropping two characters leaves "x…", upper-cased to "X…". */
  function AlphaHex(alpha: int): (s: string)
    ensures |s| >= 2
  {
    if alpha >= 0 then ZFill2(HexUpper(alpha)) else ['X'] + HexUpper(-alpha)
  }

  /** `ValueError` from `color_with_alpha`. */
  datatype ColorError = NotRRGGBB

  /** `color_with_alpha`: one leading '#' is dropped, exactly six characters
      must remain, and the result is "#", the alpha digits and those six. */
  function ColorWithAlpha(hexColor: string, alpha: int): (r: Result<string, ColorError>)
    ensures r.Failure? <==> |if StartsWith(hexColor, "#") then hexColor[1..] else hexColor| != 6
    ensures r.Success? ==>
      |hexColor| >= 6 && |r.value| >= 9 && r.value[0] == '#' && r.value[|r.value| - 6..] == hexColor[|hexColor| - 6..]
  {
    var body := if StartsWith(hexColor, "#") then hexColor[1..] else hexColor;
    if |body| != 6 then Failure(NotRRGGBB)
    else
      var out := "#" + AlphaHex(alpha) + body;
      assert out[|out| - 6..] == body;
      Success(out)
  }

  /** For an alpha in [0, 255] the result is nine characters, "#AARRGGBB",
      and its two alpha digits read back as the alpha. */
  lemma ColorWithAlphaRoundTrip(hexColor: string, alpha: int)
    requires 0 <= alpha <= 255
    requires |if StartsWith(hexColor, "#") then hexColor[1..] else hexColor| == 6
    ensures |ColorWithAlpha(hexColor, alpha).value| == 9
    ensures HexValue(ColorWithAlpha(hexColor, alpha).value[1..3]) == alpha
  {
    var h := HexUpper(alpha);
    HexRoundTrip(alpha);
    var out := ColorWithAlpha(hexColor, alpha).value;
    assert |h| <= 2 by {
      if alpha >= 16 {
        assert HexUpper(alpha / 16) == [HexDigit(alpha / 16)];
      }
    }
    if |h| == 1 {
      assert out[1..3] == ['0'] + h;
      assert (['0'] + h)[..1] == ['0'];
      assert HexValue(['0']) == 0 by {
        assert ['0'][..0] == [];
      }
    } else {
      assert out[1..3] == h;
    }
  }
}
