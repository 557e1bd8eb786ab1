/** The data side of the media popup (poppy/media_info_popup.py): the
    timeline bar's progress, the average colour of a cover image sampled on
    a grid, and the track/cover cache kept between two metadata reads. */
module Media {
  import opened Wrappers
  import opened Arith

  /** `TimelineBar.set_progress`: the stored progress, kept in [0, 1]. */
  function SetProgress(value: real): (p: real)
    ensures 0.0 <= p <= 1.0
    ensures 0.0 <= value <= 1.0 ==> p == value
    ensures value < 0.0 ==> p == 0.0
    ensures value > 1.0 ==> p == 1.0
  {
    var upper := if value < 1.0 then value else 1.0;
    if upper < 0.0 then 0.0 else upper
  }

  // ---------------------------------------------------------------------
  // Average colour of a cover
  // ---------------------------------------------------------------------

  type Channel = x: int | 0 <= x < 256

  /** One `QRgb` of a `QImage`. */
  datatype Pixel = Pixel(red: Channel, green: Channel, blue: Channel, alpha: Channel)

  /** A `QImage`: `rows[y][x]` is `image.pixel(x, y)`. */
  datatype Image = Image(width: int, height: int, rows: seq<seq<Pixel>>)

  predicate Rectangular(img: Image) {
    && img.width >= 0 && img.height == |img.rows|
    && forall y :: 0 <= y < |img.rows| ==> |img.rows[y]| == img.width
  }

  datatype Color = Color(red: int, green: int, blue: int)

  /** The colour returned when nothing can be sampled. */
  const Fallback: Color := Color(128, 128, 128)

  /** Pixels with an alpha below this are skipped. */
  const AlphaFloor: int := 10

  /** The sampling step `_get_average_color` is always called with. */
  const SampleStep: int := 5

  /** Running channel sums and the number of pixels counted. */
  datatype Acc = Acc(red: int, green: int, blue: int, count: int)

  const Zero: Acc := Acc(0, 0, 0, 0)

  function Plus(a: Acc, b: Acc): Acc {
    Acc(a.red + b.red, a.green + b.green, a.blue + b.blue, a.count + b.count)
  }

  /** What one sampled pixel adds. `honourAlpha` says whether the alpha the
      loop tests is the pixel's own; with it false every pixel reads as
      opaque and none is skipped. */
  function Contribution(p: Pixel, honourAlpha: bool): Acc {
    if honourAlpha && p.alpha < AlphaFloor then Zero else Acc(p.red, p.green, p.blue, 1)
  }

  function Tally(ps: seq<Pixel>, honourAlpha: bool): Acc
    decreases |ps|
  {
    if ps == [] then Zero else Plus(Contribution(ps[0], honourAlpha), Tally(ps[1..], honourAlpha))
  }

  lemma {:induction false} TallyAppend(a: seq<Pixel>, b: seq<Pixel>, honourAlpha: bool)
    ensures Tally(a + b, honourAlpha) == Plus(Tally(a, honourAlpha), Tally(b, honourAlpha))
    decreases |a|
  {
    if a == [] {
      assert a + b == b;
    } else {
      assert (a + b)[0] == a[0];
      assert (a + b)[1..] == a[1..] + b;
      TallyAppend(a[1..], b, honourAlpha);
    }
  }

  /** The pixels of one row at `x`, `x + step`, ... (`range(x, width, step)`). */
  function Stride(row: seq<Pixel>, x: int, step: int): seq<Pixel>
    requires x >= 0 && step > 0
    decreases |row| - x
  {
    if x >= |row| then [] else [row[x]] + Stride(row, x + step, step)
  }

  /** The pixels sampled from row `y` on, every `step`-th row. */
  function Samples(rows: seq<seq<Pixel>>, y: int, step: int): seq<Pixel>
    requires y >= 0 && step > 0
    decreases |rows| - y
  {
    if y >= |rows| then [] else Stride(rows[y], 0, step) + Samples(rows, y + step, step)
  }

  /** The floor average of the counted pixels, or the fallback. */
  function AverageOf(a: Acc): Color {
    if a.count <= 0 then Fallback else Color(a.red / a.count, a.green / a.count, a.blue / a.count)
  }

  /** `_get_average_color`, stated on the sequence of sampled pixels: the
      fallback for a null or empty image. */
  function AverageSpec(pixmap: Option<Image>, step: int, honourAlpha: bool): Color
    requires step > 0
  {
    match pixmap
    case None => Fallback
    case Some(img) =>
      if img.width == 0 || img.height == 0 then Fallback
      else AverageOf(Tally(Samples(img.rows, 0, step), honourAlpha))
  }

  /** The inner loop of `_get_average_color`: one row's samples added to
      the running sums, skipping near-transparent pixels when `honourAlpha`
      holds. */
  method SampleRow(row: seq<Pixel>, step: int, honourAlpha: bool, start: Acc) returns (acc: Acc)
    requires step > 0
    ensures acc == Plus(start, Tally(Stride(row, 0, step), honourAlpha))
  {
    acc := start;
    var x := 0;
    while x < |row|
      invariant x >= 0
      invariant Plus(acc, Tally(Stride(row, x, step), honourAlpha)) == Plus(start, Tally(Stride(row, 0, step), honourAlpha))
      decreases |row| - x
    {
      var p := row[x];
      assert Stride(row, x, step)[1..] == Stride(row, x + step, step);
      var alpha := if honourAlpha then p.alpha else 255;
      if alpha >= AlphaFloor {
        acc := Acc(acc.red + p.red, acc.green + p.green, acc.blue + p.blue, acc.count + 1);
      }
      x := x + step;
    }
  }

  /** `_get_average_color`: rows outside, columns inside, every `step`-th
      pixel, then the floor average or the fallback. */
  method AverageColor(pixmap: Option<Image>, step: int, honourAlpha: bool) returns (c: Color)
    requires step > 0
    requires pixmap.Some? ==> Rectangular(pixmap.value)
    ensures c == AverageSpec(pixmap, step, honourAlpha)
  {
    if pixmap.None? {
      return Fallback;
    }
    var img := pixmap.value;
    if img.width == 0 || img.height == 0 {
      return Fallback;
    }
    ghost var total := Tally(Samples(img.rows, 0, step), honourAlpha);
    var acc := Zero;
    var y := 0;
    while y < img.height
      invariant y >= 0
      invariant Plus(acc, Tally(Samples(img.rows, y, step), honourAlpha)) == total
      decreases img.height - y
    {
      TallyAppend(Stride(img.rows[y], 0, step), Samples(img.rows, y + step, step), honourAlpha);
      acc := SampleRow(img.rows[y], step, honourAlpha, acc);
      y := y + step;
    }
    assert Samples(img.rows, y, step) == [];
    TallyBounds(Samples(img.rows, 0, step), honourAlpha);
    if acc.count == 0 {
      return Fallback;
    }
    c := Color(acc.red / acc.count, acc.green / acc.count, acc.blue / acc.count);
  }

  lemma {:induction false} TallyBounds(ps: seq<Pixel>, honourAlpha: bool)
    ensures var t := Tally(ps, honourAlpha);
      && 0 <= t.count <= |ps|
      && 0 <= t.red <= 255 * t.count && 0 <= t.green <= 255 * t.count && 0 <= t.blue <= 255 * t.count
    decreases |ps|
  {
    if ps != [] {
      TallyBounds(ps[1..], honourAlpha);
    }
  }

  /** Every channel of the average is a channel value. */
  lemma AverageInRange(pixmap: Option<Image>, step: int, honourAlpha: bool)
    requires step > 0
    ensures var c := AverageSpec(pixmap, step, honourAlpha);
      0 <= c.red <= 255 && 0 <= c.green <= 255 && 0 <= c.blue <= 255
  {
    if pixmap.Some? && pixmap.value.width != 0 && pixmap.value.height != 0 {
      var t := Tally(Samples(pixmap.value.rows, 0, step), honourAlpha);
      TallyBounds(Samples(pixmap.value.rows, 0, step), honourAlpha);
      if t.count > 0 {
        FloorAverageBelow(t.red, t.count);
        FloorAverageBelow(t.green, t.count);
        FloorAverageBelow(t.blue, t.count);
      }
    }
  }

  /** A property of every pixel of the rows holds of every sample. */
  lemma {:induction false} StrideHolds(row: seq<Pixel>, x: int, step: int, holds: Pixel -> bool)
    requires x >= 0 && step > 0
    requires forall i :: 0 <= i < |row| ==> holds(row[i])
    ensures forall k :: 0 <= k < |Stride(row, x, step)| ==> holds(Stride(row, x, step)[k])
    decreases |row| - x
  {
    if x < |row| {
      StrideHolds(row, x + step, step, holds);
      var s := Stride(row, x, step);
      assert forall k :: 1 <= k < |s| ==> s[k] == Stride(row, x + step, step)[k - 1];
    }
  }

  lemma {:induction false} SamplesHold(rows: seq<seq<Pixel>>, y: int, step: int, holds: Pixel -> bool)
    requires y >= 0 && step > 0
    requires forall j, i :: 0 <= j < |rows| && 0 <= i < |rows[j]| ==> holds(rows[j][i])
    ensures forall k :: 0 <= k < |Samples(rows, y, step)| ==> holds(Samples(rows, y, step)[k])
    decreases |rows| - y
  {
    if y < |rows| {
      StrideHolds(rows[y], 0, step, holds);
      SamplesHold(rows, y + step, step, holds);
      var head := Stride(rows[y], 0, step);
      var s := Samples(rows, y, step);
      assert s == head + Samples(rows, y + step, step);
      assert forall k :: 0 <= k < |head| ==> s[k] == head[k];
      assert forall k :: |head| <= k < |s| ==> s[k] == Samples(rows, y + step, step)[k - |head|];
    }
  }

  lemma {:induction false} TallyUniform(ps: seq<Pixel>, p: Pixel, honourAlpha: bool)
    requires forall k :: 0 <= k < |ps| ==> ps[k] == p
    requires !honourAlpha || p.alpha >= AlphaFloor
    ensures Tally(ps, honourAlpha) == Acc(p.red * |ps|, p.green * |ps|, p.blue * |ps|, |ps|)
    decreases |ps|
  {
    if ps != [] {
      var n := |ps| - 1;
      TallyUniform(ps[1..], p, honourAlpha);
      assert Contribution(ps[0], honourAlpha) == Acc(p.red, p.green, p.blue, 1);
      MulSucc(p.red, n);
      MulSucc(p.green, n);
      MulSucc(p.blue, n);
    }
  }

  lemma {:induction false} TallyNoneCounted(ps: seq<Pixel>)
    requires forall k :: 0 <= k < |ps| ==> ps[k].alpha < AlphaFloor
    ensures Tally(ps, true).count == 0
    decreases |ps|
  {
    if ps != [] {
      TallyNoneCounted(ps[1..]);
    }
  }

  /** An image of one solid, visible colour averages to that colour. */
  lemma UniformCover(img: Image, p: Pixel, step: int, honourAlpha: bool)
    requires step > 0 && Rectangular(img) && img.width > 0 && img.height > 0
    requires forall y, x :: 0 <= y < |img.rows| && 0 <= x < |img.rows[y]| ==> img.rows[y][x] == p
    requires !honourAlpha || p.alpha >= AlphaFloor
    ensures AverageSpec(Some(img), step, honourAlpha) == Color(p.red, p.green, p.blue)
  {
    var s := Samples(img.rows, 0, step);
    SamplesHold(img.rows, 0, step, (q: Pixel) => q == p);
    TallyUniform(s, p, honourAlpha);
    assert s == Stride(img.rows[0], 0, step) + Samples(img.rows, step, step);
    assert |Stride(img.rows[0], 0, step)| > 0;
    MulDivCancel(p.red, |s|);
    MulDivCancel(p.green, |s|);
    MulDivCancel(p.blue, |s|);
  }

  /** Skipping near-transparent pixels: an image that is transparent
      everywhere gives the fallback colour. */
  lemma TransparentCoverFallback(img: Image, step: int)
    requires step > 0 && Rectangular(img)
    requires forall y, x :: 0 <= y < |img.rows| && 0 <= x < |img.rows[y]| ==> img.rows[y][x].alpha < AlphaFloor
    ensures AverageSpec(Some(img), step, true) == Fallback
  {
    var s := Samples(img.rows, 0, step);
    SamplesHold(img.rows, 0, step, (q: Pixel) => q.alpha < AlphaFloor);
    TallyNoneCounted(s);
  }

  /** As written the pixel is read through `QColor(QRgb)`, which drops the
      alpha, so the skip never happens: a fully transparent black cover
      averages to black instead of the fallback. */
  lemma TransparentCoverAsWritten()
    ensures var img := Image(1, 1, [[Pixel(0, 0, 0, 0)]]);
      && AverageSpec(Some(img), SampleStep, false) == Color(0, 0, 0)
      && AverageSpec(Some(img), SampleStep, true) == Fallback
  {
    var clear := Pixel(0, 0, 0, 0);
    var img := Image(1, 1, [[clear]]);
    assert Rectangular(img);
    assert forall y, x :: 0 <= y < |img.rows| && 0 <= x < |img.rows[y]| ==> img.rows[y][x] == clear;
    UniformCover(img, clear, SampleStep, false);
    TransparentCoverFallback(img, SampleStep);
  }

  // ---------------------------------------------------------------------
  // Track and cover cache
  // ---------------------------------------------------------------------

  type Bytes = seq<bv8>

  /** `_last_track` and `_last_cover`. A track key is a list of strings so
      that the key as written (one concatenated string) and a key that
      keeps title and artist apart have one type. */
  datatype Cache = Cache(lastTrack: Option<seq<string>>, lastCover: Option<Bytes>)

  const EmptyCache: Cache := Cache(None, None)

  /** The session's media properties; "" stands for a missing value. */
  datatype Properties = Properties(title: string, artist: string, hasThumbnail: bool)

  /** The dictionary `_get_media_info` returns. */
  datatype Info = Info(title: string, artist: string, cover: Option<Bytes>)

  /** What a read gives: the new cache, the info, and whether the thumbnail
      was read. */
  datatype InfoOut = InfoOut(cache: Cache, info: Option<Info>, readThumbnail: bool)

  const NoTitle: string := "Без названия"
  const NoArtist: string := "Неизвестен"

  /** `if not self._last_cover`: no bytes, or empty bytes. */
  predicate CoverMissing(c: Option<Bytes>) {
    c.None? || c.value == []
  }

  function TitleOf(p: Properties): string {
    if p.title == "" then NoTitle else p.title
  }

  function ArtistOf(p: Properties): string {
    if p.artist == "" then NoArtist else p.artist
  }

  /** The track key as written: `title + artist`. */
  function TrackKeyAsWritten(p: Properties): seq<string> {
    [TitleOf(p) + ArtistOf(p)]
  }

  /** A track key that tells title and artist apart. */
  function TrackKey(p: Properties): seq<string> {
    [TitleOf(p), ArtistOf(p)]
  }

  /** `_get_media_info` for a given track key. `read` is what
      `_read_thumbnail` yields (`None` on any failure). */
  function InfoWith(key: seq<string>, c: Cache, hasSession: bool, props: Option<Properties>, read: Option<Bytes>): (o: InfoOut)
    ensures !hasSession || props.None? ==> o == InfoOut(c, None, false)
    ensures hasSession && props.Some? ==>
      && o.info == Some(Info(TitleOf(props.value), ArtistOf(props.value), o.cache.lastCover))
      && o.cache.lastTrack == Some(key)
      && (o.readThumbnail <==> (c.lastTrack != Some(key) || CoverMissing(c.lastCover)) && props.value.hasThumbnail)
      && (c.lastTrack == Some(key) && !CoverMissing(c.lastCover) ==> o.cache == c)
      && (c.lastTrack != Some(key) || CoverMissing(c.lastCover) ==>
            o.cache.lastCover == if props.value.hasThumbnail then read else None)
  {
    if !hasSession || props.None? then InfoOut(c, None, false)
    else
      var p := props.value;
      var c1 := if c.lastTrack != Some(key) then Cache(Some(key), None) else c;
      var c2 := if CoverMissing(c1.lastCover) then c1.(lastCover := if p.hasThumbnail then read else None) else c1;
      InfoOut(c2, Some(Info(TitleOf(p), ArtistOf(p), c2.lastCover)), CoverMissing(c1.lastCover) && p.hasThumbnail)
  }

  function GetMediaInfoAsWritten(c: Cache, hasSession: bool, props: Option<Properties>, read: Option<Bytes>): InfoOut {
    InfoWith(if props.Some? then TrackKeyAsWritten(props.value) else [], c, hasSession, props, read)
  }

  function GetMediaInfo(c: Cache, hasSession: bool, props: Option<Properties>, read: Option<Bytes>): InfoOut {
    InfoWith(if props.Some? then TrackKey(props.value) else [], c, hasSession, props, read)
  }

  /** A read of the same track with a cover in the cache reuses it; a read
      of a different track takes the freshly read thumbnail. */
  lemma CoverFollowsTrack(c: Cache, p: Properties, q: Properties, read: Option<Bytes>, again: Option<Bytes>)
    requires p.hasThumbnail && q.hasThumbnail && read.Some? && read.value != []
    requires c.lastTrack != Some(TrackKey(p)) || CoverMissing(c.lastCover)
    ensures var first := GetMediaInfo(c, true, Some(p), read);
      && first.info.value.cover == read
      && GetMediaInfo(first.cache, true, Some(p), again) == InfoOut(first.cache, first.info, false)
      && (TrackKey(q) != TrackKey(p) ==> GetMediaInfo(first.cache, true, Some(q), again).info.value.cover == again)
  {
  }

  /** Different tracks have different keys once title and artist are kept
      apart. */
  lemma TrackKeyInjective(p: Properties, q: Properties)
    ensures TrackKey(p) == TrackKey(q) <==> TitleOf(p) == TitleOf(q) && ArtistOf(p) == ArtistOf(q)
  {
    if TrackKey(p) == TrackKey(q) {
      assert TrackKey(p)[0] == TrackKey(q)[0] && TrackKey(p)[1] == TrackKey(q)[1];
    }
  }

  /** As written, "AB" by "C" and "A" by "BC" share the key "ABC": the second
      track is shown with the first one's cover and its own thumbnail is
      never read. */
  lemma TrackKeyCollisionAsWritten(cover: Bytes, other: Bytes)
    requires cover != []
    ensures var p := Properties("AB", "C", true);
      var q := Properties("A", "BC", true);
      var first := GetMediaInfoAsWritten(EmptyCache, true, Some(p), Some(cover));
      var second := GetMediaInfoAsWritten(first.cache, true, Some(q), Some(other));
      && second.info.value.cover == Some(cover) && !second.readThumbnail
  {
    var p := Properties("AB", "C", true);
    var q := Properties("A", "BC", true);
    assert TitleOf(p) + ArtistOf(p) == "ABC";
    assert TitleOf(q) + ArtistOf(q) == "ABC";
  }

  /** With the pair key the same two tracks each get their own cover. */
  lemma TrackKeyCollisionFixed(cover: Bytes, other: Bytes)
    requires cover != []
    ensures var p := Properties("AB", "C", true);
      var q := Properties("A", "BC", true);
      var first := GetMediaInfo(EmptyCache, true, Some(p), Some(cover));
      var second := GetMediaInfo(first.cache, true, Some(q), Some(other));
      && second.info.value.cover == Some(other) && second.readThumbnail
  {
    var p := Properties("AB", "C", true);
    var q := Properties("A", "BC", true);
    TrackKeyInjective(p, q);
    assert TitleOf(p) != TitleOf(q) by { assert TitleOf(p) == "AB" && TitleOf(q) == "A"; }
  }
}
