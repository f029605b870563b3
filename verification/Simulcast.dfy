/**
 Planning of published video (src/core/local_video_track.cpp): the bitrate of a screen share, the layers
 of a simulcast, the layers of an SVC stream, and the codec. Scales and the factors of AV1 and VP9 are real numbers.
 */
module Simulcast {
  import opened Options

  /** VideoPreset */
  datatype Preset = Preset(width: int, height: int, bitrate: int, fps: int)

  const CAMERA_16_9: seq<Preset> := [
    Preset(160, 90, 90000, 15), Preset(320, 180, 160000, 15), Preset(384, 216, 180000, 15),
    Preset(640, 360, 450000, 20),
    Preset(960, 540, 800000, 25), Preset(1280, 720, 1700000, 30), Preset(1920, 1080, 3000000, 30),
    Preset(2560, 1440, 5000000, 30), Preset(3840, 2160, 8000000, 30)]

  const CAMERA_4_3: seq<Preset> := [
    Preset(160, 120, 80000, 15), Preset(240, 180, 100000, 15), Preset(320, 240, 150000, 15),
    Preset(480, 360, 225000, 20),
    Preset(640, 480, 300000, 20), Preset(720, 540, 450000, 25), Preset(960, 720, 1500000, 30),
    Preset(1440, 1080, 2500000, 30), Preset(1920, 1440, 3500000, 30)]

  const SCREEN: seq<Preset> := [
    Preset(640, 360, 500000, 15), Preset(1280, 720, 1000000, 15), Preset(1920, 1080, 1500000, 15),
    Preset(3840, 2160, 3000000, 15)]

  /** The pixels and the bitrates the interpolation goes through, at 15 frames a second. */
  const PIXELS: seq<int> := [0, 640 * 360, 1280 * 720, 1920 * 1080, 2560 * 1440, 3840 * 2160]
  const RATES: seq<int> := [150000, 500000, 1000000, 2000000, 3500000, 6000000]

  const MAXIMUM_BITRATE := 12000000

  // ----- Bitrate of a screen share -----

  /** The straight line between two anchors, rounded down. */
  function Line(i: nat, pixels: int): int
    requires 1 <= i < |PIXELS|
  {
    RATES[i - 1] + (RATES[i] - RATES[i - 1]) * (pixels - PIXELS[i - 1]) / (PIXELS[i] - PIXELS[i - 1])
  }

  /** The bitrate at 15 frames a second, from the i-th segment on. */
  function RateFrom(i: nat, pixels: int): int
    requires 1 <= i <= |PIXELS|
    decreases |PIXELS| - i
  {
    if i == |PIXELS| then RATES[5] else if pixels <= PIXELS[i] then Line(i, pixels) else RateFrom(i + 1, pixels)
  }

  function ScreenBitrate(pixels: int, fps: int): int {
    var scaled := RateFrom(1, pixels) * fps / 15;
    if MAXIMUM_BITRATE < scaled then MAXIMUM_BITRATE else scaled
  }

  /** The loop over the anchors. */
  method ComputeScreenBitrate(width: int, height: int, fps: int) returns (bitrate: int)
    requires width > 0 && height > 0
    ensures bitrate == ScreenBitrate(width * height, fps)
  {
    var pixels := width * height;
    var rate := RATES[5];
    var i := 1;
    while i < |PIXELS|
      invariant 1 <= i <= |PIXELS| && rate == RATES[5] && RateFrom(1, pixels) == RateFrom(i, pixels)
    {
      if pixels <= PIXELS[i] {
        rate := RATES[i - 1] + (RATES[i] - RATES[i - 1]) * (pixels - PIXELS[i - 1]) / (PIXELS[i] - PIXELS[i - 1]);
        break;
      }
      i := i + 1;
    }
    bitrate := rate * fps / 15;
    if MAXIMUM_BITRATE < bitrate { bitrate := MAXIMUM_BITRATE; }
  }

  lemma ScaleMonotone(k: int, d: int, a: int, b: int)
    requires k >= 0 && d > 0 && a <= b
    ensures k * a / d <= k * b / d
  {
    assert k * a <= k * b;
    DivMonotone(k * a, k * b, d);
  }

  lemma DivMonotone(x: int, y: int, d: int)
    requires x <= y && d > 0
    ensures x / d <= y / d
  {
    var a, b := x / d, y / d;
    assert x == d * a + x % d && y == d * b + y % d;
    assert a > b ==> d * (a - b - 1) >= 0;
    assert d * (a - b - 1) == d * a - d * b - d;
  }

  predicate OnSegment(i: nat, pixels: int) {
    1 <= i < |PIXELS| && PIXELS[i - 1] <= pixels <= PIXELS[i]
  }

  /** On its segment the line stays between its anchors, and rises. */
  lemma LineBounds(i: nat, p: int, q: int)
    requires OnSegment(i, p) && OnSegment(i, q) && p <= q
    ensures RATES[i - 1] <= Line(i, p) <= Line(i, q) <= RATES[i]
  {
    var k, d := RATES[i] - RATES[i - 1], PIXELS[i] - PIXELS[i - 1];
    ScaleMonotone(k, d, 0, p - PIXELS[i - 1]);
    ScaleMonotone(k, d, p - PIXELS[i - 1], q - PIXELS[i - 1]);
    ScaleMonotone(k, d, q - PIXELS[i - 1], d);
  }

  /** From the i-th segment on, the bitrate lies between the anchor before it and the last one, and rises. */
  lemma {:induction false} RateMonotone(i: nat, p: int, q: int)
    requires 1 <= i <= |PIXELS| && PIXELS[i - 1] <= p <= q
    ensures RATES[i - 1] <= RateFrom(i, p) <= RateFrom(i, q) <= RATES[5]
    decreases |PIXELS| - i
  {
    hide Line;
    if i < |PIXELS| {
      assert RATES[i] <= RATES[5];
      if q <= PIXELS[i] {
        LineBounds(i, p, q);
      } else if p <= PIXELS[i] {
        LineBounds(i, p, PIXELS[i]);
        RateMonotone(i + 1, PIXELS[i], q);
      } else {
        RateMonotone(i + 1, p, q);
      }
    }
  }

  predicate ScreenFps(fps: int) {
    fps == 15 || fps == 20 || fps == 30
  }

  /** More pixels or more frames never get less; the bitrate lies within its bounds, and the cap never bites. */
  lemma ScreenBitrateMonotone(p: int, q: int, f: int, g: int)
    requires 0 <= p <= q && ScreenFps(f) && ScreenFps(g) && f <= g
    ensures 150000 <= ScreenBitrate(p, f) <= ScreenBitrate(q, g) <= MAXIMUM_BITRATE
    ensures ScreenBitrate(p, f) == RateFrom(1, p) * f / 15
  {
    hide RateFrom;
    RateMonotone(1, p, q);
  }

  /** At 15 frames a second every anchor gets exactly its bitrate. */
  lemma AnchorsAreExact(i: nat)
    requires i < |PIXELS|
    ensures ScreenBitrate(PIXELS[i], 15) == RATES[i]
  {
    if i == 0 {
      assert ScreenBitrate(0, 15) == 150000;
    } else {
      AnchorIsReached(1, i);
      assert Line(i, PIXELS[i]) == RATES[i] by { LineEnds(i); }
    }
  }

  lemma {:induction false} AnchorIsReached(j: nat, i: nat)
    requires 1 <= j <= i < |PIXELS|
    ensures RateFrom(j, PIXELS[i]) == Line(i, PIXELS[i])
    decreases i - j
  {
    hide Line;
    if j < i { AnchorIsReached(j + 1, i); }
  }

  lemma LineEnds(i: nat)
    requires 1 <= i < |PIXELS|
    ensures Line(i, PIXELS[i]) == RATES[i]
  {
    var k, d := RATES[i] - RATES[i - 1], PIXELS[i] - PIXELS[i - 1];
    assert k * d / d == k;
  }

  // ----- Simulcast layers -----

  /** What is asked for: the source, its frame rate if it is a screen, the codec, and the kind of encoding. */
  datatype Request = Request(screen: bool, screenFps: int, codec: string, simulcast: bool, svc: bool)

  /** The frame rate of a screen share is one of three, or 0 for what its preset says. */
  predicate Accepted(q: Request) {
    q.screen && q.screenFps != 0 ==> ScreenFps(q.screenFps)
  }

  /** VideoLayerSetting; the scale is None where the layer has no picture, the quotient being infinite. */
  datatype Layer = Layer(width: int, height: int, bitrate: int, fps: int, rid: char, scale: Option<real>)

  /** The first preset wider than the size, or the last. */
  function EncodingPreset(presets: seq<Preset>, size: int): Preset
    requires presets != []
  {
    if presets[0].width > size || |presets| == 1 then presets[0] else EncodingPreset(presets[1..], size)
  }

  /** The loop over a table of presets. */
  method FindPreset(presets: seq<Preset>, size: int) returns (p: Preset)
    requires presets != []
    ensures p == EncodingPreset(presets, size)
  {
    for i := 0 to |presets|
      invariant i < |presets| ==> EncodingPreset(presets[i..], size) == EncodingPreset(presets, size)
      invariant i == |presets| ==> EncodingPreset(presets, size) == presets[i - 1]
    {
      assert i + 1 < |presets| ==> presets[i..][1..] == presets[i + 1..];
      if presets[i].width > size { return presets[i]; }
    }
    p := presets[|presets| - 1];
  }

  function Larger(a: int, b: int): int { if a > b then a else b }

  function Smaller(a: int, b: int): int { if a < b then a else b }

  function Distance(x: real, y: real): real { if x < y then y - x else x - y }

  /** Whether a picture is closer to 16:9 than to 4:3. */
  predicate IsWide(width: int, height: int)
    requires width > 0 && height > 0
  {
    var aspect := Larger(width, height) as real / Smaller(width, height) as real;
    Distance(aspect, 16.0 / 9.0) < Distance(aspect, 4.0 / 3.0)
  }

  function CameraPresets(width: int, height: int): (presets: seq<Preset>)
    requires width > 0 && height > 0
    ensures presets == CAMERA_16_9 || presets == CAMERA_4_3
  {
    if IsWide(width, height) then CAMERA_16_9 else CAMERA_4_3
  }

  /** The bitrate and frame rate of the picture itself, before the codec is taken into account. */
  function Original(width: int, height: int, q: Request): Preset
    requires width > 0 && height > 0
  {
    var table := if q.screen then SCREEN else CameraPresets(width, height);
    var preset := EncodingPreset(table, Larger(width, height)).(width := width, height := height);
    if !q.screen || q.screenFps == 0 then preset
    else preset.(bitrate := ScreenBitrate(width * height, q.screenFps),
                 fps := if q.codec == "vp8" then 30 else q.screenFps)
  }

  /** AV1 and VP9 get by with less. */
  function Trimmed(bitrate: int, codec: string): int {
    if codec == "av1" then bitrate * 7 / 10 else if codec == "vp9" then bitrate * 85 / 100 else bitrate
  }

  function Source(width: int, height: int, q: Request): Preset
    requires width > 0 && height > 0
  {
    var original := Original(width, height, q);
    original.(bitrate := Trimmed(original.bitrate, q.codec))
  }

  /** The lower layer of a screen: half the size at three frames a second. */
  function LowScreen(q: Request, source: Preset): Preset
    requires (if q.screenFps > 0 then q.screenFps else source.fps) >= 3
  {
    var fps := if q.screenFps > 0 then q.screenFps else source.fps;
    Preset(source.width / 2, source.height / 2, Larger(150000, source.bitrate / (4 * (fps / 3))), 3)
  }

  /** Whether lower layers are added. */
  predicate Layered(width: int, height: int, q: Request) {
    q.simulcast && !q.svc && Larger(width, height) >= 480
  }

  /** The presets of the layers, from low to high. */
  function Presets(width: int, height: int, q: Request): seq<Preset>
    requires width > 0 && height > 0 && Accepted(q)
  {
    var camera, source := CameraPresets(width, height), Source(width, height, q);
    if !Layered(width, height, q) then [source]
    else if q.screen then LegacyFps(Larger(width, height)); [LowScreen(q, source), source]
    else (if Larger(width, height) >= 960 then [camera[1]] else []) + [camera[3]] + [source]
  }

  lemma LegacyFps(size: int)
    ensures EncodingPreset(SCREEN, size).fps == 15 && EncodingPreset(SCREEN, size).bitrate >= 500000
  {
    EncodingPresetIn(SCREEN, size);
  }

  function ScaleOf(width: int, height: int, p: Preset): (scale: real)
    requires width > 0 && height > 0 && p.width > 0 && p.height > 0
    ensures scale >= 1.0
  {
    var ratio := Smaller(width, height) as real / Smaller(p.width, p.height) as real;
    if 1.0 < ratio then ratio else 1.0
  }

  function Scaled(length: int, scale: real): int
    requires scale >= 1.0
  {
    (length as real / scale).Floor
  }

  const RIDS: seq<char> := ['q', 'h', 'f']

  function LayerOf(width: int, height: int, p: Preset, rid: char): Layer
    requires width > 0 && height > 0 && p.width >= 0 && p.height >= 0
  {
    if p.width == 0 || p.height == 0 then Layer(0, 0, p.bitrate, p.fps, rid, None)
    else
      var scale := ScaleOf(width, height, p);
      Layer(Scaled(width, scale), Scaled(height, scale), p.bitrate, p.fps, rid, Some(scale))
  }

  /** The layers that belong to presets from low to high, the highest first. */
  predicate LayersOf(layers: seq<Layer>, width: int, height: int, presets: seq<Preset>)
    requires width > 0 && height > 0
  {
    |layers| == |presets| <= 3
    && forall i :: 0 <= i < |layers| ==>
         presets[|layers| - 1 - i].width >= 0 && presets[|layers| - 1 - i].height >= 0
         && layers[i] == LayerOf(width, height, presets[|layers| - 1 - i], RIDS[|layers| - 1 - i])
  }

  /** The source encoding, as the first half of ComputeSimulcastOptions finds it; None where it throws. */
  method ComputeSource(width: int, height: int, q: Request) returns (source: Option<Preset>)
    requires width > 0 && height > 0
    ensures source == if Accepted(q) then Some(Source(width, height, q)) else None
  {
    hide EncodingPreset, ScreenBitrate, CameraPresets;
    var table := if q.screen then SCREEN else CameraPresets(width, height);
    var original := FindPreset(table, Larger(width, height));
    original := original.(width := width, height := height);
    if q.screen && q.screenFps != 0 {
      if q.screenFps != 15 && q.screenFps != 20 && q.screenFps != 30 { return None; }
      var bitrate := ComputeScreenBitrate(width, height, q.screenFps);
      original := original.(bitrate := bitrate, fps := q.screenFps);
    }
    if q.screen && q.screenFps > 0 && q.codec == "vp8" { original := original.(fps := 30); }
    if q.codec == "av1" {
      original := original.(bitrate := original.bitrate * 7 / 10);
    } else if q.codec == "vp9" {
      original := original.(bitrate := original.bitrate * 85 / 100);
    }
    source := Some(original);
  }

  /** ComputeSimulcastOptions; None where it throws. */
  method ComputeLayers(width: int, height: int, q: Request) returns (layers: Option<seq<Layer>>)
    ensures layers.None? <==> q.screen && q.screenFps !in {0, 15, 20, 30}
    ensures var w := if width <= 0 || height <= 0 then 1280 else width;
            var h := if width <= 0 || height <= 0 then 720 else height;
            layers.Some? ==> LayersOf(layers.value, w, h, Presets(w, h, q))
  {
    hide Source, LayerOf, CameraPresets;
    var w, h := width, height;
    if width <= 0 || height <= 0 { w, h := 1280, 720; }
    var source := ComputeSource(w, h, q);
    if source.None? { return None; }
    var presets := [];
    if q.simulcast && !q.svc && Larger(w, h) >= 480 {
      if q.screen {
        SourceFps(w, h, q);
        presets := presets + [LowScreen(q, source.value)];
      } else {
        var camera := CameraPresets(w, h);
        if Larger(w, h) >= 960 { presets := presets + [camera[1]]; }
        presets := presets + [camera[3]];
      }
    }
    presets := presets + [source.value];
    assert presets == Presets(w, h, q);
    var reversed := LayersFor(w, h, q, presets);
    layers := Some(reversed);
  }

  /** The loop that makes a layer of each preset and names it, and the reversal. */
  method LayersFor(width: int, height: int, ghost q: Request, presets: seq<Preset>) returns (layers: seq<Layer>)
    requires width > 0 && height > 0 && Accepted(q) && presets == Presets(width, height, q)
    ensures LayersOf(layers, width, height, presets)
  {
    hide Source, LayerOf, CameraPresets, Presets;
    PresetSizes(width, height, q);
    layers := [];
    for i := 0 to |presets|
      invariant |layers| == i
      invariant forall j :: 0 <= j < i ==> layers[i - 1 - j] == LayerOf(width, height, presets[j], RIDS[j])
    {
      layers := [LayerOf(width, height, presets[i], RIDS[i])] + layers;
    }
    assert forall i :: 0 <= i < |layers| ==> layers[|presets| - 1 - (|presets| - 1 - i)] == layers[i];
  }

  lemma {:induction false} EncodingPresetIn(presets: seq<Preset>, size: int)
    requires presets != []
    ensures EncodingPreset(presets, size) in presets
  {
    if |presets| > 1 && presets[0].width <= size { EncodingPresetIn(presets[1..], size); }
  }

  lemma SourceFps(width: int, height: int, q: Request)
    requires width > 0 && height > 0 && Accepted(q) && q.screen
    ensures (if q.screenFps > 0 then q.screenFps else Source(width, height, q).fps) >= 15
    ensures Source(width, height, q).fps >= 15
  {
    hide ScreenBitrate;
    LegacyFps(Larger(width, height));
  }

  lemma SourceSize(width: int, height: int, q: Request)
    requires width > 0 && height > 0
    ensures Source(width, height, q).width == width && Source(width, height, q).height == height
  {
    hide EncodingPreset, CameraPresets, ScreenBitrate;
  }

  lemma PresetSizes(width: int, height: int, q: Request)
    requires width > 0 && height > 0 && Accepted(q)
    ensures var ps := Presets(width, height, q);
            |ps| <= 3 && forall i :: 0 <= i < |ps| ==> ps[i].width >= 0 && ps[i].height >= 0
  {
    hide EncodingPreset, Source, ScreenBitrate;
    SourceSize(width, height, q);
  }

  lemma FloorMonotone(length: int, s: real, t: real)
    requires length >= 0 && 1.0 <= s <= t
    ensures 0 <= Scaled(length, t) <= Scaled(length, s)
  {
    assert length as real / t <= length as real / s by { QuotientMonotone(length as real, s, t); }
  }

  lemma QuotientMonotone(x: real, s: real, t: real)
    requires x >= 0.0 && 0.0 < s <= t
    ensures 0.0 <= x / t <= x / s
  {
    var q := x / t;
    assert q * t == x;
    assert q >= 0.0;
    assert q * s <= q * t;
  }

  lemma RatioMonotone(m: int, a: int, b: int)
    requires m > 0 && 0 < b <= a
    ensures m as real / a as real <= m as real / b as real
  {
    QuotientMonotone(m as real, b as real, a as real);
  }

  /** No side is larger, and there are no more frames. */
  predicate FitsInside(low: Layer, high: Layer) {
    low.width <= high.width && low.height <= high.height && low.fps <= high.fps
  }

  predicate NoMore(low: Layer, high: Layer) {
    FitsInside(low, high) && low.bitrate <= high.bitrate
  }

  /** A list of layers where no layer has more than the one before it. */
  predicate Descending(layers: seq<Layer>) {
    forall i :: 0 < i < |layers| ==> NoMore(layers[i], layers[i - 1])
  }

  /** A smaller preset is scaled down at least as far. */
  lemma LowerLayer(width: int, height: int, low: Preset, high: Preset, r: char, q: char)
    requires width > 0 && height > 0 && low.width > 0 && low.height > 0 && high.width > 0 && high.height > 0
    requires Smaller(low.width, low.height) <= Smaller(high.width, high.height)
    requires low.bitrate <= high.bitrate && low.fps <= high.fps
    ensures NoMore(LayerOf(width, height, low, r), LayerOf(width, height, high, q))
  {
    hide Scaled;
    RatioMonotone(Smaller(width, height), Smaller(high.width, high.height), Smaller(low.width, low.height));
    FloorMonotone(width, ScaleOf(width, height, high), ScaleOf(width, height, low));
    FloorMonotone(height, ScaleOf(width, height, high), ScaleOf(width, height, low));
  }

  /** A layer shows something exactly if its preset does: no side is scaled below the preset's shorter side. */
  lemma LayerNotEmpty(width: int, height: int, p: Preset, rid: char)
    requires width > 0 && height > 0 && p.width >= 0 && p.height >= 0
    ensures var l := LayerOf(width, height, p, rid);
            if p.width == 0 || p.height == 0 then l.width == 0 && l.height == 0 else l.width >= 1 && l.height >= 1
  {
    hide Scaled;
    if p.width > 0 && p.height > 0 {
      SideNotEmpty(width, Smaller(width, height), Smaller(p.width, p.height));
      SideNotEmpty(height, Smaller(width, height), Smaller(p.width, p.height));
    }
  }

  lemma SideNotEmpty(side: int, shorter: int, preset: int)
    requires side >= shorter > 0 && preset > 0
    ensures var ratio := shorter as real / preset as real;
            Scaled(side, if 1.0 < ratio then ratio else 1.0) >= 1
  {
    var ratio := shorter as real / preset as real;
    var scale := if 1.0 < ratio then ratio else 1.0;
    assert ratio <= shorter as real by { QuotientMonotone(shorter as real, 1.0, preset as real); }
    assert scale <= shorter as real;
    QuotientMonotone(side as real, scale, shorter as real);
    assert side as real / shorter as real >= 1.0 by { Quotient(side as real, shorter as real); }
  }

  lemma Quotient(x: real, y: real)
    requires x >= y > 0.0
    ensures x / y >= 1.0
  {
    QuotientMonotone(x, y, x);
  }

  lemma {:induction false} AtLeast(presets: seq<Preset>, i: nat, size: int, bitrate: int, fps: int)
    requires i < |presets|
    requires forall k :: i <= k < |presets| ==> presets[k].bitrate >= bitrate && presets[k].fps >= fps
    ensures EncodingPreset(presets[i..], size).bitrate >= bitrate && EncodingPreset(presets[i..], size).fps >= fps
    decreases |presets| - i
  {
    if i + 1 < |presets| {
      assert presets[i..][1..] == presets[i + 1..];
      AtLeast(presets, i + 1, size, bitrate, fps);
    }
  }

  /** The presets that are too narrow are passed over. */
  lemma {:induction false} Skips(presets: seq<Preset>, i: nat, size: int)
    requires i < |presets| && forall k :: 0 <= k < i ==> presets[k].width <= size
    ensures EncodingPreset(presets, size) == EncodingPreset(presets[i..], size)
  {
    if i == 0 {
      assert presets[0..] == presets;
    } else {
      assert presets[1..][i - 1..] == presets[i..];
      Skips(presets[1..], i - 1, size);
    }
  }

  /** The preset of a layered 16:9 picture. */
  lemma WidePreset(size: int)
    requires size >= 480
    ensures var p := EncodingPreset(CAMERA_16_9, size);
            p.fps >= 20 && if size < 640 then p.bitrate == 450000 else p.bitrate >= 800000
  {
    Skips(CAMERA_16_9, 3, size);
    if size >= 640 {
      Skips(CAMERA_16_9, 4, size);
      AtLeast(CAMERA_16_9, 4, size, 800000, 25);
    }
  }

  /** The preset of a layered 4:3 picture. */
  lemma NarrowPreset(size: int)
    requires size >= 480
    ensures var p := EncodingPreset(CAMERA_4_3, size);
            p.fps >= 20 && if size < 640 then p.bitrate == 300000 else p.bitrate >= 450000
  {
    Skips(CAMERA_4_3, 4, size);
    if size >= 640 {
      Skips(CAMERA_4_3, 5, size);
      AtLeast(CAMERA_4_3, 5, size, 450000, 25);
    }
  }

  /** From how many pixels on a layered screen gets at least the bitrate of its lower layer. */
  function LeastPixels(codec: string, fps: int): int {
    if codec == "av1" && fps == 15 then 42319
    else if codec == "av1" && fps == 20 then 7054
    else if codec == "vp9" && fps == 15 then 17426
    else 0
  }

  lemma TrimmedMonotone(a: int, b: int, codec: string)
    requires a <= b
    ensures Trimmed(a, codec) <= Trimmed(b, codec)
  {
    DivMonotone(a * 7, b * 7, 10);
    DivMonotone(a * 85, b * 85, 100);
  }

  /** These numbers of pixels are the first that reach 150000, and one pixel less does not. */
  lemma Thresholds(codec: string, fps: int)
    requires ScreenFps(fps)
    ensures var least := LeastPixels(codec, fps);
            Trimmed(ScreenBitrate(least, fps), codec) >= 150000
            && (least > 0 ==> Trimmed(ScreenBitrate(least - 1, fps), codec) < 150000)
  {
    hide RateFrom;
    RatesAtThresholds();
  }

  lemma RatesAtThresholds()
    ensures RateFrom(1, 0) == 150000
    ensures RateFrom(1, 42319) == 214286 && RateFrom(1, 42318) == 214285
    ensures RateFrom(1, 7054) == 160715 && RateFrom(1, 7053) == 160714
    ensures RateFrom(1, 17426) == 176471 && RateFrom(1, 17425) == 176470
  {
  }

  lemma ScreenThreshold(pixels: int, fps: int, codec: string)
    requires pixels >= 0 && ScreenFps(fps)
    ensures Trimmed(ScreenBitrate(pixels, fps), codec) >= 150000 <==> pixels >= LeastPixels(codec, fps)
  {
    hide ScreenBitrate, Trimmed;
    var least := LeastPixels(codec, fps);
    Thresholds(codec, fps);
    if pixels >= least {
      ScreenBitrateMonotone(least, pixels, fps, fps);
      TrimmedMonotone(ScreenBitrate(least, fps), ScreenBitrate(pixels, fps), codec);
    } else {
      ScreenBitrateMonotone(pixels, least - 1, fps, fps);
      TrimmedMonotone(ScreenBitrate(pixels, fps), ScreenBitrate(least - 1, fps), codec);
    }
  }

  /**
   Whether the picture itself gets at least the bitrate of the layer below it. AV1 and VP9 lower the bitrate of the
   picture alone, so they miss it for the smallest layered cameras, and for screens of few pixels.
   */
  predicate TopHolds(width: int, height: int, q: Request)
    requires width > 0 && height > 0
  {
    if !Layered(width, height, q) then true
    else if q.screen then q.screenFps == 0 || width * height >= LeastPixels(q.codec, q.screenFps)
    else Larger(width, height) >= 640 || (q.codec != "av1" && (q.codec == "vp9" ==> !IsWide(width, height)))
  }

  lemma CameraTop(width: int, height: int, q: Request)
    requires width > 0 && height > 0 && !q.screen && Layered(width, height, q)
    ensures var camera, source := CameraPresets(width, height), Source(width, height, q);
            camera[3].fps <= source.fps && (camera[3].bitrate <= source.bitrate <==> TopHolds(width, height, q))
  {
    hide EncodingPreset;
    WidePreset(Larger(width, height));
    NarrowPreset(Larger(width, height));
  }

  lemma ScreenTop(width: int, height: int, q: Request)
    requires width > 0 && height > 0 && q.screen && Accepted(q) && Layered(width, height, q)
    ensures var source := Source(width, height, q);
            (if q.screenFps > 0 then q.screenFps else source.fps) >= 15 && source.fps >= 15
            && (LowScreen(q, source).bitrate <= source.bitrate <==> TopHolds(width, height, q))
  {
    hide EncodingPreset, ScreenBitrate;
    SourceFps(width, height, q);
    LegacyFps(Larger(width, height));
    var source := Source(width, height, q);
    var fps := if q.screenFps > 0 then q.screenFps else source.fps;
    if q.screenFps != 0 { ScreenThreshold(width * height, q.screenFps, q.codec); }
    if source.bitrate >= 150000 {
      DivisorMonotone(source.bitrate, 1, 4 * (fps / 3));
    }
  }

  /** The layer of the picture itself is not scaled. */
  lemma SourceLayer(width: int, height: int, p: Preset, rid: char)
    requires width > 0 && height > 0 && p.width == width && p.height == height
    ensures LayerOf(width, height, p, rid) == Layer(width, height, p.bitrate, p.fps, rid, Some(1.0))
  {
    var m := Smaller(width, height) as real;
    assert m / m == 1.0;
    assert width as real / 1.0 == width as real && height as real / 1.0 == height as real;
  }

  lemma BelowSource(width: int, height: int, low: Preset, high: Preset, r: char, q: char)
    requires width > 0 && height > 0 && low.width >= 0 && low.height >= 0 && high.width == width
    requires high.height == height
    requires low.fps <= high.fps
    ensures FitsInside(LayerOf(width, height, low, r), LayerOf(width, height, high, q))
  {
    hide Scaled;
    SourceLayer(width, height, high, q);
    if low.width > 0 && low.height > 0 {
      FloorMonotone(width, 1.0, ScaleOf(width, height, low));
      FloorMonotone(height, 1.0, ScaleOf(width, height, low));
      FloorOne(width);
      FloorOne(height);
    }
  }

  lemma FloorOne(length: int)
    ensures Scaled(length, 1.0) == length
  {
    assert length as real / 1.0 == length as real;
  }

  /** Half of a side is nothing exactly for a side of one pixel. */
  predicate HasEmptyLayer(width: int, height: int, q: Request) {
    Layered(width, height, q) && q.screen && Smaller(width, height) < 2
  }

  /**
   The first layer is the picture itself, unscaled. From one to the next no side and no frame rate grows; no bitrate
   grows exactly if the picture's own bitrate holds up. Every layer shows something exactly if half a screen does.
   */
  lemma LayersDescend(width: int, height: int, q: Request, layers: seq<Layer>)
    requires width > 0 && height > 0 && Accepted(q) && LayersOf(layers, width, height, Presets(width, height, q))
    ensures layers != [] && layers[0].width == width && layers[0].height == height && layers[0].scale == Some(1.0)
    ensures forall i :: 0 < i < |layers| ==> FitsInside(layers[i], layers[i - 1])
    ensures Descending(layers) <==> TopHolds(width, height, q)
    ensures (forall i :: 0 <= i < |layers| ==> layers[i].width >= 1 && layers[i].height >= 1)
            <==> !HasEmptyLayer(width, height, q)
  {
    hide Source, LayerOf, CameraPresets, ScaleOf, Scaled, TopHolds, EncodingPreset;
    var ps, n := Presets(width, height, q), |layers|;
    var camera, source := CameraPresets(width, height), Source(width, height, q);
    SourceSize(width, height, q);
    SourceLayer(width, height, source, RIDS[n - 1]);
    assert layers[0] == LayerOf(width, height, ps[n - 1], RIDS[n - 1]) && ps[n - 1] == source;
    forall i | 0 <= i < n
      ensures layers[i].width >= 1 && layers[i].height >= 1 <==> ps[n - 1 - i].width > 0 && ps[n - 1 - i].height > 0
    {
      LayerNotEmpty(width, height, ps[n - 1 - i], RIDS[n - 1 - i]);
    }
    if n == 1 {
      assert TopHolds(width, height, q) by { OneLayerHolds(width, height, q); }
    } else {
      SecondLayer(width, height, q, ps[n - 2], RIDS[n - 2], RIDS[n - 1]);
      assert layers[1] == LayerOf(width, height, ps[n - 2], RIDS[n - 2]);
      if n == 3 {
        assert layers[2] == LayerOf(width, height, ps[0], RIDS[0]);
        LowerLayer(width, height, camera[1], camera[3], RIDS[0], RIDS[1]);
      }
    }
  }

  /** A camera of 500 by 281 and a screen of 480 by 2, both in AV1, get less than the layer below them. */
  lemma TopTooLow()
    ensures !TopHolds(500, 281, Request(false, 0, "av1", true, false))
    ensures !TopHolds(480, 2, Request(true, 15, "av1", true, false))
  {
  }

  lemma OneLayerHolds(width: int, height: int, q: Request)
    requires width > 0 && height > 0 && !Layered(width, height, q)
    ensures TopHolds(width, height, q)
  {
  }

  lemma SecondLayer(width: int, height: int, q: Request, p: Preset, low: char, high: char)
    requires width > 0 && height > 0 && Accepted(q) && Layered(width, height, q)
    requires var ps := Presets(width, height, q); |ps| >= 2 && p == ps[|ps| - 2] && p.width >= 0 && p.height >= 0
    ensures var source := Source(width, height, q);
            source.width == width && source.height == height
            && FitsInside(LayerOf(width, height, p, low), LayerOf(width, height, source, high))
            && (NoMore(LayerOf(width, height, p, low), LayerOf(width, height, source, high))
                <==> TopHolds(width, height, q))
  {
    hide Source, CameraPresets, ScaleOf, Scaled, TopHolds, EncodingPreset;
    SourceSize(width, height, q);
    if q.screen { ScreenTop(width, height, q); } else { CameraTop(width, height, q); }
    BelowSource(width, height, p, Source(width, height, q), low, high);
  }

  // ----- The layers of an SVC stream -----

  function Power(n: nat): nat {
    if n == 0 then 1 else 2 * Power(n - 1)
  }

  lemma PowerPositive(n: nat)
    ensures Power(n) >= 1
  {
  }

  function AtLeastOne(n: int): int { if n > 1 then n else 1 }

  /** The index-th of n spatial layers, the smallest first. */
  function SpatialLayer(source: Layer, n: nat, index: nat): Layer
    requires index < n
  {
    PowerPositive(n - 1 - index);
    var scale := Power(n - 1 - index);
    Layer(AtLeastOne(source.width / scale), AtLeastOne(source.height / scale), source.bitrate / n, source.fps, ' ',
          Some(scale as real))
  }

  /** ComputeSignalLayers: an SVC stream of one encoding is announced as its spatial layers. */
  method ComputeSignalLayers(layers: seq<Layer>, spatialLayers: nat) returns (announced: seq<Layer>)
    ensures spatialLayers <= 1 || |layers| != 1 ==> announced == layers
    ensures spatialLayers > 1 && |layers| == 1 ==>
              |announced| == spatialLayers
              && forall i :: 0 <= i < spatialLayers ==> announced[i] == SpatialLayer(layers[0], spatialLayers, i)
  {
    if spatialLayers <= 1 || |layers| != 1 { return layers; }
    announced := [];
    for index := 0 to spatialLayers
      invariant |announced| == index
      invariant forall i :: 0 <= i < index ==> announced[i] == SpatialLayer(layers[0], spatialLayers, i)
    {
      announced := announced + [SpatialLayer(layers[0], spatialLayers, index)];
    }
  }

  lemma DivisorMonotone(x: int, d: int, e: int)
    requires x >= 0 && 0 < d <= e
    ensures x / e <= x / d
  {
    DivMonotone(0, x, e);
    assert 0 / e == 0;
    SmallerQuotient(d, e, x / d, x / e, x % d, x % e);
  }

  lemma SmallerQuotient(d: int, e: int, a: int, b: int, r: int, s: int)
    requires 0 < d <= e && b >= 0 && r < d && s >= 0 && d * a + r == e * b + s
    ensures b <= a
  {
    ProductMonotone(b, d, e);
    if b > a { ProductMonotone(d, a + 1, b); }
  }

  lemma ProductMonotone(q: int, d: int, e: int)
    requires q >= 0 && d <= e
    ensures q * d <= q * e
  {
  }

  lemma HalvedMonotone(length: int, n: nat)
    requires length >= 1
    ensures Power(n + 1) >= Power(n) >= 1 && length / Power(n + 1) <= length / Power(n)
  {
    PowerPositive(n);
    DivisorMonotone(length, Power(n), Power(n + 1));
  }

  /** They grow up to the source's own size, and together never take more than its bitrate. */
  lemma SpatialLayersGrow(source: Layer, n: nat, index: nat)
    requires index < n && source.width >= 1 && source.height >= 1 && source.bitrate >= 0
    ensures index + 1 < n ==> SpatialLayer(source, n, index).width <= SpatialLayer(source, n, index + 1).width
                              && SpatialLayer(source, n, index).height <= SpatialLayer(source, n, index + 1).height
    ensures index + 1 == n ==> SpatialLayer(source, n, index).width == source.width
                               && SpatialLayer(source, n, index).height == source.height
    ensures 0 <= SpatialLayer(source, n, index).bitrate * n <= source.bitrate
  {
    hide Power;
    ShareBounds(source.bitrate, n);
    if index + 1 < n {
      HalvedMonotone(source.width, n - 2 - index);
      HalvedMonotone(source.height, n - 2 - index);
    } else {
      assert Power(0) == 1 by { NoScale(); }
      assert source.width / 1 == source.width && source.height / 1 == source.height;
    }
  }

  lemma NoScale()
    ensures Power(0) == 1
  {
  }

  lemma ShareBounds(bitrate: int, n: nat)
    requires bitrate >= 0 && n > 0
    ensures 0 <= bitrate / n * n <= bitrate
  {
    assert bitrate == n * (bitrate / n) + bitrate % n;
    DivMonotone(0, bitrate, n);
    assert 0 / n == 0;
  }

  // ----- The codec -----

  const FALLBACK_ORDER: seq<string> := ["vp8", "h264", "vp9", "av1"]

  /** In the intersection of what this side sends and what the server takes; no server list takes everything. */
  predicate MayPublish(codec: string, local: set<string>, server: set<string>, listed: bool) {
    codec in local && (!listed || codec in server)
  }

  /** The first candidate that both sides have. */
  predicate IsFirst(candidates: seq<string>, codec: string, local: set<string>, server: set<string>, listed: bool) {
    exists i :: && 0 <= i < |candidates| && candidates[i] == codec && MayPublish(codec, local, server, listed)
                && (forall j :: 0 <= j < i ==> !MayPublish(candidates[j], local, server, listed))
  }

  /** std::find_if over a list of candidates. */
  method FirstAllowed(candidates: seq<string>, local: set<string>, server: set<string>, listed: bool)
    returns (codec: Option<string>)
    ensures codec.None? <==> forall i :: 0 <= i < |candidates| ==> !MayPublish(candidates[i], local, server, listed)
    ensures codec.Some? ==> IsFirst(candidates, codec.value, local, server, listed)
  {
    for i := 0 to |candidates|
      invariant forall j :: 0 <= j < i ==> !MayPublish(candidates[j], local, server, listed)
    {
      if MayPublish(candidates[i], local, server, listed) { return Some(candidates[i]); }
    }
    return None;
  }

  /**
   The codec of ResolvePublishPlan: the one asked for if both sides have it, else the first of the fallback
   order that both have; none exactly if there is none.
   */
  method ResolveCodec(requested: string, local: set<string>, server: set<string>, listed: bool)
    returns (codec: Option<string>)
    ensures codec.Some? ==> MayPublish(codec.value, local, server, listed)
    ensures requested != "auto" && MayPublish(requested, local, server, listed) ==> codec == Some(requested)
    ensures codec.None? <==>
              !(requested != "auto" && MayPublish(requested, local, server, listed))
              && forall i :: 0 <= i < |FALLBACK_ORDER| ==> !MayPublish(FALLBACK_ORDER[i], local, server, listed)
    ensures codec.Some? && codec != Some(requested) ==> IsFirst(FALLBACK_ORDER, codec.value, local, server, listed)
  {
    if requested != "auto" && MayPublish(requested, local, server, listed) { return Some(requested); }
    codec := FirstAllowed(FALLBACK_ORDER, local, server, listed);
  }
}
