/** The layers of a published video in figures (src/core/local_video_track.cpp). */
module SimulcastTable {
  import opened Options
  import opened Simulcast

  /** The preset of a size: the first one that is wider, or the last. */
  lemma {:induction false} PresetMeaning(presets: seq<Preset>, size: int) returns (i: nat)
    requires presets != []
    ensures i < |presets| && EncodingPreset(presets, size) == presets[i]
    ensures (forall j :: 0 <= j < i ==> presets[j].width <= size)
            && (presets[i].width > size || i == |presets| - 1)
  {
    i := 0;
    if presets[0].width <= size && |presets| > 1 {
      var later := PresetMeaning(presets[1..], size);
      i := later + 1;
      assert forall j :: 1 <= j < i ==> presets[j] == presets[1..][j - 1];
    }
  }

  /** A picture is closer to 16:9 than to 4:3 if and only if its sides are in a ratio of more than 14 to 9. */
  lemma WideMeaning(width: int, height: int)
    requires width > 0 && height > 0
    ensures IsWide(width, height) <==> 9 * Larger(width, height) > 14 * Smaller(width, height)
  {
    var long, short := Larger(width, height), Smaller(width, height);
    var aspect := long as real / short as real;
    assert aspect * short as real == long as real;
    assert aspect > 14.0 / 9.0 <==> 9.0 * long as real > 14.0 * short as real by {
      RatioAbove(aspect, long as real, short as real);
    }
  }

  lemma RatioAbove(aspect: real, long: real, short: real)
    requires short > 0.0 && aspect * short == long
    ensures aspect > 14.0 / 9.0 <==> 9.0 * long > 14.0 * short
  {
    if aspect > 14.0 / 9.0 {
      assert (aspect - 14.0 / 9.0) * short > 0.0;
    } else {
      assert (14.0 / 9.0 - aspect) * short >= 0.0;
    }
  }

  /** The names of the layers, the highest first. */
  function Names(n: nat): seq<char> {
    if n == 1 then ['q'] else if n == 2 then ['h', 'q'] else ['f', 'h', 'q']
  }

  /** How many layers a video has. */
  function Count(width: int, height: int, q: Request): nat {
    if !q.simulcast || q.svc || (width < 480 && height < 480) then 1
    else if q.screen || (width < 960 && height < 960) then 2
    else 3
  }

  /** By how much the bitrate of a screen is divided for its lower layer, by its frame rate. */
  function Share(fps: int): int {
    if fps == 20 then 24 else if fps == 30 then 40 else 20
  }

  /** A layer has the figures of its preset, and the name of its place. */
  lemma LayerFigures(width: int, height: int, presets: seq<Preset>, layers: seq<Layer>, i: nat)
    requires width > 0 && height > 0 && LayersOf(layers, width, height, presets) && i < |layers|
    ensures var p := presets[|layers| - 1 - i];
            layers[i].bitrate == p.bitrate && layers[i].fps == p.fps && layers[i].rid == RIDS[|layers| - 1 - i]
  {
    hide ScaleOf, Scaled;
    var layer := layers[i];
  }

  /** Number and names of the layers. */
  lemma LayersAreNamed(width: int, height: int, q: Request, layers: seq<Layer>)
    requires width > 0 && height > 0 && Accepted(q) && LayersOf(layers, width, height, Presets(width, height, q))
    ensures |layers| == Count(width, height, q)
    ensures forall i :: 0 <= i < |layers| ==> layers[i].rid == Names(|layers|)[i]
  {
    hide Source, ScaleOf, Scaled, CameraPresets, LowScreen;
    var ps, n := Presets(width, height, q), |layers|;
    assert RIDS == ['q', 'h', 'f'];
    forall i | 0 <= i < n ensures layers[i].rid == RIDS[n - 1 - i] {
      LayerFigures(width, height, ps, layers, i);
    }
  }

  /**
   The lower layer of a screen has three frames a second and a fixed share of the picture's bitrate, at least 150000;
   the lower layers of a camera have the figures of their presets, whatever the picture has.
   */
  lemma LowerLayers(width: int, height: int, q: Request, layers: seq<Layer>)
    requires width > 0 && height > 0 && Accepted(q) && LayersOf(layers, width, height, Presets(width, height, q))
    requires |layers| >= 2
    ensures q.screen ==>
              && layers[1].fps == 3
              && layers[1].bitrate == Larger(150000, layers[0].bitrate / Share(q.screenFps))
    ensures !q.screen ==>
              && layers[1].fps == 20
              && (layers[1].bitrate == if IsWide(width, height) then 450000 else 225000)
              && (|layers| == 3 ==>
                    layers[2].fps == 15 && layers[2].bitrate == if IsWide(width, height) then 160000 else 100000)
  {
    hide Source, ScaleOf, Scaled, IsWide;
    var ps, n, source := Presets(width, height, q), |layers|, Source(width, height, q);
    forall i | 0 <= i < n
      ensures layers[i].bitrate == ps[n - 1 - i].bitrate && layers[i].fps == ps[n - 1 - i].fps
    {
      LayerFigures(width, height, ps, layers, i);
    }
    if q.screen { LegacyScreen(width, height, q); }
  }

  /** A screen that asks for no frame rate gets 15 frames. */
  lemma LegacyScreen(width: int, height: int, q: Request)
    requires width > 0 && height > 0 && q.screen && Accepted(q)
    ensures q.screenFps == 0 ==> Source(width, height, q).fps == 15
  {
    hide EncodingPreset, ScreenBitrate;
    LegacyFps(Larger(width, height));
  }

  /**
   The picture itself: a screen that asks for a frame rate gets the interpolated bitrate and that rate, or 30 frames in
   VP8; any other video gets the figures of its preset. AV1 and VP9 then get by with 70 and 85 percent.
   */
  lemma TopLayer(width: int, height: int, q: Request, layers: seq<Layer>) returns (p: Preset)
    requires width > 0 && height > 0 && Accepted(q) && LayersOf(layers, width, height, Presets(width, height, q))
    ensures layers != []
    ensures p == EncodingPreset(if q.screen then SCREEN else if IsWide(width, height) then CAMERA_16_9 else CAMERA_4_3,
                                Larger(width, height))
    ensures var asked := q.screen && q.screenFps != 0;
            var full := if asked then ScreenBitrate(width * height, q.screenFps) else p.bitrate;
            && (layers[0].fps == if !asked then p.fps else if q.codec == "vp8" then 30 else q.screenFps)
            && (layers[0].bitrate == if q.codec == "av1" then full * 70 / 100
                                     else if q.codec == "vp9" then full * 85 / 100 else full)
  {
    hide ScaleOf, Scaled, IsWide, EncodingPreset, ScreenBitrate, LowScreen;
    p := EncodingPreset(if q.screen then SCREEN else if IsWide(width, height) then CAMERA_16_9 else CAMERA_4_3,
                        Larger(width, height));
    var ps, n := Presets(width, height, q), |layers|;
    LayerFigures(width, height, ps, layers, 0);
    assert ps[n - 1] == Source(width, height, q);
    var full := Original(width, height, q).bitrate;
    assert full * 70 / 100 == full * 7 / 10 by { SameShare(full); }
  }

  lemma SameShare(x: int)
    ensures x * 70 / 100 == x * 7 / 10
  {
    var a, b := x * 70 / 100, x * 7 / 10;
    assert x * 70 == 100 * a + x * 70 % 100 && x * 7 == 10 * b + x * 7 % 10;
  }

  /**
   The spatial layers of an SVC stream: each has half the sides of the next, rounded down but never nothing, and an
   equal share of the bitrate, rounded down; the last is the source's own size.
   */
  lemma SpatialMeaning(source: Layer, n: nat, index: nat)
    requires index < n && source.width >= 1 && source.height >= 1 && source.bitrate >= 0
    ensures var l := SpatialLayer(source, n, index);
            && l.fps == source.fps && l.bitrate * n <= source.bitrate < (l.bitrate + 1) * n
            && if index == n - 1 then l.width == source.width && l.height == source.height && l.scale == Some(1.0)
               else
                 var next := SpatialLayer(source, n, index + 1);
                 && l.width == Larger(1, next.width / 2) && l.height == Larger(1, next.height / 2)
                 && l.scale == Some(2.0 * next.scale.value)
  {
    hide Power;
    var l := SpatialLayer(source, n, index);
    assert source.bitrate == n * l.bitrate + source.bitrate % n;
    if index == n - 1 {
      assert Power(0) == 1 by { NoScale(); }
      assert source.width / 1 == source.width && source.height / 1 == source.height;
      WholeSide(source.width);
      WholeSide(source.height);
    } else {
      var k := n - 2 - index;
      DoubledPower(k);
      PowerPositive(k);
      HalvedSide(source.width, Power(k));
      HalvedSide(source.height, Power(k));
    }
  }

  lemma DoubledPower(k: nat)
    ensures Power(k + 1) == 2 * Power(k)
  {
  }

  lemma WholeSide(n: int)
    requires n >= 1
    ensures AtLeastOne(n) == n
  {
  }

  lemma HalvedSide(length: int, d: nat)
    requires length >= 1 && d >= 1
    ensures AtLeastOne(length / (2 * d)) == AtLeastOne(AtLeastOne(length / d) / 2)
  {
    var a, b := length / d, length / (2 * d);
    assert length == d * a + length % d;
    assert length == 2 * d * b + length % (2 * d);
    HalfOfQuotient(length, d);
  }

  lemma HalfOfQuotient(x: int, d: nat)
    requires x >= 0 && d >= 1
    ensures x / d / 2 == x / (2 * d)
  {
    var a := x / d;
    var h := a / 2;
    assert x == d * a + x % d;
    assert a == 2 * h + a % 2;
    var rest := d * (a % 2) + x % d;
    assert x == 2 * d * h + rest by {
      assert d * (2 * h + a % 2) == 2 * d * h + d * (a % 2);
    }
    assert 0 <= rest < 2 * d by {
      if a % 2 == 0 { assert d * (a % 2) == 0; } else { assert d * (a % 2) == d; }
    }
    QuotientIs(x, 2 * d, h, rest);
  }

  lemma QuotientIs(x: int, d: int, h: int, rest: int)
    requires d > 0 && x == d * h + rest && 0 <= rest < d
    ensures x / d == h
  {
    var e := x / d;
    assert x == d * e + x % d;
    assert e < h ==> d * e <= d * (h - 1);
    assert e > h ==> d * e >= d * (h + 1);
  }
}
