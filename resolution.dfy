/** Camera resolution presets, their aspect-ratio groups and latency groups. */
module Resolutions {

  datatype ResolutionPreset =
    | RES_320x240 | RES_640x480 | RES_800x600 | RES_1024x768
    | RES_1280x960 | RES_1600x1200 | RES_2048x1536
    | RES_320x180 | RES_640x360 | RES_854x480 | RES_1280x720
    | RES_1920x1080 | RES_2560x1440 | RES_3840x2160
    | RES_240x240 | RES_480x480 | RES_640x640 | RES_720x720 | RES_1080x1080

  datatype Size = Size(width: int, height: int)

  function SizeOf(p: ResolutionPreset): (s: Size)
    ensures 0 < s.height <= s.width <= 3840
  {
    match p
    case RES_320x240 => Size(320, 240)
    case RES_640x480 => Size(640, 480)
    case RES_800x600 => Size(800, 600)
    case RES_1024x768 => Size(1024, 768)
    case RES_1280x960 => Size(1280, 960)
    case RES_1600x1200 => Size(1600, 1200)
    case RES_2048x1536 => Size(2048, 1536)
    case RES_320x180 => Size(320, 180)
    case RES_640x360 => Size(640, 360)
    case RES_854x480 => Size(854, 480)
    case RES_1280x720 => Size(1280, 720)
    case RES_1920x1080 => Size(1920, 1080)
    case RES_2560x1440 => Size(2560, 1440)
    case RES_3840x2160 => Size(3840, 2160)
    case RES_240x240 => Size(240, 240)
    case RES_480x480 => Size(480, 480)
    case RES_640x640 => Size(640, 640)
    case RES_720x720 => Size(720, 720)
    case RES_1080x1080 => Size(1080, 1080)
  }

  function Width(p: ResolutionPreset): int { SizeOf(p).width }
  function Height(p: ResolutionPreset): int { SizeOf(p).height }

  /** All presets in declaration order (Kotlin's `entries`). */
  const AllPresets: seq<ResolutionPreset> := [
    RES_320x240, RES_640x480, RES_800x600, RES_1024x768,
    RES_1280x960, RES_1600x1200, RES_2048x1536,
    RES_320x180, RES_640x360, RES_854x480, RES_1280x720,
    RES_1920x1080, RES_2560x1440, RES_3840x2160,
    RES_240x240, RES_480x480, RES_640x640, RES_720x720, RES_1080x1080
  ]

  const DEFAULT: ResolutionPreset := RES_320x180

  datatype AspectRatio = RATIO_4_3 | RATIO_16_9 | RATIO_1_1

  /** The nominal ratio of each aspect ratio, exactly (the source stores it as a float). */
  function RatioValue(r: AspectRatio): (v: real)
    ensures 1.0 <= v <= 16.0 / 9.0
  {
    match r
    case RATIO_4_3 => 4.0 / 3.0
    case RATIO_16_9 => 16.0 / 9.0
    case RATIO_1_1 => 1.0
  }

  function GetByAspectRatio(r: AspectRatio): (ps: seq<ResolutionPreset>)
    ensures forall p :: p in ps ==> p in AllPresets
  {
    match r
    case RATIO_4_3 => [RES_320x240, RES_640x480, RES_800x600, RES_1024x768,
                       RES_1280x960, RES_1600x1200, RES_2048x1536]
    case RATIO_16_9 => [RES_320x180, RES_640x360, RES_854x480, RES_1280x720,
                        RES_1920x1080, RES_2560x1440, RES_3840x2160]
    case RATIO_1_1 => [RES_240x240, RES_480x480, RES_640x640, RES_720x720, RES_1080x1080]
  }

  const LowLatencyPresets: seq<ResolutionPreset> :=
    [RES_320x240, RES_320x180, RES_240x240, RES_640x480, RES_640x360, RES_480x480]

  const BalancedPresets: seq<ResolutionPreset> :=
    [RES_800x600, RES_854x480, RES_640x640, RES_1024x768, RES_1280x720, RES_720x720]

  const HighQualityPresets: seq<ResolutionPreset> :=
    [RES_1280x960, RES_1600x1200, RES_2048x1536,
     RES_1920x1080, RES_2560x1440, RES_3840x2160, RES_1080x1080]

  function Abs(x: real): real { if x < 0.0 then -x else x }

  /**
   * `AspectRatio.fromSize`: the aspect ratio whose nominal value is closest to
   * width/height, the first in declaration order on a tie. A zero height makes
   * the float ratio infinite or NaN, every distance compares equal, and the
   * first entry (4:3) is returned.
   */
  function FromSize(s: Size): (r: AspectRatio)
    ensures s.height != 0 ==>
      forall q :: Abs(RatioValue(r) - s.width as real / s.height as real)
                  <= Abs(RatioValue(q) - s.width as real / s.height as real)
    ensures s.height != 0 && r != RATIO_4_3 ==>
      Abs(RatioValue(RATIO_4_3) - s.width as real / s.height as real)
      > Abs(RatioValue(r) - s.width as real / s.height as real)
    ensures s.height != 0 && r == RATIO_1_1 ==>
      Abs(RatioValue(RATIO_16_9) - s.width as real / s.height as real)
      > Abs(RatioValue(RATIO_1_1) - s.width as real / s.height as real)
    ensures s.height == 0 ==> r == RATIO_4_3
  {
    if s.height == 0 then RATIO_4_3
    else
      var ratio := s.width as real / s.height as real;
      var d43, d169, d11 := Abs(4.0 / 3.0 - ratio), Abs(16.0 / 9.0 - ratio), Abs(1.0 - ratio);
      if d43 <= d169 && d43 <= d11 then RATIO_4_3
      else if d169 <= d11 then RATIO_16_9
      else RATIO_1_1
  }

  /** A preset's position in declaration order. */
  function Ordinal(p: ResolutionPreset): nat {
    match p
    case RES_320x240 => 0 case RES_640x480 => 1 case RES_800x600 => 2 case RES_1024x768 => 3
    case RES_1280x960 => 4 case RES_1600x1200 => 5 case RES_2048x1536 => 6
    case RES_320x180 => 7 case RES_640x360 => 8 case RES_854x480 => 9 case RES_1280x720 => 10
    case RES_1920x1080 => 11 case RES_2560x1440 => 12 case RES_3840x2160 => 13
    case RES_240x240 => 14 case RES_480x480 => 15 case RES_640x640 => 16 case RES_720x720 => 17
    case RES_1080x1080 => 18
  }

  /** `Ordinal` is the position in `AllPresets`, and every preset has one. */
  lemma OrdinalIsPosition(p: ResolutionPreset)
    ensures |AllPresets| == 19
    ensures Ordinal(p) < 19 && AllPresets[Ordinal(p)] == p
    ensures forall i :: 0 <= i < |AllPresets| ==> Ordinal(AllPresets[i]) == i
  {
  }

  /** Declaration order lists all 19 presets once each. */
  lemma AllPresetsDistinct()
    ensures |AllPresets| == 19
    ensures forall i, j :: 0 <= i < j < |AllPresets| ==> AllPresets[i] != AllPresets[j]
  {
    OrdinalIsPosition(RES_320x240);
  }

  /** The aspect-ratio lists are the three consecutive runs of declaration order. */
  lemma GroupsAreRuns()
    ensures GetByAspectRatio(RATIO_4_3) == AllPresets[..7]
    ensures GetByAspectRatio(RATIO_16_9) == AllPresets[7..14]
    ensures GetByAspectRatio(RATIO_1_1) == AllPresets[14..]
  {
  }

  /** A preset lies in a run of declaration order exactly when its ordinal does. */
  lemma InRun(p: ResolutionPreset, lo: nat, hi: nat)
    requires lo <= hi <= 19
    ensures p in AllPresets[lo..hi] <==> lo <= Ordinal(p) < hi
  {
    OrdinalIsPosition(p);
    if p in AllPresets[lo..hi] {
      var i :| lo <= i < hi && AllPresets[i] == p;
    }
    if lo <= Ordinal(p) < hi {
      assert AllPresets[lo..hi][Ordinal(p) - lo] == p;
    }
  }

  /** Every preset is listed, and it is listed under exactly one aspect ratio. */
  lemma AspectGroupOf(p: ResolutionPreset)
    ensures p in AllPresets
    ensures p in GetByAspectRatio(RATIO_4_3) ==> p !in GetByAspectRatio(RATIO_16_9) && p !in GetByAspectRatio(RATIO_1_1)
    ensures p in GetByAspectRatio(RATIO_16_9) ==> p !in GetByAspectRatio(RATIO_1_1)
    ensures p in GetByAspectRatio(RATIO_4_3) || p in GetByAspectRatio(RATIO_16_9) || p in GetByAspectRatio(RATIO_1_1)
  {
    OrdinalIsPosition(p);
    GroupsAreRuns();
    assert AllPresets[14..] == AllPresets[14..19];
    InRun(p, 0, 7);
    InRun(p, 7, 14);
    InRun(p, 14, 19);
  }

  /** The three aspect-ratio lists are pairwise disjoint and together hold all 19 presets. */
  lemma AspectGroupsPartition()
    ensures forall p :: p in GetByAspectRatio(RATIO_4_3) ==> p !in GetByAspectRatio(RATIO_16_9) && p !in GetByAspectRatio(RATIO_1_1)
    ensures forall p :: p in GetByAspectRatio(RATIO_16_9) ==> p !in GetByAspectRatio(RATIO_1_1)
    ensures forall p :: p in AllPresets <==>
      p in GetByAspectRatio(RATIO_4_3) || p in GetByAspectRatio(RATIO_16_9) || p in GetByAspectRatio(RATIO_1_1)
    ensures |GetByAspectRatio(RATIO_4_3)| + |GetByAspectRatio(RATIO_16_9)| + |GetByAspectRatio(RATIO_1_1)| == 19
  {
    forall p {
      AspectGroupOf(p);
    }
  }

  /** The low-latency, balanced and high-quality lists are pairwise disjoint and hold all 19 presets. */
  lemma LatencyGroupsPartition()
    ensures forall p :: p in LowLatencyPresets ==> p !in BalancedPresets && p !in HighQualityPresets
    ensures forall p :: p in BalancedPresets ==> p !in HighQualityPresets
    ensures forall p :: p in AllPresets <==>
      p in LowLatencyPresets || p in BalancedPresets || p in HighQualityPresets
    ensures |LowLatencyPresets| + |BalancedPresets| + |HighQualityPresets| == 19
  {
  }

  /** Every 4:3 entry has 3·width = 4·height. */
  lemma FourThreeHasItsRatio(p: ResolutionPreset)
    requires p in GetByAspectRatio(RATIO_4_3)
    ensures 3 * Width(p) == 4 * Height(p)
  {
  }

  /** Every 16:9 entry but 854x480 has 9·width = 16·height; 854x480 is not exactly 16:9. */
  lemma WideHasItsRatio(p: ResolutionPreset)
    requires p in GetByAspectRatio(RATIO_16_9)
    ensures p != RES_854x480 <==> 9 * Width(p) == 16 * Height(p)
  {
  }

  /** Every 1:1 entry is square. */
  lemma SquareHasItsRatio(p: ResolutionPreset)
    requires p in GetByAspectRatio(RATIO_1_1)
    ensures Width(p) == Height(p)
  {
  }

  /** Each aspect-ratio list is in strictly increasing width order. */
  lemma AspectGroupsIncreasing(r: AspectRatio)
    ensures forall i, j :: 0 <= i < j < |GetByAspectRatio(r)| ==>
      Width(GetByAspectRatio(r)[i]) < Width(GetByAspectRatio(r)[j])
  {
  }

  /** The default preset is the first 16:9 entry. */
  lemma DefaultIsFirstWide()
    ensures DEFAULT == GetByAspectRatio(RATIO_16_9)[0]
    ensures SizeOf(DEFAULT) == Size(320, 180)
  {
  }

  lemma FromSizeExactFourThree(s: Size)
    requires s.height > 0 && 3 * s.width == 4 * s.height
    ensures FromSize(s) == RATIO_4_3
  {
    assert s.width as real / s.height as real == 4.0 / 3.0;
  }

  /** 14x9 lies exactly between 4:3 and 16:9; `minByOrNull` keeps the first, 4:3. */
  lemma FromSizeTieKeepsFirst()
    ensures var s := Size(14, 9);
            && Abs(RatioValue(RATIO_4_3) - s.width as real / s.height as real)
               == Abs(RatioValue(RATIO_16_9) - s.width as real / s.height as real)
            && FromSize(s) == RATIO_4_3
  {
    assert 14 as real / 9 as real == 14.0 / 9.0;
  }

  lemma FromSizeExactWide(s: Size)
    requires s.height > 0 && 9 * s.width == 16 * s.height
    ensures FromSize(s) == RATIO_16_9
  {
    assert s.width as real / s.height as real == 16.0 / 9.0;
  }

  lemma FromSizeExactSquare(s: Size)
    requires s.height > 0 && s.width == s.height
    ensures FromSize(s) == RATIO_1_1
  {
    assert s.width as real / s.height as real == 1.0;
  }

  /** 854x480 is 1/720 away from 16:9, much nearer than to 4:3 or 1:1. */
  lemma FromSizeNearlyWide()
    ensures FromSize(Size(854, 480)) == RATIO_16_9
  {
    var ratio := 854 as real / 480 as real;
    assert ratio == 1281.0 / 720.0;
    assert Abs(16.0 / 9.0 - ratio) == 1.0 / 720.0;
    assert Abs(4.0 / 3.0 - ratio) == 321.0 / 720.0;
    assert Abs(1.0 - ratio) == 561.0 / 720.0;
  }

  lemma FromSizeOfFourThree(p: ResolutionPreset)
    requires p in GetByAspectRatio(RATIO_4_3)
    ensures FromSize(SizeOf(p)) == RATIO_4_3
  {
    FourThreeHasItsRatio(p);
    FromSizeExactFourThree(SizeOf(p));
  }

  lemma FromSizeOfWide(p: ResolutionPreset)
    requires p in GetByAspectRatio(RATIO_16_9)
    ensures FromSize(SizeOf(p)) == RATIO_16_9
  {
    if p == RES_854x480 {
      FromSizeNearlyWide();
    } else {
      WideHasItsRatio(p);
      FromSizeExactWide(SizeOf(p));
    }
  }

  lemma FromSizeOfSquare(p: ResolutionPreset)
    requires p in GetByAspectRatio(RATIO_1_1)
    ensures FromSize(SizeOf(p)) == RATIO_1_1
  {
    SquareHasItsRatio(p);
    FromSizeExactSquare(SizeOf(p));
  }

  /** `fromSize` classifies every listed preset into the list it is listed in. */
  lemma FromSizeAgreesWithGroups(r: AspectRatio, p: ResolutionPreset)
    requires p in GetByAspectRatio(r)
    ensures FromSize(SizeOf(p)) == r
  {
    match r
    case RATIO_4_3 => FromSizeOfFourThree(p);
    case RATIO_16_9 => FromSizeOfWide(p);
    case RATIO_1_1 => FromSizeOfSquare(p);
  }
}
