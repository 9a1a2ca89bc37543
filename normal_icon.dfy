/** `render_normal`: the icon of every game mode except robot and spider,
    assembled from up to five sprites: glow, secondary colour, tertiary
    detail, primary colour and an extra overlay. */
module NormalIcon {
  import opened Common
  import opened Images
  import opened Transforms
  import opened Assets
  import opened Layering

  /** A slot of the icon: the sprite image and its metadata, if found. */
  type Layer = Option<(Image, Sprite)>

  /** `is_black`: all three components are exactly zero. */
  predicate IsBlack(c: Color) {
    c == Black
  }

  lemma IsBlackSpec(c: Color)
    ensures IsBlack(c) <==> c[0] == 0.0 && c[1] == 0.0 && c[2] == 0.0
  {
    if c[0] == 0.0 && c[1] == 0.0 && c[2] == 0.0 {
      assert c == [c[0], c[1], c[2]];
    }
  }

  /** The glow tint: the secondary colour, falling back to the primary
      colour when the secondary is black, and to white when both are. */
  function GlowColor(col1: Color, col2: Color): Color {
    if IsBlack(col2) then (if IsBlack(col1) then White else col1) else col2
  }

  /** The fallback chain of the glow colour; the glow is never black. */
  lemma GlowColorSpec(col1: Color, col2: Color)
    ensures !IsBlack(col2) ==> GlowColor(col1, col2) == col2
    ensures IsBlack(col2) && !IsBlack(col1) ==> GlowColor(col1, col2) == col1
    ensures IsBlack(col2) && IsBlack(col1) ==> GlowColor(col1, col2) == White
    ensures !IsBlack(GlowColor(col1, col2))
  {
    assert White[0] != 0.0;
  }

  /** The glow sprite is looked up when asked for, and always for an
      all-black icon. */
  predicate GlowWanted(glow: bool, col1: Color, col2: Color) {
    glow || (IsBlack(col1) && IsBlack(col2))
  }

  /** The sprite name of each of the five slots, in layer order. */
  function SlotNames(basename: string): seq<string> {
    [basename + "_glow_001.png", basename + "_2_001.png", basename + "_3_001.png",
     basename + "_001.png", basename + "_extra_001.png"]
  }

  /** The five slots: the glow from the glow sheet (only when wanted), the
      others from the main sheet. */
  function NormalLayers(basename: string, col1: Color, col2: Color, glow: bool,
                        sheet02: LoadedSpritesheet, sheetGlow: LoadedSpritesheet): seq<Layer> {
    var names := SlotNames(basename);
    [if GlowWanted(glow, col1, col2) then SpriteAt(sheetGlow.spritesheet, sheetGlow.texture, names[0]) else None,
     SpriteAt(sheet02.spritesheet, sheet02.texture, names[1]),
     SpriteAt(sheet02.spritesheet, sheet02.texture, names[2]),
     SpriteAt(sheet02.spritesheet, sheet02.texture, names[3]),
     SpriteAt(sheet02.spritesheet, sheet02.texture, names[4])]
  }

  /** The colour of each slot: glow colour, secondary, none, primary, none. */
  function SlotColors(col1: Color, col2: Color): seq<Option<Color>> {
    [Some(GlowColor(col1, col2)), Some(col2), None, Some(col1), None]
  }

  /** The images of the slots that were found, in slot order. */
  function PresentImages(layers: seq<Layer>): seq<Image> {
    if |layers| == 0 then []
    else
      var last := layers[|layers| - 1];
      PresentImages(layers[..|layers| - 1]) + (if last.Some? then [last.value.0] else [])
  }

  /** The position of each found slot: its sprite offset with y negated. */
  function PresentOffsets(layers: seq<Layer>): seq<Option<(real, real)>> {
    if |layers| == 0 then []
    else
      var last := layers[|layers| - 1];
      PresentOffsets(layers[..|layers| - 1])
      + (if last.Some? then [Some((last.value.1.offset.0, -last.value.1.offset.1))] else [])
  }

  /** `color.unwrap()` for every found slot: a found slot without a colour panics. */
  function PresentColors(layers: seq<Layer>, colors: seq<Option<Color>>): Result<seq<Color>>
    requires |colors| == |layers|
  {
    if |layers| == 0 then Ok([])
    else
      var n := |layers| - 1;
      var init :- PresentColors(layers[..n], colors[..n]);
      if layers[n].None? then Ok(init)
      else if colors[n].None? then Panic(UnwrapNone)
      else Ok(init + [colors[n].value])
  }

  /** The indices of the found slots, in order. */
  function ResolvedSlots(layers: seq<Layer>): seq<nat> {
    if |layers| == 0 then []
    else ResolvedSlots(layers[..|layers| - 1]) + (if layers[|layers| - 1].Some? then [|layers| - 1] else [])
  }

  /** The found-slot indices rise, and are exactly the slots that were found. */
  lemma {:induction false} ResolvedSlotsSpec(layers: seq<Layer>)
    ensures forall j | 0 <= j < |ResolvedSlots(layers)| ::
              ResolvedSlots(layers)[j] < |layers| && layers[ResolvedSlots(layers)[j]].Some?
    ensures forall j, k | 0 <= j < k < |ResolvedSlots(layers)| :: ResolvedSlots(layers)[j] < ResolvedSlots(layers)[k]
    ensures forall i | 0 <= i < |layers| && layers[i].Some? :: i in ResolvedSlots(layers)
  {
    if |layers| > 0 {
      var n := |layers| - 1;
      var prev := ResolvedSlots(layers[..n]);
      var tail: seq<nat> := if layers[n].Some? then [n] else [];
      ResolvedSlotsSpec(layers[..n]);
      assert forall i | 0 <= i < n :: layers[..n][i] == layers[i];
      assert ResolvedSlots(layers) == prev + tail;
      forall j | 0 <= j < |prev|
        ensures prev[j] < n && layers[prev[j]].Some?
      {
        assert layers[..n][prev[j]].Some?;
      }
      assert forall i | 0 <= i < n && layers[i].Some? :: i in prev;
    }
  }

  /** The filtered lists stay aligned: entry j of each comes from the j-th
      found slot, whose index is `ResolvedSlots(layers)[j]`. */
  lemma {:induction false} ImagesAligned(layers: seq<Layer>)
    ensures var slots := ResolvedSlots(layers);
      && |PresentImages(layers)| == |slots|
      && forall j | 0 <= j < |slots| :: slots[j] < |layers| && layers[slots[j]].Some? &&
                                       PresentImages(layers)[j] == layers[slots[j]].value.0
  {
    if |layers| > 0 {
      var n := |layers| - 1;
      ImagesAligned(layers[..n]);
      assert forall i | 0 <= i < n :: layers[..n][i] == layers[i];
    }
  }

  lemma {:induction false} OffsetsAligned(layers: seq<Layer>)
    ensures var slots := ResolvedSlots(layers);
      && |PresentOffsets(layers)| == |slots|
      && forall j | 0 <= j < |slots| :: slots[j] < |layers| && layers[slots[j]].Some? &&
           PresentOffsets(layers)[j] == Some((layers[slots[j]].value.1.offset.0, -layers[slots[j]].value.1.offset.1))
  {
    if |layers| > 0 {
      var n := |layers| - 1;
      OffsetsAligned(layers[..n]);
      assert forall i | 0 <= i < n :: layers[..n][i] == layers[i];
    }
  }

  lemma {:induction false} ColorsAligned(layers: seq<Layer>, colors: seq<Option<Color>>)
    requires |colors| == |layers|
    ensures var slots := ResolvedSlots(layers);
      PresentColors(layers, colors).Ok? ==>
        && |PresentColors(layers, colors).value| == |slots|
        && forall j | 0 <= j < |slots| :: slots[j] < |layers| &&
             colors[slots[j]] == Some(PresentColors(layers, colors).value[j])
  {
    if |layers| > 0 {
      var n := |layers| - 1;
      ColorsAligned(layers[..n], colors[..n]);
      assert forall i | 0 <= i < n :: colors[..n][i] == colors[i];
    }
  }

  /** The colour list panics exactly when some found slot has no colour. */
  lemma {:induction false} PresentColorsPanics(layers: seq<Layer>, colors: seq<Option<Color>>)
    requires |colors| == |layers|
    ensures PresentColors(layers, colors).Panic? <==>
              exists i | 0 <= i < |layers| :: layers[i].Some? && colors[i].None?
    ensures PresentColors(layers, colors).Panic? ==> PresentColors(layers, colors).reason == UnwrapNone
  {
    if |layers| > 0 {
      var n := |layers| - 1;
      PresentColorsPanics(layers[..n], colors[..n]);
      assert forall i | 0 <= i < n :: layers[..n][i] == layers[i] && colors[..n][i] == colors[i];
    }
  }

  /** At most as many found slots as slots. */
  lemma {:induction false} PresentBounded(layers: seq<Layer>)
    ensures |PresentImages(layers)| <= |layers|
  {
    if |layers| > 0 {
      PresentBounded(layers[..|layers| - 1]);
    }
  }

  const NoScales: seq<Option<(real, real)>> := [None, None, None, None, None]
  const NoRotations: seq<Option<i32>> := [None, None, None, None, None]

  /** What `render_normal` returns. */
  function Normal(basename: string, col1: Color, col2: Color, glow: bool,
                  sheet02: LoadedSpritesheet, sheetGlow: LoadedSpritesheet,
                  sample: Sampler, blend: Blender): Result<Image> {
    var layers := NormalLayers(basename, col1, col2, glow, sheet02, sheetGlow);
    var colors :- PresentColors(layers, SlotColors(col1, col2));
    Layered(PresentImages(layers), PresentOffsets(layers), colors, NoScales, NoRotations, sample, blend)
  }

  /** `render_normal`: the sprites are fetched slot by slot, the found ones
      filtered out and handed to `render_layered`. */
  method RenderNormal(basename: string, col1: Color, col2: Color, glow: bool,
                      sheet02: LoadedSpritesheet, sheetGlow: LoadedSpritesheet,
                      sample: Sampler, blend: Blender) returns (r: Result<Image>)
    ensures r == Normal(basename, col1, col2, glow, sheet02, sheetGlow, sample, blend)
  {
    var glowColor := GlowColor(col1, col2);
    var names := SlotNames(basename);
    var glowLayer: Layer := None;
    if glow || (IsBlack(col1) && IsBlack(col2)) {
      glowLayer := GetSpriteFromLoaded(sheetGlow, names[0]);
    }
    var secondary := GetSpriteFromLoaded(sheet02, names[1]);
    var tertiary := GetSpriteFromLoaded(sheet02, names[2]);
    var primary := GetSpriteFromLoaded(sheet02, names[3]);
    var extra := GetSpriteFromLoaded(sheet02, names[4]);
    var layers := [glowLayer, secondary, tertiary, primary, extra];
    var colors := [Some(glowColor), Some(col2), None, Some(col1), None];
    assert layers == NormalLayers(basename, col1, col2, glow, sheet02, sheetGlow);
    var present :- PresentColors(layers, colors);
    r := RenderLayered(PresentImages(layers), PresentOffsets(layers), present, NoScales, NoRotations, sample, blend);
  }

  /** The glow slot is filled only when the glow is wanted and the glow sheet
      has the sprite; the other slots only when the main sheet has theirs. */
  lemma NormalLayersSpec(basename: string, col1: Color, col2: Color, glow: bool,
                         sheet02: LoadedSpritesheet, sheetGlow: LoadedSpritesheet)
    ensures var layers := NormalLayers(basename, col1, col2, glow, sheet02, sheetGlow);
            var names := SlotNames(basename);
      && |layers| == 5
      && (layers[0].Some? <==> GlowWanted(glow, col1, col2) && names[0] in sheetGlow.spritesheet.sprites)
      && (forall k | 1 <= k < 5 :: layers[k].Some? <==> names[k] in sheet02.spritesheet.sprites)
      && (layers[0].Some? ==> layers[0].value.1 == sheetGlow.spritesheet.sprites[names[0]])
      && (forall k | 1 <= k < 5 :: layers[k].Some? ==> layers[k].value.1 == sheet02.spritesheet.sprites[names[k]])
  {
    var names := SlotNames(basename);
    SpriteAtSpec(sheetGlow.spritesheet, sheetGlow.texture, names[0]);
    forall k | 1 <= k < 5 {
      SpriteAtSpec(sheet02.spritesheet, sheet02.texture, names[k]);
    }
  }

  /** The layered renderer never panics with an unwrapped `None`. */
  lemma LayeredNeverUnwraps(images: seq<Image>, positions: seq<Option<(real, real)>>, colors: seq<Color>,
                            scales: seq<Option<(real, real)>>, rotations: seq<Option<i32>>,
                            sample: Sampler, blend: Blender)
    ensures Layered(images, positions, colors, scales, rotations, sample, blend) != Panic(UnwrapNone)
  {
    TransformPrefixReasons(images, colors, scales, rotations, |images|, sample);
  }

  /** As written, `render_normal` panics at the colour unwrap exactly when the
      tertiary (`_3_001`) or the extra (`_extra_001`) sprite is found, since
      those two slots carry no colour. */
  lemma NormalPanicsOnUncoloredSlot(basename: string, col1: Color, col2: Color, glow: bool,
                                    sheet02: LoadedSpritesheet, sheetGlow: LoadedSpritesheet,
                                    sample: Sampler, blend: Blender)
    ensures Normal(basename, col1, col2, glow, sheet02, sheetGlow, sample, blend) == Panic(UnwrapNone) <==>
              (basename + "_3_001.png" in sheet02.spritesheet.sprites ||
               basename + "_extra_001.png" in sheet02.spritesheet.sprites)
  {
    var layers := NormalLayers(basename, col1, col2, glow, sheet02, sheetGlow);
    var colors := SlotColors(col1, col2);
    NormalLayersSpec(basename, col1, col2, glow, sheet02, sheetGlow);
    PresentColorsPanics(layers, colors);
    if PresentColors(layers, colors).Panic? {
      var i :| 0 <= i < 5 && layers[i].Some? && colors[i].None?;
      assert i == 2 || i == 4;
    } else {
      LayeredNeverUnwraps(PresentImages(layers), PresentOffsets(layers), PresentColors(layers, colors).value,
                          NoScales, NoRotations, sample, blend);
    }
  }

  /** With no sprite found at all, there is no base layer. */
  lemma NormalNothingFound(basename: string, col1: Color, col2: Color, glow: bool,
                           sheet02: LoadedSpritesheet, sheetGlow: LoadedSpritesheet,
                           sample: Sampler, blend: Blender)
    requires !GlowWanted(glow, col1, col2) || basename + "_glow_001.png" !in sheetGlow.spritesheet.sprites
    requires forall k | 1 <= k < 5 :: SlotNames(basename)[k] !in sheet02.spritesheet.sprites
    ensures Normal(basename, col1, col2, glow, sheet02, sheetGlow, sample, blend) == Panic(NoImages)
  {
    var layers := NormalLayers(basename, col1, col2, glow, sheet02, sheetGlow);
    var colors := SlotColors(col1, col2);
    NormalLayersSpec(basename, col1, col2, glow, sheet02, sheetGlow);
    ImagesAligned(layers);
    PresentColorsPanics(layers, colors);
    LayeredNoImages(PresentImages(layers), PresentOffsets(layers), PresentColors(layers, colors).value,
                    NoScales, NoRotations, sample, blend);
  }

  /** Every found slot gets a scale and a rotation entry (both `None`), so
      the only ways `render_normal` can fail are the colour unwrap, having
      no sprite at all, and the copy of the base layer. */
  lemma NormalFailures(basename: string, col1: Color, col2: Color, glow: bool,
                       sheet02: LoadedSpritesheet, sheetGlow: LoadedSpritesheet,
                       sample: Sampler, blend: Blender)
    ensures var r := Normal(basename, col1, col2, glow, sheet02, sheetGlow, sample, blend);
            r.Panic? ==> r.reason == UnwrapNone || r.reason == NoImages || r.reason == CopyOutOfBounds
  {
    var layers := NormalLayers(basename, col1, col2, glow, sheet02, sheetGlow);
    var colors := SlotColors(col1, col2);
    PresentColorsPanics(layers, colors);
    PresentBounded(layers);
    if PresentColors(layers, colors).Ok? {
      var images := PresentImages(layers);
      var present := PresentColors(layers, colors).value;
      ImagesAligned(layers);
      OffsetsAligned(layers);
      ColorsAligned(layers, colors);
      assert |images| <= 5;
      assert forall i | 0 <= i < |NoRotations| :: NoRotations[i].None?;
      LayeredFailures(images, PresentOffsets(layers), present, NoScales, NoRotations, sample, blend);
    }
  }
}
