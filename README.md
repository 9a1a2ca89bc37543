# gd-icon-renderer core in Dafny

This project models the core of gd-icon-renderer, a Rust library that draws
Geometry Dash player icons from the game's texture-packer spritesheets. It
covers two source files.

- `src/assets.rs` holds the sprite metadata and sprite extraction:
  - the string parsers for `"{1,2}"` and `"{{1,2},{3,4}}"`;
  - `Sprite::initialize`, with its required-key check and field mapping;
  - `Spritesheet::initialize`, which builds the frames map;
  - `get_sprite` and `get_sprite_from_loaded`, which crop a sprite out of the texture and counter-rotate it when it was packed rotated.
- `src/renderer.rs` holds the layer pipeline:
  - `transform` tints, scales, flips and rotates one layer;
  - `render_layered` sizes a canvas to the bounding box, copies the base layer and overlays the others in order;
  - `render_normal` chooses the glow colour, looks up the five fixed sprite slots and drops the missing ones, keeping images, offsets and colours aligned.

Every Rust panic is an error value. `Result<T>` is `Ok(value)` or `Panic(reason)`, and the reason names the panic: a missing key, a bad slice, an unparsable number, a bad rotation, an empty layer list, a failed copy, an unwrap of `None`.

Numbers follow Rust, not Dafny:
- `f32` arithmetic is exact `real` arithmetic.
- Every `as u8/u32/i32/i64` cast truncates toward zero and saturates (`Common.SaturatingCast`).
- `i32 as u32` wraps (`Common.I32AsU32`).

Images are abstract RGBA rasters: `Images.Image`, rows of four-byte pixels. The image crate's crop, rotations, flips, `copy_from` and `overlay` clipping are written out. Two of its operations are function parameters instead:
- the Lanczos resampler in `resize_exact`, whose output size is fixed;
- the alpha blend inside `overlay`.

The steps that mutate state are methods over `array2` buffers, proved equal to the value functions that specify them:
- the tint loop;
- `copy_from`;
- the overlay loop;
- the layer loop of `render_layered`.

`render_normal` is modelled as written. Its colour list has `None` in the tertiary and the extra slot (src/renderer.rs:128, src/renderer.rs:130), and those colours are unwrapped whenever their slot resolved (src/renderer.rs:142). So the model panics with `UnwrapNone` exactly when `<name>_3_001.png` or `<name>_extra_001.png` is in the sheet (`NormalIcon.NormalPanicsOnUncoloredSlot`).

Files, one module each:
- `common.dfy` — results, panic reasons, Rust casts;
- `images.dfy` — rasters and the image-crate operations;
- `plist.dfy` — plist values;
- `parsing.dfy` — the string parsers;
- `assets.dfy` — sprites and spritesheets;
- `transforms.dfy` — `transform`;
- `layering.dfy` — `render_layered`;
- `normal_icon.dfy` — `is_black` and `render_normal`.

## Model

| member | source | states |
|---|---|---|
| Common.SaturatingCastCases | src/renderer.rs:18 | a Rust float-to-int cast is truncation toward zero inside the target range, and saturates to the bound at or beyond each end |
| Common.I32AsU32 | src/assets.rs:149 | `i32 as u32` keeps non-negative values and adds 2^32 to negative ones |
| Parsing.TrimStart | src/assets.rs:13 | the result is a suffix of the input; everything dropped is whitespace, and the result does not start with whitespace |
| Parsing.TrimEnd | src/assets.rs:13 | the result is a prefix of the input; everything dropped is whitespace, and the result does not end with whitespace |
| Parsing.TrimProperties | src/assets.rs:13 | a trimmed string has whitespace at neither end, and trimming a string without whitespace leaves it unchanged |
| Parsing.Split | src/assets.rs:10 | splitting gives at least one part, no part contains the separator, and joining the parts with the separator gives back the input |
| Parsing.SplitJoin | src/assets.rs:31 | splitting the join of separator-free parts gives back exactly those parts |
| Parsing.ParseShowInt | src/assets.rs:13 | every i32 written in decimal parses back to itself |
| Parsing.ParseI32 | src/assets.rs:13 | an accepted string is non-empty, has no whitespace, and starts with a digit or a sign |
| Parsing.ParseAll | src/assets.rs:11-14 | the map-and-unwrap keeps one value per part, and a failure names a part whose trimmed text does not parse |
| Parsing.ParseAllSpec | src/assets.rs:11-14 | the map-and-unwrap over parts succeeds iff every trimmed part parses; the values are the parts' values, each at its part's index |
| Parsing.ParseFromSpec | src/assets.rs:11-14 | unwrapping a field of every part from index i on succeeds iff every such field is present, and keeps the values in order |
| Parsing.Inner | src/assets.rs:10 | `str[1..len-1]` succeeds iff the string has at least two characters and both end characters are one byte; the result drops exactly the first and last character |
| Parsing.ParseVecWithSpec | src/assets.rs:9-17 | `parse_vec` succeeds iff the slice succeeds, it has at least two comma-separated parts, and every trimmed part parses; the result is the first two values; a bad slice panics with SliceOutOfRange |
| Parsing.ParseVecWith | src/assets.rs:9-17 | `parse_vec` only ever panics on the slice, a missing part, or a part that does not parse |
| Parsing.ParseVecPair | src/assets.rs:8-17 | `"{a,b}"` parses to `(a, b)` for every pair of i32 values |
| Parsing.ParseVecRoundTrip | src/assets.rs:9-17 | a brace-wrapped list of two or more i32 values parses to its first two values, so the parts after the second are ignored |
| Parsing.ParseVecFailures | src/assets.rs:13-16 | strings shorter than two characters, fewer than two parts, or a part that is not an integer each make `parse_vec` panic |
| Parsing.RemoveBraces | src/assets.rs:30 | the result holds no `{` and no `}` and is no longer than the input |
| Parsing.RemoveBracesAppend | src/assets.rs:30 | brace removal distributes over concatenation, so it works character by character |
| Parsing.RemoveBracesKeeps | src/assets.rs:30 | a string without braces is unchanged by brace removal |
| Parsing.RemoveBracesChar | src/assets.rs:30 | a single character is deleted iff it is `{` or `}`; with the append lemma this pins brace removal down on every string |
| Parsing.ParseRectVecsSpec | src/assets.rs:29-38 | `parse_rect_vecs` succeeds iff the brace-free text has at least four parts that all parse; the result is `((a0,a1),(a2,a3))` |
| Parsing.ParseRectVecs | src/assets.rs:29-38 | `parse_rect_vecs` only ever panics on a missing part or a part that does not parse |
| Parsing.ParseRectRoundTrip | src/assets.rs:28-38 | `"{{l,t},{w,h}}"` parses to `((l,t),(w,h))` for all i32 values |
| Assets.MissingKeysInOrder | src/assets.rs:59-74 | the missing-key list holds exactly the absent required keys, in the order spriteOffset, spriteSize, spriteSourceSize, textureRect, textureRotated; it is empty iff all five are present |
| Assets.InitializeSpriteSpec | src/assets.rs:56-87 | `Sprite::initialize` succeeds iff the object is a dictionary holding all five keys whose values read as fields, and is then that field reading |
| Assets.InitializeSpriteMissing | src/assets.rs:56-74 | a non-dictionary panics; a dictionary missing any required key panics with exactly the missing keys, and only then |
| Assets.StringOf | src/assets.rs:82-86 | `as_string().expect(..)` succeeds iff the value is a string, gives its text, and otherwise panics naming the key |
| Assets.OffsetField | src/assets.rs:82 | succeeds iff the value is a string whose float pair parses, and is then that pair; a non-string panics naming `spriteOffset`; its panics are never missing-key panics |
| Assets.RectField | src/assets.rs:83 | succeeds iff the value is a string that `parse_rect_vecs` accepts, and is then its rect; a non-string panics naming `textureRect`; its panics are never missing-key panics |
| Assets.RotatedField | src/assets.rs:84 | the rotated flag is read iff the value is a boolean, and otherwise panics naming `textureRotated` |
| Assets.VecField | src/assets.rs:85-86 | succeeds iff the value is a string that `parse_vec` accepts, and is then its vector; a non-string panics naming the key; its panics are never missing-key panics |
| Assets.ReadFields | src/assets.rs:81-87 | succeeds iff all four strings parse and the flag is a boolean; the fields are parsed from their own values: offset with the float parser, rect with `parse_rect_vecs`, size and source size with `parse_vec`, rotated as the boolean; none of these panics is a missing-key panic |
| Assets.InitializeSpriteFields | src/assets.rs:81-87 | an initialized sprite has all five keys; rect comes from textureRect, size from spriteSize, source size from spriteSourceSize, offset from spriteOffset and rotated from textureRotated |
| Assets.Sections | src/assets.rs:103-106 | initialization gets past the top checks iff the object is a dictionary holding `frames` and `metadata` dictionaries, and it passes those two on |
| Assets.InitializeFrames | src/assets.rs:109 | the frame map builds iff every frame initializes; its key set is the frames' key set and each value is that frame's sprite |
| Assets.ReadMetadata | src/assets.rs:110-111 | succeeds iff `textureFileName` is a string and `size` a string that `parse_vec` accepts; the file name is that string and the size its vector; a missing key or a non-string value panics naming it, file name first |
| Assets.InitializeSpritesheetSpec | src/assets.rs:102-113 | a built spritesheet has the frames' key set, each sprite is its frame initialized, and its metadata is read from `metadata`; a frame that fails makes the whole sheet fail; the sheet builds iff both sections exist, every frame initializes and the metadata reads |
| Assets.SpriteAtSpec | src/assets.rs:132-155 | `get_sprite` gives None exactly when the key is absent; otherwise it gives the stored sprite unchanged together with its extracted image |
| Assets.ExtractSpriteGeometry | src/assets.rs:144-153 | for an in-bounds rect `((l,t),(w,h))` the image is w by h whether or not the sprite was packed rotated; each pixel is the texture's `(l+x, t+y)` unrotated and `(l+h-1-y, t+x)` rotated |
| Assets.ExtractSpriteNegativeLeft | src/assets.rs:149 | a negative left edge wraps to a huge `u32`, so the crop is empty |
| Assets.GetSprite | src/assets.rs:132-159 | the step-by-step lookup, swap, crop and counter-rotation computes `SpriteAt` |
| Assets.GetSpriteFromLoaded | src/assets.rs:161-165 | a sprite looked up in a loaded sheet comes from that sheet's texture |
| Images.CropInBounds | src/assets.rs:149 | an in-bounds crop has the requested size and each pixel is the source pixel at the same offset |
| Images.CropBounded | src/assets.rs:149 | a crop never exceeds the requested size or the source image |
| Images.Rotate270Then90 | src/renderer.rs:49-51 | rotating by 270 and then by 90 gives back the image |
| Images.Rotate90Then270 | src/renderer.rs:49-51 | rotating by 90 and then by 270 gives back the image |
| Images.Rotate180Twice | src/renderer.rs:50 | rotating by 180 twice gives back the image |
| Images.Rotate90Twice | src/renderer.rs:49-50 | two quarter turns make a half turn, and four give back the image |
| Images.FlipsAreInvolutions | src/renderer.rs:38-43 | each flip undoes itself |
| Images.Rotate180IsBothFlips | src/renderer.rs:38-50 | a half turn is a horizontal flip followed by a vertical flip |
| Images.ToBuffer | src/renderer.rs:14 | `to_rgba8` gives a fresh buffer holding the image |
| Transforms.Transform | src/renderer.rs:10-57 | the in-place tint loop, resize, flips and rotation compute `Transformed` |
| Transforms.TransformIdentity | src/renderer.rs:10-56 | with no colour, no scale and no rotation, or with rotation 0 alone, the image is returned unchanged |
| Transforms.TintKeepsAlphaAndSize | src/renderer.rs:13-23 | the tint keeps the size and every alpha value; each R, G and B value becomes the truncating, saturating `u8` cast of value times factor |
| Transforms.TintWhiteIsIdentity | src/renderer.rs:16-20 | tinting by white leaves an image unchanged |
| Transforms.TintBlackClearsColour | src/renderer.rs:16-20 | tinting by black zeroes R, G and B and keeps alpha |
| Transforms.TintDarkens | src/renderer.rs:18 | tint factors in [0, 1] never raise a channel |
| Transforms.ScaledSize | src/renderer.rs:25-36 | the scaled size is `(w·abs(sx) as u32, h·abs(sy) as u32)` |
| Transforms.ScaledSideSpec | src/renderer.rs:33-34 | an output side that fits in `u32` is the truncation of side times abs(factor), and the sign of the factor does not change it |
| Transforms.ScaledMirror | src/renderer.rs:38-43 | negating sx adds a horizontal flip, negating sy a vertical flip, and negating both a half turn |
| Transforms.ScaledByUnit | src/renderer.rs:25-44 | a scale of (±1, ±1) keeps the size and only flips |
| Transforms.RotatedSpec | src/renderer.rs:46-54 | rotation succeeds iff the angle is 0, 90, 180 or 270, and otherwise panics naming the angle; 90 and 270 swap width and height, 0 and 180 keep them |
| Transforms.RotatedRoundTrips | src/renderer.rs:49-51 | 90 then 270, 270 then 90, and 180 twice each give back the image |
| Layering.CollectedSpec | src/renderer.rs:61-63 | collecting results succeeds iff every result is `Ok`, keeps each value at its own index, and a failure is the failure of one of the results |
| Layering.CollectedPanicPersists | src/renderer.rs:61-63 | once collecting fails, collecting more results fails with the same panic |
| Layering.TransformPrefixSpec | src/renderer.rs:61-63 | transforming the layers succeeds iff every layer transforms; the i-th result is the i-th image transformed with the i-th colour, scale and rotation |
| Layering.TransformPanicPersists | src/renderer.rs:61-63 | once some layer fails, every longer prefix fails with the same panic |
| Layering.TransformPrefixReasons | src/renderer.rs:61-63 | transforming the layers fails only on a short colour, scale or rotation list, or on a bad rotation |
| Layering.DefaultPositions | src/renderer.rs:68-70 | positions resolve iff the list is at least as long as the images; the i-th position is the given one, or (0, 0) when it is `None` |
| Layering.BoundingBoxIsMaximum | src/renderer.rs:72-83 | the canvas width is at least every layer's `(w + 2·abs(x)) as i32`, and it is 0 or equal to one of them; the same holds for the height |
| Layering.LayeredNoImages | src/renderer.rs:89 | `render_layered` panics with "no images provided" iff the image list is empty |
| Layering.BaseCopyFits | src/renderer.rs:88-92 | with exact arithmetic, the base layer's offset plus its width fits inside the bounding box |
| Layering.LayeredBaseFits | src/renderer.rs:85-92 | when the layers transform and the base's extent fits an i32, `render_layered` succeeds |
| Layering.LayeredSuccess | src/renderer.rs:60-102 | a successful render had lists at least as long as the images and valid rotations; its size is the bounding box of the transformed layers |
| Layering.LayeredSingle | src/renderer.rs:60-102 | a single layer at the origin, tinted white and not transformed, renders to itself |
| Layering.StackedKeepsUncovered | src/renderer.rs:95-100 | a canvas pixel that no overlaid layer covers keeps the base's value |
| Layering.LayeredFailures | src/renderer.rs:60-92 | with long enough lists and no rotations, `render_layered` fails only with an empty list or a failed base copy |
| Layering.CopyFrom | src/renderer.rs:88-92 | `copy_from` succeeds iff the source fits at the offset; the canvas is then the source pasted there, and otherwise untouched |
| Layering.Overlay | src/renderer.rs:99 | overlaying writes onto the canvas the blend of the layer over the clipped region, and leaves the rest unchanged |
| Layering.TransformLayers | src/renderer.rs:61-63 | the loop over the images computes `TransformPrefix` |
| Layering.TransformNext | src/renderer.rs:61-63 | one more step of the loop extends the transformed prefix by one layer |
| Layering.CopyRow | src/renderer.rs:88-92 | copying one row of the source writes exactly that row at the offset and leaves every other pixel unchanged |
| Layering.PastedAll | src/renderer.rs:88-92 | a canvas that holds the source wherever it covers and the old canvas elsewhere is the source pasted at the offset |
| Layering.BlendRow | src/renderer.rs:99 | blending one row writes the blend of the layer over that row's clipped span and leaves every other pixel unchanged |
| Layering.OverlaidClipped | src/renderer.rs:99 | a canvas blended over the clipped box, which is exactly where the layer covers, is the layer overlaid at the offset |
| Layering.StackLayers | src/renderer.rs:95-100 | the stacking loop leaves the canvas equal to `Stacked`, the overlays taken in list order |
| Layering.RenderLayered | src/renderer.rs:60-103 | the imperative render computes `Layered`, panics included |
| NormalIcon.IsBlackSpec | src/renderer.rs:105-107 | a colour is black iff all three components are 0 |
| NormalIcon.GlowColorSpec | src/renderer.rs:111 | the glow colour is col2 if it is not black, else col1 if that is not black, else white; it is never black |
| NormalIcon.NormalLayersSpec | src/renderer.rs:113-123 | there are five slots; the glow slot is filled iff the glow is wanted (glow on, or both colours black) and the glow sheet has `<name>_glow_001.png`; the others are filled iff the main sheet has `_2`, `_3`, the base or `_extra`; a filled slot carries the stored sprite |
| NormalIcon.ResolvedSlotsSpec | src/renderer.rs:133-143 | the resolved slot indices increase strictly and are exactly the slots that found a sprite |
| NormalIcon.ImagesAligned | src/renderer.rs:134-136 | the i-th image passed on is the image of the i-th resolved slot |
| NormalIcon.OffsetsAligned | src/renderer.rs:137-139 | the i-th position passed on is the i-th resolved slot's offset with y negated |
| NormalIcon.ColorsAligned | src/renderer.rs:140-143 | when the colour list resolves, its i-th entry is the colour of the i-th resolved slot |
| NormalIcon.PresentColorsPanics | src/renderer.rs:140-143 | the colour list panics iff some resolved slot has no colour, and the panic is an unwrap of None |
| NormalIcon.LayeredNeverUnwraps | src/renderer.rs:60-103 | `render_layered` itself never panics on an unwrap |
| NormalIcon.NormalPanicsOnUncoloredSlot | src/renderer.rs:125-143 | `render_normal` panics on the colour unwrap iff the `_3` or `_extra` sprite exists in the sheet |
| NormalIcon.NormalNothingFound | src/renderer.rs:113-146 | when no slot resolves, `render_normal` panics with "no images provided" |
| NormalIcon.NormalFailures | src/renderer.rs:133-146 | `render_normal` fails only on the colour unwrap, an empty layer list, or the base copy |
| NormalIcon.RenderNormal | src/renderer.rs:110-147 | the imperative sprite lookups and layered render compute `Normal`, with five `None` scales and rotations |

## Left out

- `load_spritesheet` (src/assets.rs:124-129) reads a plist and a PNG from disk. This is I/O. A `LoadedSpritesheet` is built from values instead, and plist syntax errors are not modelled.
- The saving and timing test in src/lib.rs is file I/O and a wall clock. It is not part of this model.
- `parse_vec_f32` (src/assets.rs:19-27) needs float parsing. It is the parser `parse_vec` with the float parse as the parameter `parseF32`.
- Lanczos resampling inside `resize_exact` (src/renderer.rs:32-36) is the parameter `sample`. The crate's copy on an unchanged size is modelled.
- The alpha blend inside `imageops::overlay` (src/renderer.rs:99) is the parameter `blend`. The overlay's clipping is modelled.
- IEEE `f32` rounding, infinities and NaN are left out: all float arithmetic is exact `real` arithmetic, followed by Rust's truncating, saturating casts.
- Image formats other than RGBA8 are left out. `to_rgba8` of an RGBA8 image is the image itself, so the alpha a conversion would add is not modelled.
- src/constants.rs is data that no modelled code uses. It is not part of this model.
- `Spritesheet.texture_file_name`, `Spritesheet.size`, `Sprite.size` and `Sprite.source_size` are parsed and stored. Rendering never uses them, so nothing beyond their parsing is stated.
- Assets.InitializeFrames: a sheet with any failing frame reports `InvalidFrame`, not that frame's own panic. The model keeps the frames in an unordered `map` and does not track their document order, so it cannot say which failing frame the sheet meets first.
- Assets.InitializeSpritesheetSpec: states the same `InvalidFrame` collapse for a failing frame, for the same reason.
- Layering.CopyFrom: the `u32` bounds check `other.width() + x` in `copy_from` is computed without overflow. The offsets come from a saturating cast. When the bounding box saturates at `I32_MAX`, the offset can reach `U32_MAX`, and the sum can then wrap, even on a canvas with no pixels: for a 10×0 base at x offset 1e10, a release build wraps `10 + u32::MAX` to 9, passes the check and copies no rows, and a debug build panics on the overflow. The model reports `CopyOutOfBounds` there instead.
- Transforms.ScaledSideSpec: states the truncation only for results that fit in `u32`, where the cast does not saturate.
- Strings are sequences of characters. The byte-boundary rule of `str[1..len-1]` is modelled by requiring single-byte end characters; any other UTF-8 detail is not modelled.
- No trimming step and no robot or spider assembly exist in the modelled code.
