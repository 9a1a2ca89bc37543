/** Sprite metadata of a texture atlas and the extraction of one sprite's
    image from the atlas texture. */
module Assets {
  import opened Common
  import opened Images
  import opened Parsing
  import Plist

  /** A rectangle of the texture: `origin` is (left, top), `extent` is (width, height). */
  datatype Rect = Rect(origin: (i32, i32), extent: (i32, i32))

  /** One atlas entry. `rect` is ((left, top), (width, height)) in texture
      pixels; `rotated` says the packer stored the sprite turned a quarter
      turn, so it must be counter-rotated after cropping; `offset` shifts the
      sprite when it is placed. `size` and `sourceSize` are parsed and kept. */
  datatype Sprite = Sprite(
    offset: (real, real),
    rect: Rect,
    rotated: bool,
    size: (i32, i32),
    sourceSize: (i32, i32))

  datatype Spritesheet = Spritesheet(
    sprites: map<string, Sprite>,
    textureFileName: string,
    size: (i32, i32))

  /** A spritesheet together with its decoded texture. */
  datatype LoadedSpritesheet = LoadedSpritesheet(spritesheet: Spritesheet, texture: Image)

  /** The keys every sprite entry must have, in the order they are reported. */
  const RequiredKeys: seq<string> :=
    ["spriteOffset", "spriteSize", "spriteSourceSize", "textureRect", "textureRotated"]

  /** The keys of `keys` that the dictionary lacks, in their order in `keys`. */
  function MissingFrom(keys: seq<string>, d: map<string, Plist.Value>): seq<string>
  {
    if |keys| == 0 then []
    else IfAbsent(keys[0], d) + MissingFrom(keys[1..], d)
  }

  function MissingKeys(d: map<string, Plist.Value>): seq<string> {
    MissingFrom(RequiredKeys, d)
  }

  /** One entry if the key is absent, none if it is present. */
  function IfAbsent(key: string, d: map<string, Plist.Value>): seq<string> {
    if key in d then [] else [key]
  }

  predicate HasRequiredKeys(d: map<string, Plist.Value>) {
    "spriteOffset" in d && "spriteSize" in d && "spriteSourceSize" in d
    && "textureRect" in d && "textureRotated" in d
  }

  /** Unfolding `MissingFrom` once. */
  lemma MissingFromCons(key: string, rest: seq<string>, d: map<string, Plist.Value>)
    ensures MissingFrom([key] + rest, d) == IfAbsent(key, d) + MissingFrom(rest, d)
  {
    assert ([key] + rest)[1..] == rest;
  }

  lemma MissingFromFive(a: string, b: string, c: string, e: string, f: string, d: map<string, Plist.Value>)
    ensures MissingFrom([a, b, c, e, f], d)
            == IfAbsent(a, d) + (IfAbsent(b, d) + (IfAbsent(c, d) + (IfAbsent(e, d) + IfAbsent(f, d))))
  {
    MissingFromCons(f, [], d);
    assert [f] + [] == [f];
    MissingFromCons(e, [f], d);
    assert [e] + [f] == [e, f];
    MissingFromCons(c, [e, f], d);
    assert [c] + [e, f] == [c, e, f];
    MissingFromCons(b, [c, e, f], d);
    assert [b] + [c, e, f] == [b, c, e, f];
    MissingFromCons(a, [b, c, e, f], d);
    assert [a] + [b, c, e, f] == [a, b, c, e, f];
    assert IfAbsent(f, d) + [] == IfAbsent(f, d);
  }

  /** The missing-entries list holds exactly the absent required keys, in the
      fixed order spriteOffset, spriteSize, spriteSourceSize, textureRect,
      textureRotated; it is empty exactly when all five are present. */
  lemma MissingKeysInOrder(d: map<string, Plist.Value>)
    ensures MissingKeys(d) ==
      IfAbsent("spriteOffset", d) + (IfAbsent("spriteSize", d) + (IfAbsent("spriteSourceSize", d)
      + (IfAbsent("textureRect", d) + IfAbsent("textureRotated", d))))
    ensures MissingKeys(d) == [] <==> HasRequiredKeys(d)
  {
    MissingFromFive("spriteOffset", "spriteSize", "spriteSourceSize", "textureRect", "textureRotated", d);
  }

  /** `as_string().expect(..)` on the value stored under `key`. */
  function StringOf(v: Plist.Value, key: string): (r: Result<string>)
    ensures r.Ok? <==> v.String?
    ensures r.Ok? ==> r.value == v.text
    ensures r.Panic? ==> r.reason == NotAString(key)
  {
    if v.String? then Ok(v.text) else Panic(NotAString(key))
  }

  /** `Sprite::initialize`: the object must be a dictionary holding all five
      required keys (otherwise it panics listing the missing ones); then the
      fields are parsed in the order offset, rect, rotated, size, source size.
      The float parser of `parse_vec_f32` is given as `parseF32`. */
  function InitializeSprite(obj: Plist.Value, parseF32: string -> Option<real>): (r: Result<Sprite>)
  {
    if !obj.Dictionary? then Panic(NotADictionary("object"))
    else
      var missing := MissingKeys(obj.entries);
      if missing != [] then Panic(MissingEntries(missing))
      else
        MissingKeysInOrder(obj.entries);
        ReadSprite(obj.entries, parseF32)
  }

  /** The five entries of a sprite, looked up once all keys are known present. */
  function ReadSprite(d: map<string, Plist.Value>, parseF32: string -> Option<real>): Result<Sprite>
    requires HasRequiredKeys(d)
  {
    ReadFields(d["spriteOffset"], d["textureRect"], d["textureRotated"], d["spriteSize"],
               d["spriteSourceSize"], parseF32)
  }

  /** The field mapping of `Sprite::initialize`, given the value of each key:
      every field comes from its own entry, and no failure here is a
      missing-entries panic. */
  function ReadFields(offsetV: Plist.Value, rectV: Plist.Value, rotatedV: Plist.Value,
                      sizeV: Plist.Value, sourceV: Plist.Value,
                      parseF32: string -> Option<real>): (r: Result<Sprite>)
    ensures r.Panic? ==> !r.reason.MissingEntries?
    ensures r.Ok? <==>
      && offsetV.String? && ParseVecWith(offsetV.text, parseF32).Ok?
      && rectV.String? && ParseRectVecs(rectV.text).Ok?
      && rotatedV.Boolean?
      && sizeV.String? && ParseVec(sizeV.text).Ok?
      && sourceV.String? && ParseVec(sourceV.text).Ok?
    ensures r.Ok? ==>
      && offsetV.String? && ParseVecWith(offsetV.text, parseF32) == Ok(r.value.offset)
      && rectV.String? && ParseRectVecs(rectV.text) == Ok((r.value.rect.origin, r.value.rect.extent))
      && rotatedV == Plist.Boolean(r.value.rotated)
      && sizeV.String? && ParseVec(sizeV.text) == Ok(r.value.size)
      && sourceV.String? && ParseVec(sourceV.text) == Ok(r.value.sourceSize)
  {
    var offset :- OffsetField(offsetV, parseF32);
    var rect :- RectField(rectV);
    var rotated :- RotatedField(rotatedV);
    var size :- VecField(sizeV, SizeKey);
    var sourceSize :- VecField(sourceV, SourceSizeKey);
    Ok(Sprite(offset, rect, rotated, size, sourceSize))
  }

  const SizeKey: string := "spriteSize"
  const SourceSizeKey: string := "spriteSourceSize"

  /** `parse_vec_f32` of the spriteOffset string. */
  function OffsetField(v: Plist.Value, parseF32: string -> Option<real>): (r: Result<(real, real)>)
    ensures r.Ok? <==> v.String? && ParseVecWith(v.text, parseF32).Ok?
    ensures r.Ok? ==> v.String? && ParseVecWith(v.text, parseF32) == Ok(r.value)
    ensures !v.String? ==> r == Panic(NotAString("spriteOffset"))
    ensures r.Panic? ==> !r.reason.MissingEntries?
  {
    var text :- StringOf(v, "spriteOffset");
    ParseVecWith(text, parseF32)
  }

  /** `parse_rect_vecs` of the textureRect string. */
  function RectField(v: Plist.Value): (r: Result<Rect>)
    ensures r.Ok? <==> v.String? && ParseRectVecs(v.text).Ok?
    ensures r.Ok? ==> v.String? && ParseRectVecs(v.text) == Ok((r.value.origin, r.value.extent))
    ensures !v.String? ==> r == Panic(NotAString("textureRect"))
    ensures r.Panic? ==> !r.reason.MissingEntries?
  {
    var text :- StringOf(v, "textureRect");
    var rect :- ParseRectVecs(text);
    Ok(Rect(rect.0, rect.1))
  }

  /** `as_boolean().expect(..)` of the textureRotated value. */
  function RotatedField(v: Plist.Value): (r: Result<bool>)
    ensures r.Ok? <==> v.Boolean?
    ensures r.Ok? ==> v == Plist.Boolean(r.value)
    ensures r.Panic? ==> r.reason == NotABoolean("textureRotated")
  {
    if v.Boolean? then Ok(v.flag) else Panic(NotABoolean("textureRotated"))
  }

  /** `parse_vec` of a size string stored under `key`. */
  function VecField(v: Plist.Value, key: string): (r: Result<(i32, i32)>)
    ensures r.Ok? <==> v.String? && ParseVec(v.text).Ok?
    ensures r.Ok? ==> v.String? && ParseVec(v.text) == Ok(r.value)
    ensures !v.String? ==> r == Panic(NotAString(key))
    ensures r.Panic? ==> !r.reason.MissingEntries?
  {
    var text :- StringOf(v, key);
    ParseVec(text)
  }

  /** `Sprite::initialize` panics with a list of missing entries exactly when
      at least one required key is absent, and the list is exactly those keys. */
  lemma InitializeSpriteMissing(obj: Plist.Value, parseF32: string -> Option<real>)
    ensures !obj.Dictionary? ==> InitializeSprite(obj, parseF32) == Panic(NotADictionary("object"))
    ensures obj.Dictionary? && MissingKeys(obj.entries) != [] ==>
              InitializeSprite(obj, parseF32) == Panic(MissingEntries(MissingKeys(obj.entries)))
    ensures InitializeSprite(obj, parseF32).Panic? && InitializeSprite(obj, parseF32).reason.MissingEntries? ==>
              obj.Dictionary? && MissingKeys(obj.entries) != [] &&
              InitializeSprite(obj, parseF32).reason.keys == MissingKeys(obj.entries)
  {
    if obj.Dictionary? && MissingKeys(obj.entries) == [] {
      MissingKeysInOrder(obj.entries);
      assert InitializeSprite(obj, parseF32) == ReadSprite(obj.entries, parseF32);
    }
  }

  /** `Sprite::initialize` succeeds exactly when the object is a dictionary
      holding all five keys whose values read as fields. */
  lemma InitializeSpriteSpec(obj: Plist.Value, parseF32: string -> Option<real>)
    ensures InitializeSprite(obj, parseF32).Ok? <==>
      obj.Dictionary? && HasRequiredKeys(obj.entries) && ReadSprite(obj.entries, parseF32).Ok?
    ensures obj.Dictionary? && HasRequiredKeys(obj.entries) ==>
      InitializeSprite(obj, parseF32) == ReadSprite(obj.entries, parseF32)
  {
    if obj.Dictionary? {
      MissingKeysInOrder(obj.entries);
    }
  }

  /** A sprite that initializes takes each field from its own key: rect from
      textureRect, size from spriteSize, source size from spriteSourceSize,
      offset from spriteOffset and rotated from textureRotated. */
  lemma InitializeSpriteFields(obj: Plist.Value, parseF32: string -> Option<real>)
    requires InitializeSprite(obj, parseF32).Ok?
    ensures obj.Dictionary? && HasRequiredKeys(obj.entries)
    ensures var d := obj.entries; var s := InitializeSprite(obj, parseF32).value;
      && d["textureRect"].String? && ParseRectVecs(d["textureRect"].text) == Ok((s.rect.origin, s.rect.extent))
      && d["spriteSize"].String? && ParseVec(d["spriteSize"].text) == Ok(s.size)
      && d["spriteSourceSize"].String? && ParseVec(d["spriteSourceSize"].text) == Ok(s.sourceSize)
      && d["spriteOffset"].String? && ParseVecWith(d["spriteOffset"].text, parseF32) == Ok(s.offset)
      && d["textureRotated"] == Plist.Boolean(s.rotated)
  {
    MissingKeysInOrder(obj.entries);
    assert InitializeSprite(obj, parseF32) == ReadSprite(obj.entries, parseF32);
  }

  /** The `frames` and `metadata` dictionaries of a spritesheet object, or
      the panic of the first lookup that fails. */
  function Sections(obj: Plist.Value): (r: Result<(map<string, Plist.Value>, map<string, Plist.Value>)>)
    ensures r.Ok? <==>
      && obj.Dictionary? && "frames" in obj.entries && obj.entries["frames"].Dictionary?
      && "metadata" in obj.entries && obj.entries["metadata"].Dictionary?
    ensures r.Ok? ==> r.value == (obj.entries["frames"].entries, obj.entries["metadata"].entries)
  {
    if !obj.Dictionary? then Panic(NotADictionary("object"))
    else if "frames" !in obj.entries then Panic(MissingKey("frames"))
    else if !obj.entries["frames"].Dictionary? then Panic(NotADictionary("frames"))
    else if "metadata" !in obj.entries then Panic(MissingKey("metadata"))
    else if !obj.entries["metadata"].Dictionary? then Panic(NotADictionary("metadata"))
    else Ok((obj.entries["frames"].entries, obj.entries["metadata"].entries))
  }

  /** Every frame turned into a sprite under the same key by `init`; one
      frame that fails to initialize makes the whole spritesheet fail. */
  function InitializeFrames(frames: map<string, Plist.Value>, init: Plist.Value -> Result<Sprite>): (r: Result<map<string, Sprite>>)
    ensures r.Ok? <==> forall k | k in frames :: init(frames[k]).Ok?
    ensures r.Panic? ==> r.reason == InvalidFrame
    ensures r.Ok? ==> r.value.Keys == frames.Keys
    ensures r.Ok? ==> forall k | k in r.value :: init(frames[k]) == Ok(r.value[k])
  {
    if forall k | k in frames :: init(frames[k]).Ok?
    then Ok(map k | k in frames :: init(frames[k]).value)
    else Panic(InvalidFrame)
  }

  /** The `textureFileName` string and the parsed `size` vector of the metadata. */
  function ReadMetadata(metadata: map<string, Plist.Value>): (r: Result<(string, (i32, i32))>)
    ensures r.Ok? ==> "textureFileName" in metadata && metadata["textureFileName"] == Plist.String(r.value.0)
    ensures r.Ok? ==> "size" in metadata && metadata["size"].String? && ParseVec(metadata["size"].text) == Ok(r.value.1)
    ensures r.Ok? <==>
      && "textureFileName" in metadata && metadata["textureFileName"].String?
      && "size" in metadata && metadata["size"].String? && ParseVec(metadata["size"].text).Ok?
    ensures "textureFileName" !in metadata ==> r == Panic(MissingKey("textureFileName"))
    ensures "textureFileName" in metadata && !metadata["textureFileName"].String? ==>
              r == Panic(NotAString("textureFileName"))
    ensures "textureFileName" in metadata && metadata["textureFileName"].String? && "size" !in metadata ==>
              r == Panic(MissingKey("size"))
    ensures "textureFileName" in metadata && metadata["textureFileName"].String? && "size" in metadata
            && !metadata["size"].String? ==>
              r == Panic(NotAString("size"))
  {
    if "textureFileName" !in metadata then Panic(MissingKey("textureFileName"))
    else
      var fileName :- StringOf(metadata["textureFileName"], "textureFileName");
      if "size" !in metadata then Panic(MissingKey("size"))
      else
        var sizeText :- StringOf(metadata["size"], "size");
        var size :- ParseVec(sizeText);
        Ok((fileName, size))
  }

  /** `Spritesheet::initialize`: `frames` and `metadata` must be dictionaries,
      every frame must initialize, and the metadata must carry a
      `textureFileName` string and a `size` vector. */
  function InitializeSpritesheet(obj: Plist.Value, parseF32: string -> Option<real>): Result<Spritesheet>
  {
    var (frames, metadata) :- Sections(obj);
    var sprites :- InitializeFrames(frames, v => InitializeSprite(v, parseF32));
    var (fileName, size) :- ReadMetadata(metadata);
    Ok(Spritesheet(sprites, fileName, size))
  }

  /** A spritesheet that initializes has one sprite per frame, each the
      frame's own initialization, and the metadata's file name and size; a
      frame that fails to initialize fails the spritesheet. */
  lemma InitializeSpritesheetSpec(obj: Plist.Value, parseF32: string -> Option<real>)
    ensures var r := InitializeSpritesheet(obj, parseF32);
      r.Ok? ==>
        && Sections(obj).Ok?
        && var frames := obj.entries["frames"].entries;
        && r.value.sprites.Keys == frames.Keys
        && (forall k | k in r.value.sprites :: InitializeSprite(frames[k], parseF32) == Ok(r.value.sprites[k]))
        && ReadMetadata(obj.entries["metadata"].entries) == Ok((r.value.textureFileName, r.value.size))
    ensures Sections(obj).Ok? &&
            (exists k | k in obj.entries["frames"].entries ::
               InitializeSprite(obj.entries["frames"].entries[k], parseF32).Panic?)
            ==> InitializeSpritesheet(obj, parseF32) == Panic(InvalidFrame)
    ensures InitializeSpritesheet(obj, parseF32).Ok? <==>
      && Sections(obj).Ok?
      && (forall k | k in obj.entries["frames"].entries ::
            InitializeSprite(obj.entries["frames"].entries[k], parseF32).Ok?)
      && ReadMetadata(obj.entries["metadata"].entries).Ok?
  {
    var r := InitializeSpritesheet(obj, parseF32);
    if Sections(obj).Ok? {
      var frames := obj.entries["frames"].entries;
      var f := InitializeFrames(frames, v => InitializeSprite(v, parseF32));
      if f.Ok? {
        assert r.Ok? ==> r.value.sprites == f.value;
      } else {
        assert r == Panic(InvalidFrame);
      }
    }
  }

  /** The image of a sprite: crop its rect (width and height swapped when the
      sprite was packed rotated), then counter-rotate a rotated crop.  The
      `i32` corners and sizes are reinterpreted as `u32`. */
  function ExtractSprite(img: Image, sprite: Sprite): Image {
    var Rect((left, top), (width, height)) := sprite.rect;
    if sprite.rotated
    then Rotate270(Crop(img, I32AsU32(left), I32AsU32(top), I32AsU32(height), I32AsU32(width)))
    else Crop(img, I32AsU32(left), I32AsU32(top), I32AsU32(width), I32AsU32(height))
  }

  /** The rect of a sprite lies inside the texture, as packed. */
  predicate RectInBounds(img: Image, sprite: Sprite) {
    var Rect((l, t), (w, h)) := sprite.rect;
    0 <= l && 0 <= t && 0 <= w && 0 <= h &&
    if sprite.rotated then l + h <= img.width && t + w <= img.height
    else l + w <= img.width && t + h <= img.height
  }

  /** A sprite whose rect is in bounds comes out w by h whether or not it was
      packed rotated. Unrotated, its pixel (x, y) is the texture's
      (l + x, t + y); rotated, it is the texture's (l + h - 1 - y, t + x). */
  lemma ExtractSpriteGeometry(img: Image, sprite: Sprite)
    requires RectInBounds(img, sprite)
    ensures var Rect((l, t), (w, h)) := sprite.rect; var r := ExtractSprite(img, sprite);
      && r.width == w && r.height == h
      && (!sprite.rotated ==> forall y, x | 0 <= y < h && 0 <= x < w :: r.rows[y][x] == img.rows[t + y][l + x])
      && (sprite.rotated ==> forall y, x | 0 <= y < h && 0 <= x < w :: r.rows[y][x] == img.rows[t + x][l + h - 1 - y])
  {
    var Rect((l, t), (w, h)) := sprite.rect;
    if sprite.rotated {
      CropInBounds(img, l, t, h, w);
    } else {
      CropInBounds(img, l, t, w, h);
    }
  }

  /** A negative left edge wraps around to a huge unsigned one, so the crop
      starts past the texture and the sprite comes out empty. */
  lemma ExtractSpriteNegativeLeft(img: Image, sprite: Sprite)
    requires sprite.rect.origin.0 < 0 && img.width <= I32_MAX
    ensures !sprite.rotated ==> ExtractSprite(img, sprite).width == 0
    ensures sprite.rotated ==> ExtractSprite(img, sprite).height == 0
  {
  }

  /** What `get_sprite` returns for a key. */
  function SpriteAt(sheet: Spritesheet, img: Image, key: string): Option<(Image, Sprite)> {
    if key in sheet.sprites then Some((ExtractSprite(img, sheet.sprites[key]), sheet.sprites[key]))
    else None
  }

  /** `get_sprite` finds nothing exactly when the key is absent; otherwise it
      hands back the stored metadata unchanged with the extracted image. */
  lemma SpriteAtSpec(sheet: Spritesheet, img: Image, key: string)
    ensures SpriteAt(sheet, img, key).None? <==> key !in sheet.sprites
    ensures SpriteAt(sheet, img, key).Some? ==>
              SpriteAt(sheet, img, key).value.1 == sheet.sprites[key] &&
              (RectInBounds(img, sheet.sprites[key]) ==>
                 SpriteAt(sheet, img, key).value.0.width == sheet.sprites[key].rect.extent.0 &&
                 SpriteAt(sheet, img, key).value.0.height == sheet.sprites[key].rect.extent.1)
  {
    if key in sheet.sprites && RectInBounds(img, sheet.sprites[key]) {
      ExtractSpriteGeometry(img, sheet.sprites[key]);
    }
  }

  /** `get_sprite`: crops the sprite's rectangle out of the texture step by step. */
  method GetSprite(sheet: Spritesheet, img: Image, key: string) returns (r: Option<(Image, Sprite)>)
    ensures r == SpriteAt(sheet, img, key)
  {
    var canvas := img;
    if key !in sheet.sprites {
      return None;
    }
    var sprite := sheet.sprites[key];
    var rect := sprite.rect;
    var left, top, width, height := rect.origin.0, rect.origin.1, rect.extent.0, rect.extent.1;
    if sprite.rotated {
      width, height := height, width;
    }
    canvas := Crop(canvas, I32AsU32(left), I32AsU32(top), I32AsU32(width), I32AsU32(height));
    if sprite.rotated {
      canvas := Rotate270(canvas);
    }
    return Some((canvas, sprite));
  }

  /** `get_sprite_from_loaded`: `get_sprite` on the loaded sheet and its texture. */
  method GetSpriteFromLoaded(loaded: LoadedSpritesheet, key: string) returns (r: Option<(Image, Sprite)>)
    ensures r == SpriteAt(loaded.spritesheet, loaded.texture, key)
  {
    var texture := loaded.texture;
    r := GetSprite(loaded.spritesheet, texture, key);
  }
}
