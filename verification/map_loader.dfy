/** `MapLoader`: a `.tmx` map document becomes a `RawMapData` with the floor grid,
    the objects of the object group (placed in tiles) and the tileset to load. */
module MapLoader {
  import opened Wrappers
  import opened Numbers
  import opened Xml
  import opened MapRecords
  import opened Properties
  import opened Grid
  import opened PathResolver
  import opened Assets

  // ------------------------------------------------------------ placement

  function Saturate(n: nat): (t: u16)
    ensures t == if n < U16_LIMIT then n else U16_LIMIT - 1
  {
    if n < U16_LIMIT then n else U16_LIMIT - 1
  }

  /** `m * 10^e`. */
  function Scaled(m: nat, e: nat): (r: nat)
    ensures m > 0 ==> r > 0
  {
    if e == 0 then m else 10 * Scaled(m, e - 1)
  }

  /** The quotient `m * 10^e / w` as a fraction of naturals: `10^e` joins the
      numerator when `e >= 0` and `10^-e` joins the denominator otherwise. */
  function PixelRatio(m: nat, e: int, tileWidth: nat): (f: (nat, nat))
    ensures tileWidth > 0 ==> f.1 > 0
  {
    if e >= 0 then (Scaled(m, e), tileWidth) else (m, Scaled(tileWidth, -e))
  }

  /** Division of naturals, rounding down. */
  function Quotient(num: nat, den: nat): (q: nat)
    requires den > 0
    ensures q * den <= num < (q + 1) * den
  {
    num / den
  }

  /** `(px / f64::from(tile_width)) as u16`: the division truncated toward zero, then
      saturated into `u16`; NaN, negative values and `-inf` give 0, `+inf` (including
      a positive value over a zero tile width) gives the largest `u16`. */
  function PixelToTile(px: FloatValue, tileWidth: u16): u16
  {
    match px
    case NaN => 0
    case Infinite(negative) => if negative then 0 else Saturate(U16_LIMIT)
    case Finite(negative, m, e) =>
      if negative || m == 0 then 0
      else if tileWidth == 0 then Saturate(U16_LIMIT)
      else
        var f := PixelRatio(m, e, tileWidth);
        Saturate(Quotient(f.0, f.1))
  }

  /** For a positive pixel value `m * 10^e` and a positive tile width `w`, the tile is the
      largest `t` with `t * w <= m * 10^e` (cross-multiplied by `10^-e` when `e < 0`),
      unless that is past the largest `u16`, where the tile saturates. */
  lemma PixelToTileTruncates(m: nat, e: int, tileWidth: u16)
    requires m > 0 && tileWidth > 0
    ensures var t := PixelToTile(Finite(false, m, e), tileWidth);
      var f := PixelRatio(m, e, tileWidth);
      (t < U16_LIMIT - 1 ==> t * f.1 <= f.0 < (t + 1) * f.1) &&
      (t == U16_LIMIT - 1 <==> f.0 >= (U16_LIMIT - 1) * f.1)
  {
    var f := PixelRatio(m, e, tileWidth);
    SaturatedQuotient(f.0, f.1, U16_LIMIT - 1);
  }

  /** The quotient reaches `limit` exactly when the numerator reaches `limit` denominators. */
  lemma SaturatedQuotient(num: nat, den: nat, limit: nat)
    requires den > 0
    ensures Quotient(num, den) >= limit <==> num >= limit * den
  {
    var q := Quotient(num, den);
    if q >= limit {
      MulMonotone(limit, q, den);
    } else {
      MulMonotone(q + 1, limit, den);
    }
  }

  lemma MulMonotone(a: nat, b: nat, d: nat)
    requires a <= b
    ensures a * d <= b * d
  {
  }

  /** A whole pixel offset lands in the tile that contains it: tile `t` covers pixels
      `t * w` up to but not including `(t + 1) * w`. */
  lemma WholePixelPlacement(px: nat, tileWidth: u16)
    requires tileWidth > 0 && px / tileWidth < U16_LIMIT - 1
    ensures var t := PixelToTile(Finite(false, px, 0), tileWidth);
      t * tileWidth <= px < (t + 1) * tileWidth
  {
    if px > 0 {
      PixelToTileTruncates(px, 0, tileWidth);
    }
  }

  /** The pixel texts a map editor writes for whole offsets parse to the offset itself. */
  lemma ParseWholePixels(px: nat)
    ensures ParseF64(NatToDecimal(px)) == Some(Finite(false, px, 0))
  {
    var s := NatToDecimal(px);
    WholeNumber(s);
    DigitLedIsNoWord(s);
    assert s[0] != '-' && s[0] != '+';
  }

  /** Digits alone are a number with exponent 0. */
  lemma WholeNumber(s: string)
    requires |s| >= 1 && AllDigits(s)
    ensures ParseDecimalNumber(s) == Some((DigitsValue(s), 0))
  {
    assert FirstIndex(s, IsExponentMark, true) == None;
    assert FirstIndex(s, IsDecimalPoint, true) == None;
    assert s + "" == s;
  }

  /** `48` pixels on 16-pixel tiles is tile 3. */
  lemma PlacementExample()
    ensures PixelToTile(ParseF64("48").value, 16) == 3
  {
    ParseWholePixels(48);
    assert NatToDecimal(48) == "48";
  }

  // ------------------------------------------------------------ objects

  /** One element of the object group: its properties, then `id`, `template` (which is
      loaded), `x` and `y`, in the order the source reads them. */
  function DecodeObject(obj: Node, tileWidth: u16, assetPath: string): Result<ObjectReference, LoadError>
  {
    var properties :- PropertiesOf(FindDescendant(obj, "properties"));
    var idText :- Need(Attribute(obj, "id"), MissingAttribute("object", "id"));
    var id :- Need(ParseU16(idText), BadValue("id", idText));
    var template :- Need(Attribute(obj, "template"), MissingAttribute("object", "template"));
    var xText :- Need(Attribute(obj, "x"), MissingAttribute("object", "x"));
    var x :- Need(ParseF64(xText), BadValue("x", xText));
    var yText :- Need(Attribute(obj, "y"), MissingAttribute("object", "y"));
    var y :- Need(ParseF64(yText), BadValue("y", yText));
    Ok(ObjectReference(id, Handle(AsWrittenProjectPath(template, assetPath)),
      PixelToTile(x, tileWidth), PixelToTile(y, tileWidth), properties))
  }

  /** The template load an object issues: it happens once the properties, the `id` and
      the `template` attribute have been read, before `x` and `y` are. */
  function TemplateRequest(obj: Node, assetPath: string): Option<string>
  {
    if PropertiesOf(FindDescendant(obj, "properties")).Err? then None
    else if Attribute(obj, "id").None? || ParseU16(Attribute(obj, "id").value).None? then None
    else if Attribute(obj, "template").None? then None
    else Some(AsWrittenProjectPath(Attribute(obj, "template").value, assetPath))
  }

  /** A decoded object has issued exactly the load of its own template. */
  lemma DecodedObjectRequestedItsTemplate(obj: Node, tileWidth: u16, assetPath: string)
    ensures DecodeObject(obj, tileWidth, assetPath).Ok? ==>
      TemplateRequest(obj, assetPath) == Some(DecodeObject(obj, tileWidth, assetPath).value.template.path)
  {
  }

  function ObjectDecoder(tileWidth: u16, assetPath: string): Node -> Result<ObjectReference, LoadError>
  {
    obj => DecodeObject(obj, tileWidth, assetPath)
  }

  /** The loads issued while decoding the object group's children, in order, up to and
      including the object that fails, if one does. */
  function ObjectRequests(objs: seq<Node>, tileWidth: u16, assetPath: string): seq<string>
  {
    if objs == [] then []
    else
      var init := objs[..|objs| - 1];
      var last := objs[|objs| - 1];
      var before := ObjectRequests(init, tileWidth, assetPath);
      if CollectElements(init, ObjectDecoder(tileWidth, assetPath)).Err? || !last.Element? then before
      else before + AsSeq(TemplateRequest(last, assetPath))
  }

  lemma {:induction false} ObjectRequestsStopAtFailure(objs: seq<Node>, i: nat, tileWidth: u16, assetPath: string)
    requires i <= |objs|
    requires CollectElements(objs[..i], ObjectDecoder(tileWidth, assetPath)).Err?
    ensures ObjectRequests(objs, tileWidth, assetPath) == ObjectRequests(objs[..i], tileWidth, assetPath)
    decreases |objs| - i
  {
    if i < |objs| {
      CollectElementsFailedStep(objs, i, ObjectDecoder(tileWidth, assetPath));
      ObjectRequestsStep(objs, i, tileWidth, assetPath);
      ObjectRequestsStopAtFailure(objs, i + 1, tileWidth, assetPath);
    } else {
      assert objs[..i] == objs;
    }
  }

  /** The template paths of the objects, in order. */
  function TemplatePaths(objects: seq<ObjectReference>): (ps: seq<string>)
    ensures |ps| == |objects| && forall k :: 0 <= k < |objects| ==> ps[k] == objects[k].template.path
  {
    seq(|objects|, k requires 0 <= k < |objects| => objects[k].template.path)
  }

  /** When every object decodes, the loads issued are the objects' templates, one per
      object and in the same order. */
  lemma {:induction false} ObjectRequestsOnSuccess(objs: seq<Node>, tileWidth: u16, assetPath: string)
    requires CollectElements(objs, ObjectDecoder(tileWidth, assetPath)).Ok?
    ensures ObjectRequests(objs, tileWidth, assetPath) ==
      TemplatePaths(CollectElements(objs, ObjectDecoder(tileWidth, assetPath)).value)
  {
    if objs != [] {
      var dec := ObjectDecoder(tileWidth, assetPath);
      var init := objs[..|objs| - 1];
      var last := objs[|objs| - 1];
      assert CollectElements(init, dec).Ok?;
      ObjectRequestsOnSuccess(init, tileWidth, assetPath);
      var before := CollectElements(init, dec).value;
      if last.Element? {
        DecodedObjectRequestedItsTemplate(last, tileWidth, assetPath);
        assert CollectElements(objs, dec).value == before + [DecodeObject(last, tileWidth, assetPath).value];
        assert TemplatePaths(before + [DecodeObject(last, tileWidth, assetPath).value]) ==
          TemplatePaths(before) + [DecodeObject(last, tileWidth, assetPath).value.template.path];
      }
    }
  }

  /** One iteration of the object loop. */
  method LoadObject(ctx: LoadContext, obj: Node, tileWidth: u16) returns (r: Result<ObjectReference, LoadError>)
    modifies ctx
    ensures r == DecodeObject(obj, tileWidth, ctx.assetPath)
    ensures ctx.requests == old(ctx.requests) + AsSeq(TemplateRequest(obj, ctx.assetPath))
  {
    var properties := DecodeProperties(FindDescendant(obj, "properties"));
    if properties.Err? {
      return Err(properties.error);
    }
    var idText := Attribute(obj, "id");
    if idText.None? {
      return Err(MissingAttribute("object", "id"));
    }
    var id := ParseU16(idText.value);
    if id.None? {
      return Err(BadValue("id", idText.value));
    }
    var template := Attribute(obj, "template");
    if template.None? {
      return Err(MissingAttribute("object", "template"));
    }
    var templatePath := LocalPathToProjectPath(template.value, ctx.assetPath);
    var handle := ctx.Load(templatePath);
    var xText := Attribute(obj, "x");
    if xText.None? {
      return Err(MissingAttribute("object", "x"));
    }
    var x := ParseF64(xText.value);
    if x.None? {
      return Err(BadValue("x", xText.value));
    }
    var yText := Attribute(obj, "y");
    if yText.None? {
      return Err(MissingAttribute("object", "y"));
    }
    var y := ParseF64(yText.value);
    if y.None? {
      return Err(BadValue("y", yText.value));
    }
    r := Ok(ObjectReference(id.value, handle,
      PixelToTile(x.value, tileWidth), PixelToTile(y.value, tileWidth), properties.value));
  }

  /** The loads of one more child: its template load, when it is an element reached
      while every earlier element decoded. */
  lemma ObjectRequestsStep(objs: seq<Node>, i: nat, tileWidth: u16, assetPath: string)
    requires i < |objs|
    ensures ObjectRequests(objs[..i + 1], tileWidth, assetPath) ==
      ObjectRequests(objs[..i], tileWidth, assetPath) +
      (if CollectElements(objs[..i], ObjectDecoder(tileWidth, assetPath)).Ok? && objs[i].Element?
       then AsSeq(TemplateRequest(objs[i], assetPath)) else [])
  {
    var next := objs[..i + 1];
    assert next[..i] == objs[..i] && next[i] == objs[i];
  }

  /** One child of the object group: a non-element is skipped; an element is decoded
      (issuing its template load) and appended to the objects decoded so far. */
  method LoadChild(ctx: LoadContext, children: seq<Node>, i: nat, tileWidth: u16,
                   objects: seq<ObjectReference>, ghost before: seq<string>)
    returns (r: Result<seq<ObjectReference>, LoadError>)
    requires i < |children|
    requires CollectElements(children[..i], ObjectDecoder(tileWidth, ctx.assetPath)) == Ok(objects)
    requires ctx.requests == before + ObjectRequests(children[..i], tileWidth, ctx.assetPath)
    modifies ctx
    ensures r == CollectElements(children[..i + 1], ObjectDecoder(tileWidth, ctx.assetPath))
    ensures ctx.requests == before + ObjectRequests(children[..i + 1], tileWidth, ctx.assetPath)
  {
    CollectElementsStep(children, i, ObjectDecoder(tileWidth, ctx.assetPath), objects);
    ObjectRequestsStep(children, i, tileWidth, ctx.assetPath);
    if !children[i].Element? {
      return Ok(objects);
    }
    var o := LoadObject(ctx, children[i], tileWidth);
    if o.Err? {
      return Err(o.error);
    }
    r := Ok(objects + [o.value]);
  }

  /** The loop over the object group's children: non-elements are skipped, each element
      becomes one object, the first failure ends the load. */
  method LoadObjects(ctx: LoadContext, group: Node, tileWidth: u16) returns (r: Result<seq<ObjectReference>, LoadError>)
    modifies ctx
    ensures r == CollectElements(Children(group), ObjectDecoder(tileWidth, ctx.assetPath))
    ensures ctx.requests == old(ctx.requests) + ObjectRequests(Children(group), tileWidth, ctx.assetPath)
  {
    var children := Children(group);
    var objects: seq<ObjectReference> := [];
    for i := 0 to |children|
      invariant CollectElements(children[..i], ObjectDecoder(tileWidth, ctx.assetPath)) == Ok(objects)
      invariant ctx.requests == old(ctx.requests) + ObjectRequests(children[..i], tileWidth, ctx.assetPath)
    {
      var next := LoadChild(ctx, children, i, tileWidth, objects, old(ctx.requests));
      if next.Err? {
        CollectElementsStopsAtFailure(children, i + 1, ObjectDecoder(tileWidth, ctx.assetPath));
        ObjectRequestsStopAtFailure(children, i + 1, tileWidth, ctx.assetPath);
        return next;
      }
      objects := next.value;
    }
    assert children[..|children|] == children;
    r := Ok(objects);
  }

  // ------------------------------------------------------------ the map

  /** `w * h`, the length of the floor buffer. */
  function CellCount(w: usize, h: usize): nat
  {
    w * h
  }

  /** Everything the map loader reads before the objects. */
  datatype Prelude = Prelude(tileWidth: u16, width: usize, height: usize, data: seq<u8>, group: Node)

  /** The `map` element's `tilewidth`, the `layer` and its `data` text, the layer's
      `width` and `height`, the grid, and the `objectgroup` element, in that order. */
  function MapPrelude(doc: Node): (r: Result<Prelude, LoadError>)
    ensures r.Ok? ==> |r.value.data| == CellCount(r.value.width, r.value.height)
  {
    var mapElm :- Need(FindDescendant(doc, "map"), MissingElement("map"));
    var twText :- Need(Attribute(mapElm, "tilewidth"), MissingAttribute("map", "tilewidth"));
    var tileWidth :- Need(ParseU16(twText), BadValue("tilewidth", twText));
    var layer :- Need(FindDescendant(doc, "layer"), MissingElement("layer"));
    var dataElm :- Need(FindDescendant(doc, "data"), MissingElement("data"));
    var text :- Need(TextOf(dataElm), MissingText("data"));
    var wText :- Need(Attribute(layer, "width"), MissingAttribute("layer", "width"));
    var w :- Need(ParseUsize(wText), BadValue("width", wText));
    var hText :- Need(Attribute(layer, "height"), MissingAttribute("layer", "height"));
    var h :- Need(ParseUsize(hText), BadValue("height", hText));
    if CellCount(w, h) > ISIZE_MAX then Err(SizeOverflow(w, h))
    else
      var data :- DecodeGridSpec(Tokens(text), CellCount(w, h));
      GridCells(Tokens(text), CellCount(w, h));
      var group :- Need(FindDescendant(doc, "objectgroup"), MissingElement("objectgroup"));
      Ok(Prelude(tileWidth, w, h, data, group))
  }

  /** `MapLoader::load` on a parsed document. */
  function ParseMap(doc: Node, assetPath: string): Result<RawMapData, LoadError>
  {
    var pre :- MapPrelude(doc);
    MapAfterPrelude(doc, assetPath, pre)
  }

  /** The rest of `MapLoader::load` once the reads before the objects have succeeded:
      the objects, then the tileset. */
  function MapAfterPrelude(doc: Node, assetPath: string, pre: Prelude): Result<RawMapData, LoadError>
  {
    var objects :- CollectElements(Children(pre.group), ObjectDecoder(pre.tileWidth, assetPath));
    var tileset :- Need(FindDescendant(doc, "tileset"), MissingElement("tileset"));
    var source :- Need(Attribute(tileset, "source"), MissingAttribute("tileset", "source"));
    Ok(RawMapData(pre.width, pre.height, pre.data, objects, Handle(AsWrittenProjectPath(source, assetPath))))
  }

  /** The loads the map loader issues: the templates of the objects it gets through,
      then, if it gets that far, the tileset. */
  function MapRequests(doc: Node, assetPath: string): seq<string>
  {
    match MapPrelude(doc)
    case Err(_) => []
    case Ok(pre) => RequestsAfterPrelude(doc, assetPath, pre)
  }

  /** The loads issued once the reads before the objects have succeeded. */
  function RequestsAfterPrelude(doc: Node, assetPath: string, pre: Prelude): seq<string>
  {
    var objs := Children(pre.group);
    var templates := ObjectRequests(objs, pre.tileWidth, assetPath);
    if CollectElements(objs, ObjectDecoder(pre.tileWidth, assetPath)).Err? then templates
    else
      var tileset := FindDescendant(doc, "tileset");
      if tileset.None? || Attribute(tileset.value, "source").None? then templates
      else templates + [AsWrittenProjectPath(Attribute(tileset.value, "source").value, assetPath)]
  }

  method ReadMapPrelude(doc: Node) returns (r: Result<Prelude, LoadError>)
    ensures r == MapPrelude(doc)
  {
    var mapElm := FindDescendant(doc, "map");
    if mapElm.None? {
      return Err(MissingElement("map"));
    }
    var twText := Attribute(mapElm.value, "tilewidth");
    if twText.None? {
      return Err(MissingAttribute("map", "tilewidth"));
    }
    var tileWidth := ParseU16(twText.value);
    if tileWidth.None? {
      return Err(BadValue("tilewidth", twText.value));
    }
    var layer := FindDescendant(doc, "layer");
    if layer.None? {
      return Err(MissingElement("layer"));
    }
    var dataElm := FindDescendant(doc, "data");
    if dataElm.None? {
      return Err(MissingElement("data"));
    }
    var text := TextOf(dataElm.value);
    if text.None? {
      return Err(MissingText("data"));
    }
    var tokens := Tokens(text.value);
    var wText := Attribute(layer.value, "width");
    if wText.None? {
      return Err(MissingAttribute("layer", "width"));
    }
    var w := ParseUsize(wText.value);
    if w.None? {
      return Err(BadValue("width", wText.value));
    }
    var hText := Attribute(layer.value, "height");
    if hText.None? {
      return Err(MissingAttribute("layer", "height"));
    }
    var h := ParseUsize(hText.value);
    if h.None? {
      return Err(BadValue("height", hText.value));
    }
    var cells := CellCount(w.value, h.value);
    if cells > ISIZE_MAX {
      return Err(SizeOverflow(w.value, h.value));
    }
    var data := DecodeGrid(tokens, cells);
    if data.Err? {
      return Err(data.error);
    }
    var group := FindDescendant(doc, "objectgroup");
    if group.None? {
      return Err(MissingElement("objectgroup"));
    }
    r := Ok(Prelude(tileWidth.value, w.value, h.value, data.value, group.value));
  }

  /** `MapLoader::load`, with its loads issued through `ctx`. */
  method LoadMap(ctx: LoadContext, doc: Node) returns (r: Result<RawMapData, LoadError>)
    modifies ctx
    ensures r == ParseMap(doc, ctx.assetPath)
    ensures ctx.requests == old(ctx.requests) + MapRequests(doc, ctx.assetPath)
  {
    var pre := ReadMapPrelude(doc);
    if pre.Err? {
      return Err(pre.error);
    }
    r := LoadAfterPrelude(ctx, doc, pre.value);
  }

  /** The objects and the tileset, once the reads before them have succeeded. */
  method LoadAfterPrelude(ctx: LoadContext, doc: Node, pre: Prelude) returns (r: Result<RawMapData, LoadError>)
    modifies ctx
    ensures r == MapAfterPrelude(doc, ctx.assetPath, pre)
    ensures ctx.requests == old(ctx.requests) + RequestsAfterPrelude(doc, ctx.assetPath, pre)
  {
    ghost var templates := ObjectRequests(Children(pre.group), pre.tileWidth, ctx.assetPath);
    var objects := LoadObjects(ctx, pre.group, pre.tileWidth);
    if objects.Err? {
      return Err(objects.error);
    }
    var tileset := FindDescendant(doc, "tileset");
    if tileset.None? {
      return Err(MissingElement("tileset"));
    }
    var source := Attribute(tileset.value, "source");
    if source.None? {
      return Err(MissingAttribute("tileset", "source"));
    }
    var sheetPath := LocalPathToProjectPath(source.value, ctx.assetPath);
    var sheet := ctx.Load(sheetPath);
    assert RequestsAfterPrelude(doc, ctx.assetPath, pre) == templates + [sheetPath];
    r := Ok(RawMapData(pre.width, pre.height, pre.data, objects.value, sheet));
  }

  // ------------------------------------------------------------ what a loaded map holds

  /** A loaded map has issued one load per object, for its template, in object order,
      and then one for its tileset; every handle in the map names one of those loads. */
  lemma MapRequestsOnSuccess(doc: Node, assetPath: string)
    requires ParseMap(doc, assetPath).Ok?
    ensures var m := ParseMap(doc, assetPath).value;
      MapRequests(doc, assetPath) == TemplatePaths(m.objects) + [m.spriteSheet.path]
  {
    var pre := MapPrelude(doc).value;
    ObjectRequestsOnSuccess(Children(pre.group), pre.tileWidth, assetPath);
  }

  /** Without an `objectgroup` element the map fails to load and issues no load at all. */
  lemma MissingObjectGroupFatal(doc: Node, assetPath: string)
    requires FindDescendant(doc, "objectgroup").None?
    ensures ParseMap(doc, assetPath).Err?
    ensures MapRequests(doc, assetPath) == []
  {
    assert MapPrelude(doc).Err?;
  }

  /** Without a `tileset` element the map fails to load, with that as the reason once the
      objects decode, and the only loads issued are the objects' templates. */
  lemma MissingTilesetFatal(doc: Node, assetPath: string)
    requires FindDescendant(doc, "tileset").None?
    ensures ParseMap(doc, assetPath).Err?
    ensures MapRequests(doc, assetPath) ==
      if MapPrelude(doc).Err? then []
      else ObjectRequests(Children(MapPrelude(doc).value.group), MapPrelude(doc).value.tileWidth, assetPath)
    ensures (MapPrelude(doc).Ok? &&
      CollectElements(Children(MapPrelude(doc).value.group),
        ObjectDecoder(MapPrelude(doc).value.tileWidth, assetPath)).Ok?) ==>
      ParseMap(doc, assetPath) == Err(MissingElement("tileset"))
  {
  }

  /** A loaded map's grid has one cell per tile of the layer, `width * height`. */
  lemma MapGridSize(doc: Node, assetPath: string)
    requires ParseMap(doc, assetPath).Ok?
    ensures var m := ParseMap(doc, assetPath).value;
      |m.data| == CellCount(m.width, m.height)
  {
  }

  /** Objects are placed with the `map` element's `tilewidth`, not the tileset's. */
  lemma MapTileWidth(doc: Node, assetPath: string)
    requires MapPrelude(doc).Ok?
    ensures var mapElm := FindDescendant(doc, "map");
      mapElm.Some? && Attribute(mapElm.value, "tilewidth").Some? &&
      ParseU16(Attribute(mapElm.value, "tilewidth").value) == Some(MapPrelude(doc).value.tileWidth)
  {
  }

  /** The objects of a loaded map are the element children of the object group, one
      each and in document order, every one decoded with the map's tile width. */
  lemma MapObjectsInOrder(doc: Node, assetPath: string)
    requires ParseMap(doc, assetPath).Ok?
    ensures var objects := ParseMap(doc, assetPath).value.objects;
      var pre := MapPrelude(doc).value;
      var es := Elements(Children(pre.group));
      |objects| == |es| &&
      forall k :: 0 <= k < |es| ==> DecodeObject(es[k], pre.tileWidth, assetPath) == Ok(objects[k])
  {
    var pre := MapPrelude(doc).value;
    var dec := ObjectDecoder(pre.tileWidth, assetPath);
    assert ParseMap(doc, assetPath).value.objects == CollectElements(Children(pre.group), dec).value;
    CollectElementsInOrder(Children(pre.group), dec);
  }

  /** A decoded object sits at the tile its `x` and `y` pixel offsets fall in. */
  lemma ObjectPlacement(obj: Node, tileWidth: u16, assetPath: string)
    requires DecodeObject(obj, tileWidth, assetPath).Ok?
    ensures var o := DecodeObject(obj, tileWidth, assetPath).value;
      Attribute(obj, "x").Some? && ParseF64(Attribute(obj, "x").value).Some? &&
      Attribute(obj, "y").Some? && ParseF64(Attribute(obj, "y").value).Some? &&
      o.x == PixelToTile(ParseF64(Attribute(obj, "x").value).value, tileWidth) &&
      o.y == PixelToTile(ParseF64(Attribute(obj, "y").value).value, tileWidth)
  {
  }
}
