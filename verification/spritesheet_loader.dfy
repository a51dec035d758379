/** `SpriteSheetLoader`: a `.tsx` tileset document becomes a `SpritesheetData` with the
    tile width, the column count and the image to load. */
module SpritesheetLoader {
  import opened Wrappers
  import opened Numbers
  import opened Xml
  import opened MapRecords
  import opened PathResolver
  import opened Assets

  /** The first `tileset` element, its `tilewidth` (a byte) and `columns`, then the
      `source` of the first `image` inside that tileset, in that order. */
  function ParseSpritesheet(doc: Node, assetPath: string): Result<SpritesheetData, LoadError>
  {
    var tileset :- Need(FindDescendant(doc, "tileset"), MissingElement("tileset"));
    var twText :- Need(Attribute(tileset, "tilewidth"), MissingAttribute("tileset", "tilewidth"));
    var tileWidth :- Need(ParseU8(twText), BadValue("tilewidth", twText));
    var colText :- Need(Attribute(tileset, "columns"), MissingAttribute("tileset", "columns"));
    var columns :- Need(ParseU32(colText), BadValue("columns", colText));
    var image :- Need(FindDescendant(tileset, "image"), MissingElement("image"));
    var source :- Need(Attribute(image, "source"), MissingAttribute("image", "source"));
    Ok(SpritesheetData(tileWidth, columns, Handle(AsWrittenProjectPath(source, assetPath))))
  }

  /** The one load the loader issues, for the image, once everything else has been read. */
  function SpritesheetRequests(doc: Node, assetPath: string): (reqs: seq<string>)
  {
    match ParseSpritesheet(doc, assetPath)
    case Ok(sheet) => [sheet.sprite.path]
    case Err(_) => []
  }

  /** `SpriteSheetLoader::load` on a parsed document, with its load issued through `ctx`. */
  method LoadSpritesheet(ctx: LoadContext, doc: Node) returns (r: Result<SpritesheetData, LoadError>)
    modifies ctx
    ensures r == ParseSpritesheet(doc, ctx.assetPath)
    ensures ctx.requests == old(ctx.requests) + SpritesheetRequests(doc, ctx.assetPath)
  {
    var tileset := FindDescendant(doc, "tileset");
    if tileset.None? {
      return Err(MissingElement("tileset"));
    }
    var twText := Attribute(tileset.value, "tilewidth");
    if twText.None? {
      return Err(MissingAttribute("tileset", "tilewidth"));
    }
    var tileWidth := ParseU8(twText.value);
    if tileWidth.None? {
      return Err(BadValue("tilewidth", twText.value));
    }
    var colText := Attribute(tileset.value, "columns");
    if colText.None? {
      return Err(MissingAttribute("tileset", "columns"));
    }
    var columns := ParseU32(colText.value);
    if columns.None? {
      return Err(BadValue("columns", colText.value));
    }
    var image := FindDescendant(tileset.value, "image");
    if image.None? {
      return Err(MissingElement("image"));
    }
    var source := Attribute(image.value, "source");
    if source.None? {
      return Err(MissingAttribute("image", "source"));
    }
    var imagePath := LocalPathToProjectPath(source.value, ctx.assetPath);
    var sprite := ctx.Load(imagePath);
    r := Ok(SpritesheetData(tileWidth.value, columns.value, sprite));
  }

  /** A tileset document as a map editor writes it. */
  function SpritesheetDocument(tileWidth: u8, columns: u32, imageSource: string): Node
  {
    Element("tileset", map["tilewidth" := NatToDecimal(tileWidth), "columns" := NatToDecimal(columns)],
      [Element("image", map["source" := imageSource], [])])
  }

  /** Every tile width, column count and image path reads back from its document, the
      image path resolved against the tileset's own path. */
  lemma SpritesheetRoundTrip(tileWidth: u8, columns: u32, imageSource: string, assetPath: string)
    ensures ParseSpritesheet(SpritesheetDocument(tileWidth, columns, imageSource), assetPath) ==
      Ok(SpritesheetData(tileWidth, columns, Handle(AsWrittenProjectPath(imageSource, assetPath))))
  {
    var doc := SpritesheetDocument(tileWidth, columns, imageSource);
    ParseUnsignedRoundTrip(tileWidth, U8_LIMIT);
    ParseUnsignedRoundTrip(columns, U32_LIMIT);
    assert FindDescendant(doc, "tileset") == Some(doc);
    assert FindDescendant(doc.children[0], "image") == Some(doc.children[0]);
    assert FindDescendant(doc, "image") == Some(doc.children[0]);
  }

  /** A tile width past 255 is refused: the tileset's tile width is a byte. */
  lemma WideTilesRefused(doc: Node, assetPath: string, width: nat)
    requires width >= U8_LIMIT
    requires FindDescendant(doc, "tileset").Some?
    requires Attribute(FindDescendant(doc, "tileset").value, "tilewidth") == Some(NatToDecimal(width))
    ensures ParseSpritesheet(doc, assetPath) == Err(BadValue("tilewidth", NatToDecimal(width)))
    ensures SpritesheetRequests(doc, assetPath) == []
  {
    assert ParseUnsigned(NatToDecimal(width), U8_LIMIT) == None;
  }

  /** A tileset document without a `tileset` element, or without an `image` inside its
      first `tileset`, fails to load and loads no image. */
  lemma MissingElementsFatal(doc: Node, assetPath: string)
    ensures FindDescendant(doc, "tileset").None? ==>
      ParseSpritesheet(doc, assetPath) == Err(MissingElement("tileset")) &&
      SpritesheetRequests(doc, assetPath) == []
    ensures (FindDescendant(doc, "tileset").Some? &&
      FindDescendant(FindDescendant(doc, "tileset").value, "image").None?) ==>
      ParseSpritesheet(doc, assetPath).Err? && SpritesheetRequests(doc, assetPath) == []
  {
  }
}
