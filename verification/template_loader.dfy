/** `TemplateLoader`: a `.tx` object template becomes a `TemplateData` with the tileset
    to load, the sprite index and the template's properties. */
module TemplateLoader {
  import opened Wrappers
  import opened Numbers
  import opened Xml
  import opened MapRecords
  import opened Properties
  import opened PathResolver
  import opened Assets

  /** The first `tileset` and its `source`, the first `object` and its `gid`, then the
      first `properties` element anywhere in the document, in that order. */
  function ParseTemplate(doc: Node, assetPath: string): Result<TemplateData, LoadError>
  {
    var tileset :- Need(FindDescendant(doc, "tileset"), MissingElement("tileset"));
    var source :- Need(Attribute(tileset, "source"), MissingAttribute("tileset", "source"));
    var obj :- Need(FindDescendant(doc, "object"), MissingElement("object"));
    var gidText :- Need(Attribute(obj, "gid"), MissingAttribute("object", "gid"));
    var spriteIdx :- Need(ParseU32(gidText), BadValue("gid", gidText));
    var properties :- PropertiesOf(FindDescendant(doc, "properties"));
    Ok(TemplateData(Handle(AsWrittenProjectPath(source, assetPath)), spriteIdx, properties))
  }

  /** The one load the loader issues, for the tileset, after the properties are read:
      its path is resolved first, but the load waits for the end. */
  function TemplateRequests(doc: Node, assetPath: string): (reqs: seq<string>)
  {
    match ParseTemplate(doc, assetPath)
    case Ok(t) => [t.spriteSheet.path]
    case Err(_) => []
  }

  /** `TemplateLoader::load` on a parsed document, with its load issued through `ctx`. */
  method LoadTemplate(ctx: LoadContext, doc: Node) returns (r: Result<TemplateData, LoadError>)
    modifies ctx
    ensures r == ParseTemplate(doc, ctx.assetPath)
    ensures ctx.requests == old(ctx.requests) + TemplateRequests(doc, ctx.assetPath)
  {
    var tileset := FindDescendant(doc, "tileset");
    if tileset.None? {
      return Err(MissingElement("tileset"));
    }
    var source := Attribute(tileset.value, "source");
    if source.None? {
      return Err(MissingAttribute("tileset", "source"));
    }
    var sheetPath := LocalPathToProjectPath(source.value, ctx.assetPath);
    var obj := FindDescendant(doc, "object");
    if obj.None? {
      return Err(MissingElement("object"));
    }
    var gidText := Attribute(obj.value, "gid");
    if gidText.None? {
      return Err(MissingAttribute("object", "gid"));
    }
    var spriteIdx := ParseU32(gidText.value);
    if spriteIdx.None? {
      return Err(BadValue("gid", gidText.value));
    }
    var properties := DecodeProperties(FindDescendant(doc, "properties"));
    if properties.Err? {
      return Err(properties.error);
    }
    var sheet := ctx.Load(sheetPath);
    r := Ok(TemplateData(sheet, spriteIdx.value, properties.value));
  }

  /** A template document as a map editor writes it: the tileset reference, then the
      object with its tile id and its properties. */
  function TemplateDocument(sheetSource: string, gid: u32, names: seq<string>, props: seq<ObjectProperty>): Node
    requires |names| == |props|
  {
    Element("template", map[], [
      Element("tileset", map["firstgid" := "1", "source" := sheetSource], []),
      Element("object", map["gid" := NatToDecimal(gid)], [
        Element("properties", map[], EncodeProperties(names, props))])])
  }

  /** Every template reads back from its document: the tileset resolved against the
      template's own path, the tile id, and the properties in order (colours as white). */
  lemma TemplateRoundTrip(sheetSource: string, gid: u32, names: seq<string>, props: seq<ObjectProperty>, assetPath: string)
    requires |names| == |props|
    ensures ParseTemplate(TemplateDocument(sheetSource, gid, names, props), assetPath) ==
      Ok(TemplateData(Handle(AsWrittenProjectPath(sheetSource, assetPath)), gid, DecodedAll(props)))
  {
    var doc := TemplateDocument(sheetSource, gid, names, props);
    var tileset := doc.children[0];
    var obj := doc.children[1];
    var propsElm := obj.children[0];
    assert doc.children[1..] == [obj];
    assert FindDescendant(tileset, "tileset") == Some(tileset);
    assert FindDescendant(doc, "tileset") == Some(tileset);
    assert FindDescendant(tileset, "object") == None;
    assert FindDescendant(obj, "object") == Some(obj);
    assert FindInForest(doc.children[1..], "object") == Some(obj);
    assert FindInForest(doc.children, "object") == Some(obj);
    assert FindDescendant(doc, "object") == Some(obj);
    assert FindDescendant(tileset, "properties") == None;
    assert FindDescendant(propsElm, "properties") == Some(propsElm);
    assert FindInForest(obj.children, "properties") == Some(propsElm);
    assert FindDescendant(obj, "properties") == Some(propsElm);
    assert FindInForest(doc.children, "properties") == Some(propsElm);
    ParseUnsignedRoundTrip(gid, U32_LIMIT);
    DecodeEncodeProperties(names, props);
  }

  /** A template without a `tileset` element, or without an `object` element, fails to
      load and loads no tileset. */
  lemma MissingElementsFatal(doc: Node, assetPath: string)
    ensures FindDescendant(doc, "tileset").None? ==>
      ParseTemplate(doc, assetPath) == Err(MissingElement("tileset")) &&
      TemplateRequests(doc, assetPath) == []
    ensures FindDescendant(doc, "object").None? ==>
      ParseTemplate(doc, assetPath).Err? && TemplateRequests(doc, assetPath) == []
  {
  }
}
