/** The decoding of `property` elements into `ObjectProperty` values, shared by the
    map loader (objects) and the template loader. */
module Properties {
  import opened Wrappers
  import opened Numbers
  import opened Xml
  import opened MapRecords

  /** The `type` names whose `value` attribute is read. */
  predicate ReadsValue(typeName: string)
  {
    typeName == "bool" || typeName == "float" || typeName == "file" || typeName == "int" ||
    typeName == "object" || typeName == "string"
  }

  /** The `type` name a property of this variant is written with. */
  function TypeName(p: ObjectProperty): string
  {
    match p
    case Bool(_) => "bool"
    case Color(_) => "color"
    case Float(_) => "float"
    case File(_) => "file"
    case Int(_) => "int"
    case Obj(_) => "object"
    case Str(_) => "string"
  }

  /** The strict parse of a `value` text for a type that reads one. */
  function ParseValue(typeName: string, text: string): (r: Option<ObjectProperty>)
    requires ReadsValue(typeName)
    ensures r.Some? ==> TypeName(r.value) == typeName
  {
    if typeName == "bool" then
      match ParseBool(text) case Some(b) => Some(Bool(b)) case None => None
    else if typeName == "float" then
      match ParseF64(text) case Some(f) => Some(Float(f)) case None => None
    else if typeName == "int" then
      match ParseI64(text) case Some(i) => Some(Int(i)) case None => None
    else if typeName == "object" then
      match ParseU32(text) case Some(o) => Some(Obj(o)) case None => None
    else if typeName == "file" then Some(File(text))
    else Some(Str(text))
  }

  /** One `property` element: the `type` attribute picks the variant; `color` always
      gives white without reading `value`; an unknown type is unsupported. */
  function DecodeProperty(n: Node): (r: Result<ObjectProperty, LoadError>)
    ensures r.Ok? ==> Attribute(n, "type") == Some(TypeName(r.value))
    ensures r.Ok? && r.value.Color? ==> r.value.c == WHITE
    ensures r.Ok? && (r.value.File? || r.value.Str?) ==>
      Attribute(n, "value") == Some(if r.value.File? then r.value.file else r.value.s)
    ensures r.Ok? && !r.value.Color? ==>
      ReadsValue(TypeName(r.value)) && Attribute(n, "value").Some? &&
      ParseValue(TypeName(r.value), Attribute(n, "value").value) == Some(r.value)
  {
    var typeName :- Need(Attribute(n, "type"), MissingAttribute("property", "type"));
    if typeName == "color" then Ok(Color(WHITE))
    else if !ReadsValue(typeName) then Err(UnsupportedPropertyType(typeName))
    else
      var text :- Need(Attribute(n, "value"), MissingAttribute("property", "value"));
      Need(ParseValue(typeName, text), BadValue("value", text))
  }

  /** The error cases: a missing `type`, an unknown type, a missing `value` where one is
      read and a `value` the type's parser refuses are each fatal, and nothing else is. */
  lemma DecodePropertyFailures(n: Node)
    ensures Attribute(n, "type").None? ==> DecodeProperty(n) == Err(MissingAttribute("property", "type"))
    ensures Attribute(n, "type").Some? ==>
      var t := Attribute(n, "type").value;
      (t != "color" && !ReadsValue(t) ==> DecodeProperty(n) == Err(UnsupportedPropertyType(t))) &&
      (ReadsValue(t) && Attribute(n, "value").None? ==>
        DecodeProperty(n) == Err(MissingAttribute("property", "value"))) &&
      (ReadsValue(t) && Attribute(n, "value").Some? ==>
        (DecodeProperty(n).Ok? <==> ParseValue(t, Attribute(n, "value").value).Some?))
  {
  }

  /** `bool`, `int` and `object` accept exactly what Rust's parsers for `bool`, `i64` and `u32` accept. */
  lemma StrictParsers(n: Node, text: string)
    requires Attribute(n, "value") == Some(text)
    ensures Attribute(n, "type") == Some("bool") ==> (DecodeProperty(n).Ok? <==> text == "true" || text == "false")
    ensures Attribute(n, "type") == Some("int") ==>
      (DecodeProperty(n).Ok? <==> ParseSignedDecimal(text).Some? && I64_MIN <= ParseSignedDecimal(text).value <= I64_MAX)
    ensures Attribute(n, "type") == Some("object") ==>
      (DecodeProperty(n).Ok? <==> ParseUnsigned(text, U32_LIMIT).Some?)
  {
  }

  /** The text a value is written with in a file. */
  function ValueText(p: ObjectProperty): string
  {
    match p
    case Bool(b) => if b then "true" else "false"
    case Color(_) => "#ffffffff"
    case Float(f) => EncodeF64(f)
    case File(f) => f
    case Int(i) => IntToDecimal(i)
    case Obj(o) => NatToDecimal(o)
    case Str(s) => s
  }

  /** A `property` element as a map editor writes it. */
  function EncodeProperty(name: string, p: ObjectProperty): Node
  {
    Element("property", map["name" := name, "type" := TypeName(p), "value" := ValueText(p)], [])
  }

  /** What decoding keeps of a property: everything but a colour's channels. */
  function Decoded(p: ObjectProperty): ObjectProperty
  {
    if p.Color? then Color(WHITE) else p
  }

  /** Every property reads back from its element, a colour as white. */
  lemma DecodeEncodeProperty(name: string, p: ObjectProperty)
    ensures DecodeProperty(EncodeProperty(name, p)) == Ok(Decoded(p))
  {
    var n := EncodeProperty(name, p);
    assert Attribute(n, "type") == Some(TypeName(p));
    assert Attribute(n, "value") == Some(ValueText(p));
    if !p.Color? {
      ValueRoundTrip(p);
    }
  }

  /** Every variant but colour reads its `value` back through its type's parser. */
  lemma ValueRoundTrip(p: ObjectProperty)
    requires !p.Color?
    ensures TypeName(p) != "color" && ReadsValue(TypeName(p))
    ensures ParseValue(TypeName(p), ValueText(p)) == Some(p)
  {
    match p
    case Float(f) => ParseF64RoundTrip(f);
    case Int(i) => ParseI64RoundTrip(i);
    case Obj(o) => ParseUnsignedRoundTrip(o, U32_LIMIT);
    case _ =>
  }

  /** A colour property is white whatever its `value` says, even with no `value` at all. */
  lemma ColorIgnoresValue(n: Node, m: Node)
    requires Attribute(n, "type") == Some("color") && Attribute(m, "type") == Some("color")
    ensures DecodeProperty(n) == DecodeProperty(m) == Ok(Color(WHITE))
  {
  }

  // ------------------------------------------------------------ property lists

  /** The properties of an object or template: none without a `properties` element,
      else one per element child, in document order, stopping at the first failure. */
  function PropertiesOf(propertiesElm: Option<Node>): Result<seq<ObjectProperty>, LoadError>
  {
    match propertiesElm
    case None => Ok([])
    case Some(e) => CollectElements(Children(e), DecodeProperty)
  }

  /** The push loop over the children of the `properties` element. */
  method DecodeProperties(propertiesElm: Option<Node>) returns (r: Result<seq<ObjectProperty>, LoadError>)
    ensures r == PropertiesOf(propertiesElm)
  {
    var properties: seq<ObjectProperty> := [];
    if propertiesElm.None? {
      return Ok(properties);
    }
    var children := Children(propertiesElm.value);
    var i := 0;
    while i < |children|
      invariant 0 <= i <= |children|
      invariant CollectElements(children[..i], DecodeProperty) == Ok(properties)
    {
      assert children[..i + 1][..i] == children[..i];
      var child := children[i];
      if !child.Element? {
        i := i + 1;
        continue;
      }
      var p := DecodeProperty(child);
      if p.Err? {
        CollectElementsStopsAtFailure(children, i + 1, DecodeProperty);
        return Err(p.error);
      }
      properties := properties + [p.value];
      i := i + 1;
    }
    assert children[..i] == children;
    r := Ok(properties);
  }

  /** The list decodes exactly when every `property` element does, and then holds one
      value per element child, in document order. */
  lemma PropertiesInDocumentOrder(e: Node)
    ensures var r := PropertiesOf(Some(e)); var es := Elements(Children(e));
      (r.Ok? <==> forall k :: 0 <= k < |es| ==> DecodeProperty(es[k]).Ok?) &&
      (r.Ok? ==> |r.value| == |es| && forall k :: 0 <= k < |es| ==> r.value[k] == DecodeProperty(es[k]).value)
  {
    CollectElementsInOrder(Children(e), DecodeProperty);
  }

  /** `property` elements for the given names and values, in order. */
  function EncodeProperties(names: seq<string>, props: seq<ObjectProperty>): (ns: seq<Node>)
    requires |names| == |props|
    ensures |ns| == |props|
  {
    seq(|props|, k requires 0 <= k < |props| => EncodeProperty(names[k], props[k]))
  }

  function DecodedAll(props: seq<ObjectProperty>): (ds: seq<ObjectProperty>)
    ensures |ds| == |props| && forall k :: 0 <= k < |props| ==> ds[k] == Decoded(props[k])
  {
    seq(|props|, k requires 0 <= k < |props| => Decoded(props[k]))
  }

  /** A `properties` element written from a list reads back as that list, in order. */
  lemma DecodeEncodeProperties(names: seq<string>, props: seq<ObjectProperty>)
    requires |names| == |props|
    ensures PropertiesOf(Some(Element("properties", map[], EncodeProperties(names, props)))) == Ok(DecodedAll(props))
  {
    var ns := EncodeProperties(names, props);
    var ds := DecodedAll(props);
    forall k | 0 <= k < |ns| ensures ns[k].Element? && DecodeProperty(ns[k]) == Ok(ds[k]) {
      DecodeEncodeProperty(names[k], props[k]);
    }
    CollectElementsAllOk(ns, DecodeProperty, ds);
  }
}
