/** The records the three loaders produce, the property values they carry and
    the reasons a load gives up. */
module MapRecords {
  import opened Numbers

  /** `Handle<T>`: a reference to the asset stored under a project path. Two loads
      of the same path refer to the same asset. */
  datatype Handle = Handle(path: string)

  /** An sRGB colour with alpha, each channel in 0..1. */
  datatype Color = Srgba(red: real, green: real, blue: real, alpha: real)

  const WHITE: Color := Srgba(1.0, 1.0, 1.0, 1.0)

  /** `ObjectProperty`: one typed custom property of an object or template. */
  datatype ObjectProperty =
    | Bool(b: bool)
    | Color(c: Color)
    | Float(f: FloatValue)
    | File(file: string)
    | Int(i: i64)
    | Obj(obj: u32)
    | Str(s: string)

  /** `ObjectReference`: an object of a map, in tiles, with the template it instantiates. */
  datatype ObjectReference = ObjectReference(
    id: u16, template: Handle, x: u16, y: u16, properties: seq<ObjectProperty>)

  /** `RawMapData`: the floor grid (row-major, `width * height` cells) and the objects. */
  datatype RawMapData = RawMapData(
    width: usize, height: usize, data: seq<u8>, objects: seq<ObjectReference>, spriteSheet: Handle)

  /** `SpritesheetData`. */
  datatype SpritesheetData = SpritesheetData(tileWidth: u8, columns: u32, sprite: Handle)

  /** `TemplateData`. */
  datatype TemplateData = TemplateData(spriteSheet: Handle, spriteIdx: u32, properties: seq<ObjectProperty>)

  /** Why a loader gives up; in the program each of these is a panic of the loading task. */
  datatype LoadError =
    | MissingElement(tag: string)
    | MissingAttribute(element: string, attribute: string)
    | MissingText(element: string)
    | BadValue(attribute: string, text: string)
    | SizeOverflow(width: nat, height: nat)
    | IndexOutOfBounds(index: nat, length: nat)
    | UnsupportedPropertyType(typeName: string)
}
