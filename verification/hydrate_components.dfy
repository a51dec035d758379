/** `ComponentHydrators`, a registry from component names to the callbacks that add
    those components to an entity, and the property lookups with a default value that
    the callbacks use. A callback is represented by an opaque id; invoking it is
    reported as the id that was called. */
module HydrateComponents {
  import opened Wrappers
  import opened Numbers
  import opened MapRecords

  /** Stands for a `fn(&mut EntityCommands, &ObjectData)`. */
  type HydratorId = nat

  /** A named property with one value slot per type, as the lookups read it. */
  datatype NamedProperty = NamedProperty(
    name: string, valueS: string, valueI: i64, valueF: FloatValue, valueC: Color, valueB: bool)

  /** The object a callback hydrates from. */
  datatype ObjectData = ObjectData(id: u16, x: u16, y: u16, properties: seq<NamedProperty>)

  class ComponentHydrators {
    var hydrators: map<string, HydratorId>

    /** `new`: no hydrator registered. */
    constructor()
      ensures hydrators == map[]
    {
      hydrators := map[];
    }

    /** `register_hydrator`: `insert`, replacing an earlier callback of the same name. */
    method RegisterHydrator(componentName: string, func: HydratorId)
      modifies this
      ensures hydrators == old(hydrators)[componentName := func]
    {
      hydrators := hydrators[componentName := func];
    }

    /** `hydrate_entity`: scans the registry for the name and invokes the callback found,
        or only logs when there is none. The registry is left as it is. */
    method HydrateEntity(objectData: ObjectData, componentName: string) returns (invoked: Option<HydratorId>)
      ensures invoked.Some? <==> componentName in hydrators
      ensures invoked.Some? ==> invoked.value == hydrators[componentName]
    {
      var unseen := hydrators.Keys;
      while unseen != {}
        invariant unseen <= hydrators.Keys
        invariant componentName in hydrators ==> componentName in unseen
        decreases |unseen|
      {
        var name :| name in unseen;
        if name == componentName {
          return Some(hydrators[name]);
        }
        unseen := unseen - {name};
      }
      return None;
    }
  }

  /** Registering `mover`, then `collider`, then `mover` again: the second `mover`
      replaces the first, `collider` is kept, an unknown name invokes nothing. */
  method RegistryScenario() returns (beforeAny: Option<HydratorId>, mover: Option<HydratorId>,
                                     collider: Option<HydratorId>, unknown: Option<HydratorId>)
    ensures beforeAny == None && mover == Some(3) && collider == Some(2) && unknown == None
  {
    var obj := ObjectData(1, 0, 0, []);
    var registry := new ComponentHydrators();
    beforeAny := registry.HydrateEntity(obj, "mover");
    registry.RegisterHydrator("mover", 1);
    registry.RegisterHydrator("collider", 2);
    registry.RegisterHydrator("mover", 3);
    mover := registry.HydrateEntity(obj, "mover");
    collider := registry.HydrateEntity(obj, "collider");
    unknown := registry.HydrateEntity(obj, "tag");
  }

  // ------------------------------------------------------------ property lookups

  function NameOf(p: NamedProperty): string { p.name }

  /** `properties.iter().find(|p| p.name == property_name)`. */
  function FindProperty(objectData: ObjectData, propertyName: string): Option<NamedProperty>
  {
    FirstMatch(objectData.properties, NameOf, propertyName)
  }

  /** Position `i` holds the first property with the name. */
  predicate FirstNamedAt(ps: seq<NamedProperty>, name: string, i: int)
  {
    0 <= i < |ps| && ps[i].name == name && forall j :: 0 <= j < i ==> ps[j].name != name
  }

  predicate NoneNamed(ps: seq<NamedProperty>, name: string)
  {
    forall k :: 0 <= k < |ps| ==> ps[k].name != name
  }

  /** The search finds the first property with the name, or nothing when none has it. */
  lemma FindPropertyIsFirst(objectData: ObjectData, propertyName: string)
    ensures var ps := objectData.properties; var r := FindProperty(objectData, propertyName);
      (r.None? <==> NoneNamed(ps, propertyName)) &&
      forall i :: FirstNamedAt(ps, propertyName, i) ==> r == Some(ps[i])
  {
    var ps := objectData.properties;
    forall i | FirstNamedAt(ps, propertyName, i) ensures FirstIndex(ps, NameOf, propertyName) == Some(i) {
      assert NameOf(ps[i]) == propertyName;
      assert forall j :: 0 <= j < i ==> NameOf(ps[j]) != propertyName;
    }
    if FirstIndex(ps, NameOf, propertyName).Some? {
      var i := FirstIndex(ps, NameOf, propertyName).value;
      assert NameOf(ps[i]) == ps[i].name;
    } else {
      assert forall k :: 0 <= k < |ps| ==> NameOf(ps[k]) != propertyName;
    }
  }

  /** `get_property_value_from_object_or_default_s`. */
  function PropertyOrDefaultS(objectData: ObjectData, propertyName: string, defaultValue: string): (v: string)
    ensures NoneNamed(objectData.properties, propertyName) ==> v == defaultValue
    ensures forall i :: FirstNamedAt(objectData.properties, propertyName, i) ==> v == objectData.properties[i].valueS
  {
    FindPropertyIsFirst(objectData, propertyName);
    match FindProperty(objectData, propertyName)
    case Some(prop) => prop.valueS
    case None => defaultValue
  }

  /** `get_property_value_from_object_or_default_i`. */
  function PropertyOrDefaultI(objectData: ObjectData, propertyName: string, defaultValue: i64): (v: i64)
    ensures NoneNamed(objectData.properties, propertyName) ==> v == defaultValue
    ensures forall i :: FirstNamedAt(objectData.properties, propertyName, i) ==> v == objectData.properties[i].valueI
  {
    FindPropertyIsFirst(objectData, propertyName);
    match FindProperty(objectData, propertyName)
    case Some(prop) => prop.valueI
    case None => defaultValue
  }

  /** `get_property_value_from_object_or_default_f`. */
  function PropertyOrDefaultF(objectData: ObjectData, propertyName: string, defaultValue: FloatValue): (v: FloatValue)
    ensures NoneNamed(objectData.properties, propertyName) ==> v == defaultValue
    ensures forall i :: FirstNamedAt(objectData.properties, propertyName, i) ==> v == objectData.properties[i].valueF
  {
    FindPropertyIsFirst(objectData, propertyName);
    match FindProperty(objectData, propertyName)
    case Some(prop) => prop.valueF
    case None => defaultValue
  }

  /** `get_property_value_from_object_or_default_c`. */
  function PropertyOrDefaultC(objectData: ObjectData, propertyName: string, defaultValue: Color): (v: Color)
    ensures NoneNamed(objectData.properties, propertyName) ==> v == defaultValue
    ensures forall i :: FirstNamedAt(objectData.properties, propertyName, i) ==> v == objectData.properties[i].valueC
  {
    FindPropertyIsFirst(objectData, propertyName);
    match FindProperty(objectData, propertyName)
    case Some(prop) => prop.valueC
    case None => defaultValue
  }

  /** `get_property_value_from_object_or_default_b`. */
  function PropertyOrDefaultB(objectData: ObjectData, propertyName: string, defaultValue: bool): (v: bool)
    ensures NoneNamed(objectData.properties, propertyName) ==> v == defaultValue
    ensures forall i :: FirstNamedAt(objectData.properties, propertyName, i) ==> v == objectData.properties[i].valueB
  {
    FindPropertyIsFirst(objectData, propertyName);
    match FindProperty(objectData, propertyName)
    case Some(prop) => prop.valueB
    case None => defaultValue
  }

  /** Properties after a match are never consulted: appending more properties changes
      no lookup that already succeeds. */
  lemma LaterPropertiesIgnored(objectData: ObjectData, propertyName: string, more: seq<NamedProperty>)
    requires !NoneNamed(objectData.properties, propertyName)
    ensures var extended := objectData.(properties := objectData.properties + more);
      FindProperty(extended, propertyName) == FindProperty(objectData, propertyName) &&
      (forall d :: PropertyOrDefaultS(extended, propertyName, d) == PropertyOrDefaultS(objectData, propertyName, d)) &&
      (forall d :: PropertyOrDefaultI(extended, propertyName, d) == PropertyOrDefaultI(objectData, propertyName, d)) &&
      (forall d :: PropertyOrDefaultF(extended, propertyName, d) == PropertyOrDefaultF(objectData, propertyName, d)) &&
      (forall d :: PropertyOrDefaultC(extended, propertyName, d) == PropertyOrDefaultC(objectData, propertyName, d)) &&
      (forall d :: PropertyOrDefaultB(extended, propertyName, d) == PropertyOrDefaultB(objectData, propertyName, d))
  {
    FirstMatchAppend(objectData.properties, more, NameOf, propertyName);
    FindPropertyIsFirst(objectData, propertyName);
  }
}
