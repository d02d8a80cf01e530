/**
 `RVRutils.createEntity(name, properties)`: creates the element whose name
 `EntityTagName` chooses and, when `properties` is of type 'object', applies
 it with `setProperties` in batch mode and no parent property.
 */
module Entities {
  import opened JsValues
  import opened EntityTag
  import opened Properties

  /**
   Because batch mode reads the undeclared `props`, a property object with
   at least one key makes the call throw a ReferenceError, and no attribute
   is ever set on the new element.
   */
  method CreateEntity(name: JsValue, properties: JsValue) returns (entity: Entity, thrown: Option<Exception>)
    ensures fresh(entity)
    ensures entity.tag == EntityTagName(name)
    ensures entity.calls == []
    ensures thrown == if properties.Obj? && properties.props != [] then Some(PropsUndeclared) else None
  {
    entity := new Entity(EntityTagName(name));
    thrown := None;
    if TypeOf(properties) == "object" {
      BatchMode(properties, Undefined);
      thrown := SetProperties(entity, properties, Undefined, Bool(true));
    }
  }
}
