/**
 * The copy-definition feature: a child class's definition takes over a fixed set of
 * fields from its parent class's definition, in place. The fields a definition holds are a
 * map from field name to value; a name that is absent reads as `undefined`.
 */
module CopyDefinition {
  import opened JsValues

  /** Fields of either directive or component definitions that the child takes from its parent. */
  const COPY_DIRECTIVE_FIELDS: seq<string> := ["providersResolver"]

  /** Fields that only component definitions have, taken over when the parent is a component. */
  const COPY_COMPONENT_FIELDS: seq<string> :=
    ["template", "decls", "consts", "vars", "onPush", "ngContentSelectors", "styles", "encapsulation", "schemas"]

  type Fields = map<string, Value>

  /** `def[name]`: the stored value, or `undefined`. */
  function Get(fields: Fields, name: string): Value {
    if name in fields then fields[name] else Undefined
  }

  /** The definition object of a directive or component class. */
  class Definition {
    /** `isComponentDef(this)`: whether this definition is of component kind. */
    const isComponent: bool
    /** Every other field, by name. */
    var fields: Fields

    constructor (isComponent: bool, fields: Fields)
      ensures this.isComponent == isComponent && this.fields == fields
    {
      this.isComponent := isComponent;
      this.fields := fields;
    }
  }

  /** The parent class as seen by the feature: its raw `ɵcmp` and `ɵdir` slots (`null` when absent). */
  datatype SuperType = SuperType(cmp: Definition?, dir: Definition?)

  /** The raw slot the parent definition is read from: `ɵcmp` for a component child, `ɵdir` otherwise. */
  function ParentDefinition(definition: Definition, superType: SuperType): (superDef: Definition?)
    ensures definition.isComponent ==> superDef == superType.cmp
    ensures !definition.isComponent ==> superDef == superType.dir
  {
    if definition.isComponent then superType.cmp else superType.dir
  }

  /** `child` after `child[name] = parent[name]` for each name of `names`, in order. */
  function CopyFields(child: Fields, parent: Fields, names: seq<string>): Fields
    decreases |names|
  {
    if |names| == 0 then child
    else
      var last := names[|names| - 1];
      CopyFields(child, parent, names[..|names| - 1])[last := Get(parent, last)]
  }

  /** Copying adds exactly the copied names to the child's fields. */
  lemma {:induction false} CopyFieldsKeys(child: Fields, parent: Fields, names: seq<string>)
    ensures CopyFields(child, parent, names).Keys == child.Keys + (set n | n in names)
    decreases |names|
  {
    if |names| > 0 {
      var init := names[..|names| - 1];
      CopyFieldsKeys(child, parent, init);
      assert names == init + [names[|names| - 1]];
    }
  }

  /** The child's fields after the feature, given the parent's fields and kind. */
  function Inherited(child: Fields, parent: Fields, parentIsComponent: bool): (r: Fields)
    ensures forall name :: name in r <==>
              name in child || name in COPY_DIRECTIVE_FIELDS || (parentIsComponent && name in COPY_COMPONENT_FIELDS)
  {
    CopyFieldsKeys(child, parent, COPY_DIRECTIVE_FIELDS);
    var common := CopyFields(child, parent, COPY_DIRECTIVE_FIELDS);
    CopyFieldsKeys(common, parent, COPY_COMPONENT_FIELDS);
    if parentIsComponent then CopyFields(common, parent, COPY_COMPONENT_FIELDS) else common
  }

  /**
   * `ɵɵCopyDefinitionFeature(definition)`, given `getSuperType(definition.type)`. Reading a
   * field of a missing parent definition throws a `TypeError` before anything is written.
   */
  method CopyDefinitionFeature(definition: Definition, superType: SuperType) returns (r: Outcome<()>)
    modifies definition
    ensures var superDef := ParentDefinition(definition, superType);
      && (r.Throw? <==> superDef == null)
      && (superDef == null ==> definition.fields == old(definition.fields))
      && (superDef != null ==>
            definition.fields == Inherited(old(definition.fields), old(superDef.fields), superDef.isComponent))
  {
    var superDef := ParentDefinition(definition, superType);
    if superDef == null {
      return Throw(TypeError);
    }
    ghost var child, parent := definition.fields, superDef.fields;
    assert superDef == definition ==> child == parent;
    for i := 0 to |COPY_DIRECTIVE_FIELDS|
      invariant definition.fields == CopyFields(child, parent, COPY_DIRECTIVE_FIELDS[..i])
      invariant superDef != definition ==> superDef.fields == parent
    {
      var name := COPY_DIRECTIVE_FIELDS[i];
      CopyFieldsAt(child, parent, COPY_DIRECTIVE_FIELDS[..i], name);
      definition.fields := definition.fields[name := Get(superDef.fields, name)];
      assert COPY_DIRECTIVE_FIELDS[..i + 1] == COPY_DIRECTIVE_FIELDS[..i] + [name];
    }
    assert COPY_DIRECTIVE_FIELDS[..|COPY_DIRECTIVE_FIELDS|] == COPY_DIRECTIVE_FIELDS;
    ghost var common := definition.fields;
    if superDef.isComponent {
      for i := 0 to |COPY_COMPONENT_FIELDS|
        invariant definition.fields == CopyFields(common, parent, COPY_COMPONENT_FIELDS[..i])
        invariant superDef != definition ==> superDef.fields == parent
      {
        var name := COPY_COMPONENT_FIELDS[i];
        CopyFieldsAt(common, parent, COPY_COMPONENT_FIELDS[..i], name);
        CopyFieldsAt(child, parent, COPY_DIRECTIVE_FIELDS, name);
        definition.fields := definition.fields[name := Get(superDef.fields, name)];
        assert COPY_COMPONENT_FIELDS[..i + 1] == COPY_COMPONENT_FIELDS[..i] + [name];
      }
      assert COPY_COMPONENT_FIELDS[..|COPY_COMPONENT_FIELDS|] == COPY_COMPONENT_FIELDS;
    }
    r := Return(());
  }

  // ---------------------------------------------------------------------------
  // Properties

  /** A copied name holds the parent's value (`undefined` included); any other name is untouched. */
  lemma {:induction false} CopyFieldsAt(child: Fields, parent: Fields, names: seq<string>, name: string)
    ensures name in names ==> name in CopyFields(child, parent, names)
                              && CopyFields(child, parent, names)[name] == Get(parent, name)
    ensures name !in names ==> (name in CopyFields(child, parent, names) <==> name in child)
    ensures name !in names && name in child ==> CopyFields(child, parent, names)[name] == child[name]
    decreases |names|
  {
    if |names| > 0 {
      var init := names[..|names| - 1];
      CopyFieldsAt(child, parent, init, name);
      assert names == init + [names[|names| - 1]];
    }
  }

  /** After the feature the child's `providersResolver` is the parent's, even when that is `undefined`. */
  lemma ProvidersResolverCopied(child: Fields, parent: Fields, parentIsComponent: bool)
    ensures "providersResolver" in Inherited(child, parent, parentIsComponent)
    ensures Inherited(child, parent, parentIsComponent)["providersResolver"] == Get(parent, "providersResolver")
  {
    CopyFieldsAt(child, parent, COPY_DIRECTIVE_FIELDS, "providersResolver");
    var common := CopyFields(child, parent, COPY_DIRECTIVE_FIELDS);
    CopyFieldsAt(common, parent, COPY_COMPONENT_FIELDS, "providersResolver");
  }

  /** A component parent hands over each of its nine component-only fields. */
  lemma ComponentFieldsCopied(child: Fields, parent: Fields, name: string)
    requires name in COPY_COMPONENT_FIELDS
    ensures name in Inherited(child, parent, true) && Inherited(child, parent, true)[name] == Get(parent, name)
  {
    var common := CopyFields(child, parent, COPY_DIRECTIVE_FIELDS);
    CopyFieldsAt(common, parent, COPY_COMPONENT_FIELDS, name);
  }

  /** A parent that is not a component leaves the child's component-only fields as they were. */
  lemma ComponentFieldsKept(child: Fields, parent: Fields, name: string)
    requires name in COPY_COMPONENT_FIELDS
    ensures name in Inherited(child, parent, false) <==> name in child
    ensures name in child ==> Inherited(child, parent, false)[name] == child[name]
  {
    CopyFieldsAt(child, parent, COPY_DIRECTIVE_FIELDS, name);
  }

  /** Nothing else changes: a name in neither list keeps its presence and its value. */
  lemma OtherFieldsUnchanged(child: Fields, parent: Fields, parentIsComponent: bool, name: string)
    requires name !in COPY_DIRECTIVE_FIELDS && name !in COPY_COMPONENT_FIELDS
    ensures name in Inherited(child, parent, parentIsComponent) <==> name in child
    ensures name in child ==> Inherited(child, parent, parentIsComponent)[name] == child[name]
  {
    CopyFieldsAt(child, parent, COPY_DIRECTIVE_FIELDS, name);
    var common := CopyFields(child, parent, COPY_DIRECTIVE_FIELDS);
    CopyFieldsAt(common, parent, COPY_COMPONENT_FIELDS, name);
  }

  /** Applying the feature a second time, with the same distinct parent, changes nothing more. */
  lemma Idempotent(child: Fields, parent: Fields, parentIsComponent: bool)
    ensures Inherited(Inherited(child, parent, parentIsComponent), parent, parentIsComponent)
            == Inherited(child, parent, parentIsComponent)
  {
    var once := Inherited(child, parent, parentIsComponent);
    var twice := Inherited(once, parent, parentIsComponent);
    forall name | true
      ensures (name in twice <==> name in once) && (name in once ==> twice[name] == once[name])
    {
      if name in COPY_DIRECTIVE_FIELDS {
        ProvidersResolverCopied(child, parent, parentIsComponent);
        ProvidersResolverCopied(once, parent, parentIsComponent);
      } else if name in COPY_COMPONENT_FIELDS {
        if parentIsComponent {
          ComponentFieldsCopied(child, parent, name);
          ComponentFieldsCopied(once, parent, name);
        } else {
          ComponentFieldsKept(child, parent, name);
          ComponentFieldsKept(once, parent, name);
        }
      } else {
        OtherFieldsUnchanged(child, parent, parentIsComponent, name);
        OtherFieldsUnchanged(once, parent, parentIsComponent, name);
      }
    }
    assert twice.Keys == once.Keys;
  }
}
