/**
 * The root form object: it wraps a record tree, and `validate(params)`
 * populates its form tree in place and then replaces its error map with
 * the one validation of the new tree produces.
 */
module FormObjects {
  import opened Wrappers
  import opened Schemas
  import opened Forms
  import opened Populate
  import opened Errors

  class FormObject {
    const schema: Schema
    var tree: Form
    var errors: ErrorMap
    var validated: bool

    ghost predicate Valid()
      reads this
    {
      Conforms(schema, tree) && (validated ==> errors == FlattenErrors(schema, tree))
    }

    /** `form_class.new(record)`: every field is read from the record; nothing is validated yet. */
    constructor (schema: Schema, record: Record)
      ensures Valid()
      ensures this.schema == schema && tree == Build(schema, record)
      ensures errors == map[] && !validated
    {
      this.schema := schema;
      tree := Build(schema, record);
      errors := map[];
      validated := false;
    }

    /**
     * `validate(params)`: populate from `params`, then validate the whole
     * tree. The previous error map is discarded, not merged into.
     */
    method Validate(params: Payload) returns (valid: bool)
      requires Valid()
      modifies this
      ensures Valid() && validated
      ensures tree == Populated(schema, old(tree), params)
      ensures SameSkeleton(old(tree), tree)
      ensures errors == FlattenErrors(schema, tree)
      ensures valid <==> errors == map[]
      ensures valid <==> AllPresent(schema, tree)
    {
      ConformsPreserved(schema, tree, params);
      SkeletonPreserved(schema, tree, params);
      tree := PopulateForm(schema, tree, params);
      errors := FlattenErrors(schema, tree);
      validated := true;
      valid := errors == map[];
    }

    /** Whether the object accepts the framework's `<key>=` setter for a nested field. */
    function RespondsToSetter(key: string): (b: bool)
      reads this
      ensures b <==> exists i :: 0 <= i < |schema.fields| && IsNestedField(schema.fields[i]) && StripAttributes(key) == Some(schema.fields[i].name)
    {
      AttributeSettersStrip(schema, key);
      key in AttributeSetters(schema)
    }
  }
}
