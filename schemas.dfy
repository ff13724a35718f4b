/**
 * The declaration side of a form class: scalar properties, nested single
 * properties and nested collections, each nested one bound to an inline
 * schema or to a named form class; and the `<name>_attributes` key under
 * which a framework form builder submits every nested field.
 */
module Schemas {
  import opened Wrappers

  /** A nested field's form: an inline `do ... end` block (no class name) or `:form => SomeForm`. */
  datatype FormClass = FormClass(className: Option<string>, schema: Schema)

  datatype Field =
    | Property(name: string, presence: bool)     // a scalar property, with or without a presence rule
    | Nested(name: string, form: FormClass)      // a nested single, given inline or as a separate form class
    | Collection(name: string, form: FormClass)  // a nested collection with an inline item form

  datatype Schema = Schema(fields: seq<Field>)

  predicate IsNestedField(f: Field) {
    f.Nested? || f.Collection?
  }

  const AttributesSuffix := "_attributes"

  /** The payload key of a nested field. */
  function AttributesKey(name: string): (k: string)
    ensures |k| == |name| + |AttributesSuffix| && k[..|name|] == name && k[|name|..] == AttributesSuffix
  {
    name + AttributesSuffix
  }

  /** The field name a payload key refers to when the key ends in `_attributes`. */
  function StripAttributes(k: string): (r: Option<string>)
    ensures r.Some? ==> AttributesKey(r.value) == k
    ensures r.None? ==> forall name :: AttributesKey(name) != k
  {
    var n := |AttributesSuffix|;
    if |k| >= n && k[|k| - n..] == AttributesSuffix then Some(k[..|k| - n]) else None
  }

  /** Stripping the suffix and appending it are inverse: a key strips to `name` exactly when it is `name_attributes`. */
  lemma StripAttributesInverse(k: string, name: string)
    ensures StripAttributes(k) == Some(name) <==> k == AttributesKey(name)
  {
    if k == AttributesKey(name) {
      assert k[|k| - |AttributesSuffix|..] == AttributesSuffix;
      assert k[..|k| - |AttributesSuffix|] == name;
    }
    if StripAttributes(k) == Some(name) {
      assert k == k[..|name|] + k[|name|..];
    }
  }

  /** The `_attributes` keys the form accepts: one for every declared nested field, single or collection. */
  function AttributeSetters(s: Schema): (keys: set<string>)
    ensures forall i :: 0 <= i < |s.fields| && IsNestedField(s.fields[i]) ==> AttributesKey(s.fields[i].name) in keys
  {
    set i | 0 <= i < |s.fields| && IsNestedField(s.fields[i]) :: AttributesKey(s.fields[i].name)
  }

  /** A key is accepted exactly when stripping `_attributes` from it yields the name of a declared nested field. */
  lemma AttributeSettersStrip(s: Schema, k: string)
    ensures k in AttributeSetters(s) <==>
      exists i :: 0 <= i < |s.fields| && IsNestedField(s.fields[i]) && StripAttributes(k) == Some(s.fields[i].name)
  {
    forall i | 0 <= i < |s.fields| {
      StripAttributesInverse(k, s.fields[i].name);
    }
  }

  /** The position of the first field called `name`. */
  function FieldIndex(s: Schema, name: string): (r: Option<nat>)
    ensures r.Some? ==> r.value < |s.fields| && s.fields[r.value].name == name
    ensures r.Some? ==> forall j :: 0 <= j < r.value ==> s.fields[j].name != name
    ensures r.None? ==> forall j :: 0 <= j < |s.fields| ==> s.fields[j].name != name
    decreases |s.fields|
  {
    if s.fields == [] then None
    else if s.fields[0].name == name then Some(0)
    else match FieldIndex(Schema(s.fields[1..]), name)
      case None => None
      case Some(j) => Some(j + 1)
  }

  /** With unique names, looking a declared field up by its name finds that very field. */
  lemma FieldIndexOfName(s: Schema, i: nat)
    requires WellFormed(s) && i < |s.fields|
    ensures FieldIndex(s, s.fields[i].name) == Some(i)
  {
    var name := s.fields[i].name;
    var r := FieldIndex(s, name);
    assert r.Some?;
    var v := r.value;
    assert v <= i;
    assert s.fields[v].name == name;
    assert v >= i;
  }

  /** Field names are unique at every level; the declaration DSL rejects duplicates. */
  predicate WellFormed(s: Schema) {
    && (forall i, j :: 0 <= i < j < |s.fields| ==> s.fields[i].name != s.fields[j].name)
    && (forall i :: 0 <= i < |s.fields| && IsNestedField(s.fields[i]) ==> WellFormed(s.fields[i].form.schema))
  }
}
