/**
 * The underlying records (plain attribute maps) and the form tree built
 * over them. A form wraps one record and holds one slot per declared
 * field, in declaration order: a scalar value, the sub-form of a nested
 * single property (absent when the record's attribute is nil), or the
 * sub-forms of a nested collection, one per record, in record order.
 */
module Forms {
  import opened Wrappers
  import opened Schemas
  import opened DateParams

  /** A field value: nil, a string, or a date assembled from date parts. */
  datatype Value = Nil | Text(s: string) | Day(date: Date)

  /** Records are identified by `id`, so that "still wraps the same record" can be stated. */
  datatype Record = Record(id: nat, attrs: map<string, Attr>)

  datatype Attr = Plain(v: Value) | One(record: Record) | Many(records: seq<Record>)

  datatype Slot = Scalar(value: Value) | Sub(form: Option<Form>) | Subs(items: seq<Form>)

  datatype Form = Form(model: nat, slots: seq<Slot>)

  /** The form tree has the shape the schema declares, at every level. */
  predicate Conforms(s: Schema, f: Form)
    decreases f, 1
  {
    |f.slots| == |s.fields| &&
    forall i :: 0 <= i < |f.slots| ==> SlotConforms(s.fields[i], f.slots[i])
  }

  predicate SlotConforms(field: Field, slot: Slot)
    decreases slot, 0
  {
    match slot
    case Scalar(_) => field.Property?
    case Sub(g) => field.Nested? && (g.Some? ==> Conforms(field.form.schema, g.value))
    case Subs(items) => field.Collection? && forall j :: 0 <= j < |items| ==> Conforms(field.form.schema, items[j])
  }

  /**
   * Construct the form for schema `s` over `r`: each property reads the
   * record's attribute of that name (nil when there is none), each nested
   * single wraps the nested record, each collection wraps every record of
   * the collection in order.
   */
  function Build(s: Schema, r: Record): (f: Form)
    ensures f.model == r.id && Conforms(s, f)
    ensures forall i :: 0 <= i < |s.fields| && s.fields[i].Property? ==> f.slots[i] == Scalar(ReadValue(r, s.fields[i].name))
    decreases r, 1
  {
    Form(r.id, seq(|s.fields|, i requires 0 <= i < |s.fields| => BuildSlot(s.fields[i], r)))
  }

  function BuildSlot(field: Field, r: Record): (slot: Slot)
    ensures SlotConforms(field, slot)
    ensures field.Property? ==> slot == Scalar(ReadValue(r, field.name))
    ensures field.Nested? ==> slot.Sub?
    ensures field.Nested? ==> (slot.form.Some? <==> field.name in r.attrs && r.attrs[field.name].One?)
    ensures field.Nested? && slot.form.Some? ==> slot.form.value.model == r.attrs[field.name].record.id
    ensures field.Nested? && slot.form.Some? ==> slot.form.value == Build(field.form.schema, r.attrs[field.name].record)
    ensures field.Collection? ==> slot.Subs? && |slot.items| == |Records(r, field.name)|
    ensures field.Collection? ==> forall j :: 0 <= j < |slot.items| ==> slot.items[j].model == Records(r, field.name)[j].id
    ensures field.Collection? ==> forall j :: 0 <= j < |slot.items| ==> slot.items[j] == Build(field.form.schema, Records(r, field.name)[j])
    decreases r, 0
  {
    match field
    case Property(n, _) => Scalar(ReadValue(r, n))
    case Nested(n, fc) =>
      if n in r.attrs && r.attrs[n].One? then Sub(Some(Build(fc.schema, r.attrs[n].record))) else Sub(None)
    case Collection(n, fc) =>
      var rs := Records(r, n);
      Subs(seq(|rs|, j requires 0 <= j < |rs| => Build(fc.schema, rs[j])))
  }

  /** The record's value for a scalar attribute; nil when absent. */
  function ReadValue(r: Record, name: string): Value {
    if name in r.attrs && r.attrs[name].Plain? then r.attrs[name].v else Nil
  }

  /** The records of a collection attribute; none when absent. */
  function Records(r: Record, name: string): (rs: seq<Record>)
    ensures forall j :: 0 <= j < |rs| ==> rs[j] < r
  {
    if name in r.attrs && r.attrs[name].Many? then r.attrs[name].records else []
  }

  // Named accessors, the explicit counterpart of the readers the DSL
  // generates (`form.artist`, `form.songs`, `form.artist.name`).

  /**
   * The value of property `name`, when `name` is a declared property:
   * the reader reports the slot of the field with that name, and nothing
   * for a name the schema does not declare.
   */
  function Get(s: Schema, f: Form, name: string): (r: Option<Value>)
    ensures r.Some? ==> exists i :: 0 <= i < |s.fields| && i < |f.slots| && s.fields[i].name == name && f.slots[i] == Scalar(r.value)
    ensures (forall i :: 0 <= i < |s.fields| ==> s.fields[i].name != name) ==> r.None?
  {
    match FieldIndex(s, name)
    case Some(i) => if i < |f.slots| && f.slots[i].Scalar? then Some(f.slots[i].value) else None
    case None => None
  }

  /** The schema and sub-form of nested single `name`, when it is present. */
  function Child(s: Schema, f: Form, name: string): (r: Option<(Schema, Form)>)
    ensures r.Some? ==> exists i :: (0 <= i < |s.fields| && i < |f.slots| && s.fields[i].name == name &&
      s.fields[i].Nested? && r.value.0 == s.fields[i].form.schema && f.slots[i] == Sub(Some(r.value.1)))
    ensures (forall i :: 0 <= i < |s.fields| ==> s.fields[i].name != name) ==> r.None?
  {
    match FieldIndex(s, name)
    case Some(i) =>
      if i < |f.slots| && f.slots[i].Sub? && f.slots[i].form.Some? && s.fields[i].Nested?
      then Some((s.fields[i].form.schema, f.slots[i].form.value)) else None
    case None => None
  }

  /** The schema and sub-forms of collection `name`. */
  function Children(s: Schema, f: Form, name: string): (r: Option<(Schema, seq<Form>)>)
    ensures r.Some? ==> exists i :: (0 <= i < |s.fields| && i < |f.slots| && s.fields[i].name == name &&
      s.fields[i].Collection? && r.value.0 == s.fields[i].form.schema && f.slots[i] == Subs(r.value.1))
    ensures (forall i :: 0 <= i < |s.fields| ==> s.fields[i].name != name) ==> r.None?
  {
    match FieldIndex(s, name)
    case Some(i) =>
      if i < |f.slots| && f.slots[i].Subs? && s.fields[i].Collection?
      then Some((s.fields[i].form.schema, f.slots[i].items)) else None
    case None => None
  }

  /** On a conforming tree of a well-formed schema, the reader of a declared property returns its slot's value. */
  lemma GetProperty(s: Schema, f: Form, i: nat)
    requires WellFormed(s) && Conforms(s, f) && i < |s.fields| && s.fields[i].Property?
    ensures f.slots[i].Scalar? && Get(s, f, s.fields[i].name) == Some(f.slots[i].value)
  {
    FieldIndexOfName(s, i);
    assert SlotConforms(s.fields[i], f.slots[i]);
  }

  /** On a conforming tree of a well-formed schema, the reader of a declared nested single returns its sub-form exactly when it has one. */
  lemma ChildNested(s: Schema, f: Form, i: nat)
    requires WellFormed(s) && Conforms(s, f) && i < |s.fields| && s.fields[i].Nested?
    ensures f.slots[i].Sub?
    ensures Child(s, f, s.fields[i].name) ==
      if f.slots[i].form.Some? then Some((s.fields[i].form.schema, f.slots[i].form.value)) else None
  {
    FieldIndexOfName(s, i);
    assert SlotConforms(s.fields[i], f.slots[i]);
  }

  /** On a conforming tree of a well-formed schema, the reader of a declared collection returns its items. */
  lemma ChildrenCollection(s: Schema, f: Form, i: nat)
    requires WellFormed(s) && Conforms(s, f) && i < |s.fields| && s.fields[i].Collection?
    ensures f.slots[i].Subs? && Children(s, f, s.fields[i].name) == Some((s.fields[i].form.schema, f.slots[i].items))
  {
    FieldIndexOfName(s, i);
    assert SlotConforms(s.fields[i], f.slots[i]);
  }
}
