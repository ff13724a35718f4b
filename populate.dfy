/**
 * The nested payload walker behind `validate(params)`: it applies a
 * nested-attributes submission onto the existing form tree. A property
 * takes the string submitted under its name, or the date assembled from
 * its `(1i)/(2i)/(3i)` parts; a nested single recurses into its sub-form
 * with the hash under `<name>_attributes`; a collection recurses into its
 * j-th existing item with the hash under the position key `"j"` of the
 * hash under `<name>_attributes`. Nothing is created, nothing is reset.
 */
module Populate {
  import opened Wrappers
  import opened Numerals
  import opened DateParams
  import opened Schemas
  import opened Forms

  /** A submitted parameter: a string, or a nested hash. */
  datatype Param = Str(s: string) | Hash(h: map<string, Param>)

  type Payload = map<string, Param>

  function StrParam(p: Payload, k: string): Option<string> {
    if k in p && p[k].Str? then Some(p[k].s) else None
  }

  function HashParam(p: Payload, k: string): Option<Payload> {
    if k in p && p[k].Hash? then Some(p[k].h) else None
  }

  /** Some part of the deconstructed date `name` is in the payload. */
  predicate HasDateParts(p: Payload, name: string) {
    PartKey(name, 1) in p || PartKey(name, 2) in p || PartKey(name, 3) in p
  }

  function DateValue(d: Option<Date>): Value {
    match d
    case None => Nil
    case Some(x) => Day(x)
  }

  /** The payload keys that address `field` at its own level. */
  function FieldKeys(field: Field): set<string> {
    match field
    case Property(n, _) => {n, PartKey(n, 1), PartKey(n, 2), PartKey(n, 3)}
    case Nested(n, _) => {AttributesKey(n)}
    case Collection(n, _) => {AttributesKey(n)}
  }

  /** Every payload key the top level of a form with schema `s` reads. */
  function DeclaredKeys(s: Schema): (keys: set<string>)
    ensures forall i, k :: 0 <= i < |s.fields| && k in FieldKeys(s.fields[i]) ==> k in keys
  {
    set i, k | 0 <= i < |s.fields| && k in FieldKeys(s.fields[i]) :: k
  }

  /** The new value of property `name`: date parts win over a plain string; with neither, the value is kept. */
  function AssignedValue(name: string, current: Value, p: Payload): (v: Value)
    ensures !HasDateParts(p, name) && StrParam(p, name).None? ==> v == current
    ensures HasDateParts(p, name) ==> v.Nil? || v.Day?
    ensures HasDateParts(p, name) ==>
      (v.Nil? <==> BlankPart(StrParam(p, PartKey(name, 1))) || BlankPart(StrParam(p, PartKey(name, 2))) || BlankPart(StrParam(p, PartKey(name, 3))))
  {
    if HasDateParts(p, name) then
      DateValue(CoerceDate(StrParam(p, PartKey(name, 1)), StrParam(p, PartKey(name, 2)), StrParam(p, PartKey(name, 3))))
    else match StrParam(p, name)
      case Some(x) => Text(x)
      case None => current
  }

  /** Two slots of the same kind; a sub-form slot has a sub-form in both or in neither, a collection has as many items in both. */
  predicate SameKind(a: Slot, b: Slot) {
    match a
    case Scalar(_) => b.Scalar?
    case Sub(g) => b.Sub? && (g.Some? <==> b.form.Some?)
    case Subs(items) => b.Subs? && |items| == |b.items|
  }

  /** The form tree after populating `f` (schema `s`) from `p`: the specification of PopulateForm. */
  function Populated(s: Schema, f: Form, p: Payload): (r: Form)
    ensures r.model == f.model && |r.slots| == |f.slots|
    ensures forall i :: 0 <= i < |f.slots| ==> SameKind(r.slots[i], f.slots[i])
    decreases f, 1
  {
    Form(f.model, seq(|f.slots|, i requires 0 <= i < |f.slots| =>
      if i < |s.fields| then PopulatedSlot(s.fields[i], f.slots[i], p) else f.slots[i]))
  }

  function PopulatedSlot(field: Field, slot: Slot, p: Payload): (r: Slot)
    ensures SameKind(r, slot)
    ensures r.Sub? && r.form.Some? ==> r.form.value.model == slot.form.value.model
    ensures r.Subs? ==> forall j :: 0 <= j < |r.items| ==> r.items[j].model == slot.items[j].model
    ensures slot.Scalar? && !field.Property? ==> r == slot
    ensures !slot.Scalar? && HashParam(p, AttributesKey(field.name)).None? ==> r == slot
    decreases slot, 0
  {
    match slot
    case Scalar(v) =>
      if field.Property? then Scalar(AssignedValue(field.name, v, p)) else slot
    case Sub(g) =>
      if field.Nested? && g.Some? && HashParam(p, AttributesKey(field.name)).Some? then
        Sub(Some(Populated(field.form.schema, g.value, HashParam(p, AttributesKey(field.name)).value)))
      else slot
    case Subs(items) =>
      if field.Collection? && HashParam(p, AttributesKey(field.name)).Some? then
        var h := HashParam(p, AttributesKey(field.name)).value;
        Subs(seq(|items|, j requires 0 <= j < |items| => PopulatedItem(field.form.schema, items[j], h, j)))
      else slot
  }

  /** Item `j` of a collection after populating from the collection's hash `h`: addressed by the key `"j"`. */
  function PopulatedItem(s: Schema, item: Form, h: Payload, j: nat): (r: Form)
    ensures r.model == item.model && |r.slots| == |item.slots|
    ensures HashParam(h, Decimal(j)).None? ==> r == item
    decreases item, 2
  {
    match HashParam(h, Decimal(j))
    case Some(q) => Populated(s, item, q)
    case None => item
  }

  /** Apply `p` onto `f`, walking the declared fields and, in a collection, the existing items. */
  method PopulateForm(s: Schema, f: Form, p: Payload) returns (r: Form)
    ensures r == Populated(s, f, p)
    decreases f, 1
  {
    var slots := f.slots;
    var i := 0;
    while i < |slots| && i < |s.fields|
      invariant 0 <= i <= |slots| == |f.slots|
      invariant forall k :: 0 <= k < i ==> k < |s.fields| && slots[k] == PopulatedSlot(s.fields[k], f.slots[k], p)
      invariant forall k :: i <= k < |slots| ==> slots[k] == f.slots[k]
    {
      var slot := PopulateSlot(s.fields[i], f.slots[i], p);
      slots := slots[i := slot];
      i := i + 1;
    }
    r := Form(f.model, slots);
  }

  method PopulateSlot(field: Field, slot: Slot, p: Payload) returns (r: Slot)
    ensures r == PopulatedSlot(field, slot, p)
    decreases slot, 0
  {
    r := slot;
    match slot
    case Scalar(v) =>
      if field.Property? {
        r := Scalar(AssignedValue(field.name, v, p));
      }
    case Sub(g) =>
      var h := HashParam(p, AttributesKey(field.name));
      if field.Nested? && g.Some? && h.Some? {
        var g' := PopulateForm(field.form.schema, g.value, h.value);
        r := Sub(Some(g'));
      }
    case Subs(items) =>
      var h := HashParam(p, AttributesKey(field.name));
      if field.Collection? && h.Some? {
        var updated := items;
        var j := 0;
        while j < |items|
          invariant 0 <= j <= |items| == |updated|
          invariant forall k :: 0 <= k < j ==> updated[k] == PopulatedItem(field.form.schema, items[k], h.value, k)
          invariant forall k :: j <= k < |items| ==> updated[k] == items[k]
        {
          var q := HashParam(h.value, Decimal(j));
          if q.Some? {
            var item := PopulateForm(field.form.schema, items[j], q.value);
            updated := updated[j := item];
          }
          j := j + 1;
        }
        r := Subs(updated);
      }
  }

  // ---------------------------------------------------------------------
  // Properties of the walker

  /** An empty payload leaves the whole tree, nested forms included, as it was. */
  lemma PopulateNothing(s: Schema, f: Form)
    ensures Populated(s, f, map[]) == f
  {
    var r := Populated(s, f, map[]);
    forall i | 0 <= i < |f.slots| ensures r.slots[i] == f.slots[i] {
      if i < |s.fields| {
        var field := s.fields[i];
        assert HashParam(map[], AttributesKey(field.name)) == None;
        assert r.slots[i] == PopulatedSlot(field, f.slots[i], map[]);
        match f.slots[i]
        case Scalar(v) =>
          assert StrParam(map[], field.name) == None;
          assert !HasDateParts(map[], field.name);
          assert AssignedValue(field.name, v, map[]) == v;
          assert PopulatedSlot(field, f.slots[i], map[]) == f.slots[i];
        case Sub(_) =>
          assert PopulatedSlot(field, f.slots[i], map[]) == f.slots[i];
        case Subs(_) =>
          assert PopulatedSlot(field, f.slots[i], map[]) == f.slots[i];
      }
    }
  }

  /** A field none of whose keys were submitted keeps its slot, sub-forms included. */
  lemma AbsentFieldKept(s: Schema, f: Form, p: Payload, i: nat)
    requires i < |s.fields| && i < |f.slots|
    requires forall k :: k in FieldKeys(s.fields[i]) ==> k !in p
    ensures Populated(s, f, p).slots[i] == f.slots[i]
  {
    var field := s.fields[i];
    if field.Property? && f.slots[i].Scalar? {
      assert field.name !in p && !HasDateParts(p, field.name);
    }
  }

  /** A string submitted under a property's name, with no date parts beside it, becomes its value. */
  lemma StringAssigned(s: Schema, f: Form, p: Payload, i: nat, text: string)
    requires i < |s.fields| && i < |f.slots| && s.fields[i].Property? && f.slots[i].Scalar?
    requires s.fields[i].name in p && p[s.fields[i].name] == Str(text)
    requires !HasDateParts(p, s.fields[i].name)
    ensures Populated(s, f, p).slots[i] == Scalar(Text(text))
  {
  }

  /** Date parts under a property make its value the combined date, or nil when a part is missing or empty. */
  lemma DatePartsAssigned(s: Schema, f: Form, p: Payload, i: nat)
    requires i < |s.fields| && i < |f.slots| && s.fields[i].Property? && f.slots[i].Scalar?
    requires HasDateParts(p, s.fields[i].name)
    ensures var n := s.fields[i].name;
      var (y, m, d) := (StrParam(p, PartKey(n, 1)), StrParam(p, PartKey(n, 2)), StrParam(p, PartKey(n, 3)));
      Populated(s, f, p).slots[i] ==
        if BlankPart(y) || BlankPart(m) || BlankPart(d) then Scalar(Nil)
        else Scalar(Day(Date(LeadingInt(y.value), LeadingInt(m.value), LeadingInt(d.value))))
  {
  }

  // Reading back through the named accessors (`form.artist.name`, `form.band`, `form.songs`)

  /** After populating, `form.<name>` reads the string just submitted for that property. */
  lemma StringReadBack(s: Schema, f: Form, p: Payload, i: nat, text: string)
    requires WellFormed(s) && i < |s.fields| && i < |f.slots| && s.fields[i].Property? && f.slots[i].Scalar?
    requires s.fields[i].name in p && p[s.fields[i].name] == Str(text)
    requires !HasDateParts(p, s.fields[i].name)
    ensures Get(s, Populated(s, f, p), s.fields[i].name) == Some(Text(text))
  {
    FieldIndexOfName(s, i);
    StringAssigned(s, f, p, i, text);
  }

  /** After populating, `form.<name>` of a nested single is its sub-form populated from `<name>_attributes`. */
  lemma ChildReadBack(s: Schema, f: Form, p: Payload, i: nat, g: Form, h: Payload)
    requires WellFormed(s) && i < |s.fields| && i < |f.slots| && s.fields[i].Nested?
    requires f.slots[i] == Sub(Some(g)) && HashParam(p, AttributesKey(s.fields[i].name)) == Some(h)
    ensures Child(s, Populated(s, f, p), s.fields[i].name) == Some((s.fields[i].form.schema, Populated(s.fields[i].form.schema, g, h)))
  {
    FieldIndexOfName(s, i);
    assert Populated(s, f, p).slots[i] == PopulatedSlot(s.fields[i], f.slots[i], p);
  }

  /** After populating, `form.<name>` of a collection has as many items as before, over the same records. */
  lemma ChildrenReadBack(s: Schema, f: Form, p: Payload, i: nat)
    requires WellFormed(s) && i < |s.fields| && i < |f.slots| && s.fields[i].Collection? && f.slots[i].Subs?
    ensures var c := Children(s, Populated(s, f, p), s.fields[i].name);
      && c.Some? && |c.value.1| == |f.slots[i].items|
      && (forall j :: 0 <= j < |c.value.1| ==> c.value.1[j].model == f.slots[i].items[j].model)
  {
    FieldIndexOfName(s, i);
    var r := Populated(s, f, p);
    assert r.slots[i] == PopulatedSlot(s.fields[i], f.slots[i], p);
    SlotSkeletonPreserved(s.fields[i], f.slots[i], p);
  }

  /** Keys that address no declared field at the top level are ignored. */
  lemma UndeclaredKeyIgnored(s: Schema, f: Form, p: Payload, k: string)
    requires k !in DeclaredKeys(s)
    ensures Populated(s, f, p) == Populated(s, f, p - {k})
  {
    forall i | 0 <= i < |f.slots| && i < |s.fields|
      ensures PopulatedSlot(s.fields[i], f.slots[i], p) == PopulatedSlot(s.fields[i], f.slots[i], p - {k})
    {
      SlotUndeclaredKeyIgnored(s.fields[i], f.slots[i], p, k);
    }
  }

  lemma SlotUndeclaredKeyIgnored(field: Field, slot: Slot, p: Payload, k: string)
    requires k !in FieldKeys(field)
    ensures PopulatedSlot(field, slot, p) == PopulatedSlot(field, slot, p - {k})
  {
    var p' := p - {k};
    if field.Property? {
      assert StrParam(p, field.name) == StrParam(p', field.name);
      assert HasDateParts(p, field.name) == HasDateParts(p', field.name);
      forall part | 1 <= part <= 3 ensures StrParam(p, PartKey(field.name, part)) == StrParam(p', PartKey(field.name, part)) {
      }
    } else {
      assert HashParam(p, AttributesKey(field.name)) == HashParam(p', AttributesKey(field.name));
    }
  }

  /** Two trees of the same shape over the same records: same models, same sub-form presence, same collection sizes. */
  predicate SameSkeleton(a: Form, b: Form)
    decreases a, 1
  {
    a.model == b.model && |a.slots| == |b.slots| &&
    forall i :: 0 <= i < |a.slots| ==> SameSlotSkeleton(a.slots[i], b.slots[i])
  }

  predicate SameSlotSkeleton(x: Slot, y: Slot)
    decreases x, 0
  {
    match x
    case Scalar(_) => y.Scalar?
    case Sub(g) => y.Sub? && (g.Some? <==> y.form.Some?) && (g.Some? ==> SameSkeleton(g.value, y.form.value))
    case Subs(items) =>
      y.Subs? && |items| == |y.items| && forall j :: 0 <= j < |items| ==> SameSkeleton(items[j], y.items[j])
  }

  /**
   * Populating never adds, drops or replaces a sub-form or a collection
   * item: every form in the result wraps the record the form at the same
   * place wrapped before.
   */
  lemma {:induction false} SkeletonPreserved(s: Schema, f: Form, p: Payload)
    ensures SameSkeleton(f, Populated(s, f, p))
    decreases f, 1
  {
    var r := Populated(s, f, p);
    forall i | 0 <= i < |f.slots| ensures SameSlotSkeleton(f.slots[i], r.slots[i]) {
      if i < |s.fields| {
        SlotSkeletonPreserved(s.fields[i], f.slots[i], p);
      } else {
        SlotSkeletonReflexive(f.slots[i]);
      }
    }
  }

  lemma {:induction false} SlotSkeletonPreserved(field: Field, slot: Slot, p: Payload)
    ensures SameSlotSkeleton(slot, PopulatedSlot(field, slot, p))
    decreases slot, 0
  {
    var r := PopulatedSlot(field, slot, p);
    match slot
    case Scalar(_) =>
    case Sub(g) =>
      if r == slot {
        SlotSkeletonReflexive(slot);
      } else {
        SkeletonPreserved(field.form.schema, g.value, HashParam(p, AttributesKey(field.name)).value);
      }
    case Subs(items) =>
      if field.Collection? && HashParam(p, AttributesKey(field.name)).Some? {
        var h := HashParam(p, AttributesKey(field.name)).value;
        assert r.items == seq(|items|, j requires 0 <= j < |items| => PopulatedItem(field.form.schema, items[j], h, j));
        forall j | 0 <= j < |items| ensures SameSkeleton(items[j], r.items[j]) {
          assert r.items[j] == PopulatedItem(field.form.schema, items[j], h, j);
          match HashParam(h, Decimal(j))
          case Some(q) => SkeletonPreserved(field.form.schema, items[j], q);
          case None => SkeletonReflexive(items[j]);
        }
      } else {
        SlotSkeletonReflexive(slot);
      }
  }

  lemma {:induction false} SkeletonReflexive(f: Form)
    ensures SameSkeleton(f, f)
    decreases f, 1
  {
    forall i | 0 <= i < |f.slots| ensures SameSlotSkeleton(f.slots[i], f.slots[i]) {
      SlotSkeletonReflexive(f.slots[i]);
    }
  }

  lemma {:induction false} SlotSkeletonReflexive(x: Slot)
    ensures SameSlotSkeleton(x, x)
    decreases x, 0
  {
    match x
    case Scalar(_) =>
    case Sub(g) =>
      if g.Some? {
        SkeletonReflexive(g.value);
      }
    case Subs(items) =>
      forall j | 0 <= j < |items| ensures SameSkeleton(items[j], items[j]) {
        SkeletonReflexive(items[j]);
      }
  }

  /** A tree that has the schema's shape still has it after populating. */
  lemma {:induction false} ConformsPreserved(s: Schema, f: Form, p: Payload)
    requires Conforms(s, f)
    ensures Conforms(s, Populated(s, f, p))
    decreases f, 1
  {
    var r := Populated(s, f, p);
    forall i | 0 <= i < |f.slots| ensures SlotConforms(s.fields[i], r.slots[i]) {
      SlotConformsPreserved(s.fields[i], f.slots[i], p);
    }
  }

  lemma {:induction false} SlotConformsPreserved(field: Field, slot: Slot, p: Payload)
    requires SlotConforms(field, slot)
    ensures SlotConforms(field, PopulatedSlot(field, slot, p))
    decreases slot, 0
  {
    var r := PopulatedSlot(field, slot, p);
    match slot
    case Scalar(_) =>
    case Sub(g) =>
      if r != slot {
        ConformsPreserved(field.form.schema, g.value, HashParam(p, AttributesKey(field.name)).value);
      }
    case Subs(items) =>
      if field.Collection? && HashParam(p, AttributesKey(field.name)).Some? {
        var h := HashParam(p, AttributesKey(field.name)).value;
        assert r.items == seq(|items|, j requires 0 <= j < |items| => PopulatedItem(field.form.schema, items[j], h, j));
        forall j | 0 <= j < |items| ensures Conforms(field.form.schema, r.items[j]) {
          assert r.items[j] == PopulatedItem(field.form.schema, items[j], h, j);
          match HashParam(h, Decimal(j))
          case Some(q) => ConformsPreserved(field.form.schema, items[j], q);
          case None =>
        }
      }
  }

  /** Submitting the same payload a second time changes nothing more. */
  lemma {:induction false} PopulateIdempotent(s: Schema, f: Form, p: Payload)
    ensures Populated(s, Populated(s, f, p), p) == Populated(s, f, p)
    decreases f, 1
  {
    var r := Populated(s, f, p);
    var rr := Populated(s, r, p);
    forall i | 0 <= i < |f.slots| ensures rr.slots[i] == r.slots[i] {
      if i < |s.fields| {
        SlotIdempotent(s.fields[i], f.slots[i], p);
      }
    }
  }

  lemma {:induction false} SlotIdempotent(field: Field, slot: Slot, p: Payload)
    ensures PopulatedSlot(field, PopulatedSlot(field, slot, p), p) == PopulatedSlot(field, slot, p)
    decreases slot, 0
  {
    var r := PopulatedSlot(field, slot, p);
    match slot
    case Scalar(_) =>
    case Sub(g) =>
      if r != slot {
        PopulateIdempotent(field.form.schema, g.value, HashParam(p, AttributesKey(field.name)).value);
      }
    case Subs(items) =>
      if field.Collection? && HashParam(p, AttributesKey(field.name)).Some? {
        var h := HashParam(p, AttributesKey(field.name)).value;
        var rr := PopulatedSlot(field, r, p);
        assert r.Subs? && |r.items| == |items|;
        assert rr.Subs? && |rr.items| == |items|;
        forall j | 0 <= j < |items| ensures rr.items[j] == r.items[j] {
          assert r.items[j] == PopulatedItem(field.form.schema, items[j], h, j);
          assert rr.items[j] == PopulatedItem(field.form.schema, r.items[j], h, j);
          match HashParam(h, Decimal(j))
          case Some(q) => PopulateIdempotent(field.form.schema, items[j], q);
          case None =>
        }
      }
  }
}
