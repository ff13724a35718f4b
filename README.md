# Nested population and validation of a Reform form

This project models the engine behind `form.validate(params)` in Reform's
form-builder compatibility test (`test/form_builder_test.rb`). The test
pins down that engine precisely.

It is built up in four steps:

- A **form class** declares scalar properties, nested single properties
  and nested collections. A nested property is either an inline
  `do ... end` block or a separate form class (`:form => LabelForm`).
- Constructing the form over a record tree gives a **form tree**: one
  sub-form per nested record, one collection item per record of a
  collection.
- `validate(params)` takes a Rails-style nested-attributes payload and
  applies it in place.
  - A nested field is addressed by `<name>_attributes`.
  - A collection item is addressed by its position, written as a decimal
    string (`"0"`).
  - A property takes the string submitted under its name.
  - A date property may instead be submitted as three parts,
    `<name>(1i)`, `(2i)` and `(3i)`. When any part is empty these give
    nil, otherwise a date.
  - Absent keys leave the field as it was read from the record.
- Presence validation then runs over every reachable sub-form. Its
  errors are flattened into one map keyed by the dotted field path,
  with no collection index in the key (`form.errors.messages`).

Modules:

| file | module | contents |
|---|---|---|
| `wrappers.dfy` | `Wrappers` | `Option` |
| `numerals.dfy` | `Numerals` | decimal strings: `Decimal` writes them, `LeadingInt` reads them (the value of the leading unsigned ASCII digits) |
| `dates.dfy` | `DateParams` | the part keys `name(Ni)` and the date coercer |
| `schemas.dfy` | `Schemas` | form-class declarations, the `_attributes` naming convention, field lookup |
| `forms.dfy` | `Forms` | records, the form tree, construction over a record tree, readers |
| `populate.dfy` | `Populate` | the payload walker: the specification function `Populated`, the loop-based methods `PopulateForm`/`PopulateSlot`, and its properties |
| `errors.dfy` | `Errors` | presence validation over the tree, dotted-key flattening, and its properties |
| `form_object.dfy` | `FormObjects` | the root form object as a class whose `Validate` updates its tree and error map in place |
| `form_builder_test.dfy` | `FormBuilderTest` | the test's form class, fixture records and payloads, and each `it` block stated as a lemma |

## Model

| member | source | states |
|---|---|---|
| Numerals.Decimal | test/form_builder_test.rb:44 | the position key of a collection item is a non-empty digit string with no leading zero, except for `"0"` |
| Numerals.DecimalRoundTrip | test/form_builder_test.rb:75-77 | reading back the leading integer of the decimal string of `n` gives `n` |
| Numerals.LeadingInt | test/form_builder_test.rb:75-77 | a part that does not start with a digit reads as 0; a part made only of digits reads as the number those digits denote |
| Numerals.LeadingIntStops | test/form_builder_test.rb:75-77 | reading stops at the first non-digit: the value is that of the digits before it, whatever follows |
| Numerals.DecimalInjective | test/form_builder_test.rb:44 | two positions have the same key exactly when they are equal, so key `"j"` addresses item `j` and no other |
| DateParams.PartKey | test/form_builder_test.rb:71-72 | a part key is the field name followed by `(`, the digit of the part number (1, 2 or 3), and `i)` |
| DateParams.PartKeyInjective | test/form_builder_test.rb:71-72 | a part key determines its field and its part number, in both directions |
| DateParams.CoerceDate | test/form_builder_test.rb:87-97 | the date is nil exactly when one of year, month or day is missing or empty, whatever the other two are; otherwise its parts are non-negative |
| DateParams.DateRoundTrip | test/form_builder_test.rb:75-83 | a date submitted as its three decimal parts is coerced back into that same date |
| Schemas.AttributesKey | test/form_builder_test.rb:61-65 | the key of a nested field is its name followed by `_attributes` |
| Schemas.StripAttributes | test/form_builder_test.rb:43-45 | a stripped name gives back the key when `_attributes` is appended to it; when nothing is stripped, the key is no name's `_attributes` key |
| Schemas.StripAttributesInverse | test/form_builder_test.rb:43-45 | stripping `_attributes` from a key gives `name` exactly when the key is `name_attributes` |
| Schemas.AttributeSetters | test/form_builder_test.rb:61-65 | every nested field, single or collection, has its `_attributes` key among the accepted ones |
| Schemas.AttributeSettersStrip | test/form_builder_test.rb:61-65 | a key is accepted exactly when stripping `_attributes` from it gives the name of a declared nested field |
| Schemas.FieldIndex | test/form_builder_test.rb:8-29 | the lookup finds the first field with that name, or reports that no field has it |
| Forms.Build | test/form_builder_test.rb:33-40 | the constructed form wraps the record and has the schema's shape at every level; each property slot holds the record's attribute of that name, or nil |
| Forms.BuildSlot | test/form_builder_test.rb:33-40 | a property reads the record's attribute or nil; a nested single has a sub-form exactly when the record has that child, and that sub-form is the form built over the child; a collection has one item per child record, in order, item `j` being the form built over record `j` |
| Forms.Get | test/form_builder_test.rb:47-49 | a value read from a form is the scalar slot of a field with that name; an undeclared name reads as nothing |
| Forms.Child | test/form_builder_test.rb:49 | a sub-form read from a form is the sub-form slot of a nested single with that name, with that field's schema; an undeclared name reads as nothing |
| Forms.Children | test/form_builder_test.rb:57-58 | the items read from a form are the item slot of a collection with that name, with that field's schema; an undeclared name reads as nothing |
| Forms.GetProperty | test/form_builder_test.rb:47 | on a tree of the schema's shape, with unique field names, reading a declared property returns its slot's value |
| Forms.ChildNested | test/form_builder_test.rb:49 | on a tree of the schema's shape, with unique field names, reading a declared nested single returns its sub-form when there is one, and nothing otherwise |
| Forms.ChildrenCollection | test/form_builder_test.rb:57-58 | on a tree of the schema's shape, with unique field names, reading a declared collection returns its items |
| Populate.Populated | test/form_builder_test.rb:42-58 | the populated form wraps the same record, has as many slots, and every slot keeps its kind, its sub-form presence and its number of items |
| Populate.PopulatedSlot | test/form_builder_test.rb:43-45 | a populated slot keeps its kind; its sub-form and items wrap the same records as before; a sub-form or collection slot whose `_attributes` hash is absent, or a scalar slot of a field that is not a property, is unchanged |
| Populate.PopulatedItem | test/form_builder_test.rb:44 | a populated item wraps the same record with as many slots; an item whose position key is absent is unchanged |
| Populate.AssignedValue | test/form_builder_test.rb:67-97 | with neither date parts nor a string, the value stays; with date parts, the value is a date or nil, and nil exactly when some part is missing or empty |
| Populate.PopulateForm | test/form_builder_test.rb:43-49 | the loop over the declared fields produces exactly the tree `Populated` specifies |
| Populate.PopulateSlot | test/form_builder_test.rb:44 | the loop over a collection's existing items populates item `j` from the hash under `"j"` and leaves the others as they were |
| Populate.PopulateNothing | test/form_builder_test.rb:52-55 | an empty payload leaves the whole tree unchanged |
| Populate.AbsentFieldKept | test/form_builder_test.rb:52-55 | a field none of whose keys was submitted keeps its slot |
| Populate.StringAssigned | test/form_builder_test.rb:43-47 | a string submitted under a property's name, with no date parts, becomes that property's value |
| Populate.DatePartsAssigned | test/form_builder_test.rb:67-97 | date parts under a property give nil when a part is missing or empty, and otherwise the date of the three parsed parts |
| Populate.StringReadBack | test/form_builder_test.rb:47-49 | after populating, the reader for that property returns the string just submitted |
| Populate.ChildReadBack | test/form_builder_test.rb:49 | after populating, the reader for a nested single returns its sub-form populated from `<name>_attributes` |
| Populate.ChildrenReadBack | test/form_builder_test.rb:57-58 | after populating, a collection's reader returns as many items as before, over the same records |
| Populate.UndeclaredKeyIgnored | test/form_builder_test.rb:42-45 | removing a key that addresses no declared field does not change the result |
| Populate.SkeletonPreserved | test/form_builder_test.rb:56-58 | populating never adds, drops or replaces a sub-form or collection item; every form still wraps the same record |
| Populate.ConformsPreserved | test/form_builder_test.rb:8-29 | a tree that has the schema's shape still has it after populating |
| Populate.PopulateIdempotent | test/form_builder_test.rb:42-50 | submitting the same payload a second time changes nothing more |
| Errors.Concat | test/form_builder_test.rb:103 | an error is in the concatenation exactly when it is in some part; the result is empty exactly when every part is |
| Errors.Blank | test/form_builder_test.rb:100-103 | nil and the empty string are blank; a date, and a string with a non-whitespace character, are not |
| Errors.FormErrors | test/form_builder_test.rb:100-103 | every error of a form says "can't be blank" and lies strictly below the form's own path |
| Errors.SlotErrors | test/form_builder_test.rb:100-103 | every error of a slot says "can't be blank" and lies strictly below the form's path; a property without a presence rule reports nothing; a scalar slot reports at most one error |
| Errors.ErrorsExactlyBlanks | test/form_builder_test.rb:100-103 | an error is reported exactly when it says "can't be blank" at the form's path extended by the path of a presence-validated property that is blank in the tree, independently of how the errors are collected |
| Errors.NoErrorsIffAllPresent | test/form_builder_test.rb:8-17 | the tree has no errors exactly when every presence-validated property reachable in it holds a non-blank value |
| Errors.ErrorsFollowSchema | test/form_builder_test.rb:100-104 | every error says "can't be blank", and its path is a path of field names through the schema, ending in a presence-validated property, with no collection index |
| Errors.Join | test/form_builder_test.rb:103 | the dotted key starts with the first field name, followed by a dot when the path goes deeper |
| Errors.JoinInjective | test/form_builder_test.rb:103 | two non-empty paths of dot-free names have the same dotted key exactly when they are the same path |
| Errors.Merge | test/form_builder_test.rb:103 | folding errors into a map keeps every key and every message already there |
| Errors.MergeCollects | test/form_builder_test.rb:103 | folding errors into a map keeps every message list non-empty and duplicate-free, and adds exactly the errors' dotted keys and exactly their messages |
| Errors.FlattenErrors | test/form_builder_test.rb:100-103 | the keys are exactly the dotted paths of the presence-validated properties that are blank in the tree; each key lists the single message "can't be blank"; a message is listed under a key exactly when some reachable form reported it at that path; the map is empty exactly when every presence rule holds |
| FormObjects.FormObject.constructor | test/form_builder_test.rb:34-40 | the new object's tree is built from the record; it has no errors and has not been validated |
| FormObjects.FormObject.Validate | test/form_builder_test.rb:42-104 | the tree becomes the populated tree, with the same skeleton; the error map is replaced by the one the new tree flattens to; the result is true exactly when that map is empty, that is, when every presence rule holds |
| FormObjects.FormObject.RespondsToSetter | test/form_builder_test.rb:61-65 | the object accepts a `<key>=` setter exactly when stripping `_attributes` from the key names a declared nested field |
| FormBuilderTest.InitialForm | test/form_builder_test.rb:33-40 | the tree the test's form class builds over its fixture records, written out |
| FormBuilderTest.AttributeSettersDefined | test/form_builder_test.rb:61-65 | the test's form accepts exactly `artist_attributes`, `songs_attributes`, `label_attributes` (the `LabelForm` field) and `band_attributes` |
| FormBuilderTest.RespectsAttributesHash | test/form_builder_test.rb:42-50 | the payload sets exactly `artist.name`, `songs[0].title` and `band.label.name`, and leaves everything else as it was |
| FormBuilderTest.AllowsMissingNested | test/form_builder_test.rb:52-59 | an empty payload keeps `artist.name` as "Propagandhi", one song, and the song's original record |
| FormBuilderTest.CreatesDate | test/form_builder_test.rb:79-85 | parts "1997", "9", "27" make the first song's `release_date` the date 1997-09-27 |
| FormBuilderTest.RejectsDate | test/form_builder_test.rb:87-97 | with the year, month or day empty, the first song's `release_date` is nil, whatever the other parts are |
| FormBuilderTest.ReturnsFlatErrorsHash | test/form_builder_test.rb:100-104 | empty `artist.name` and `songs[0].title` give exactly `{"artist.name" => ["can't be blank"], "songs.title" => ["can't be blank"]}` |

## Left out

- The Reform library source is not part of this model. The engine is modelled from what `test/form_builder_test.rb` asserts. Where the engine's internals are not shown, the model makes the choices recorded below. The fixture model classes `Artist`, `Band` and `Label`, `OpenStruct` and `test_helper` are not part of this model either; records are plain attribute maps with an identity.
- Rails form-builder reflection (`respond_to?("x_attributes=")`, methods defined at run time): only the naming convention is modelled, as `AttributeSetters` and `RespondsToSetter`.
- Populate.PopulateForm: it visits the declared fields and looks up each one's keys, where the library visits the payload's keys. `UndeclaredKeyIgnored` shows that keys naming no field have no effect, so the two walks agree. The order of assignment within one form is not modelled.
- Populate.PopulateSlot: a collection index beyond the current number of items is ignored. Creating new items from such an index is not modelled. An index written in any form other than the canonical decimal (`"00"`, `"+0"`) addresses nothing.
- Populate.AssignedValue: when both date parts and a plain value are submitted for one property, the date parts win. A nested single whose record attribute is nil (no sub-form) stays nil even when its `_attributes` hash is submitted. A plain nested key without the `_attributes` suffix is ignored.
- DateParams.CoerceDate: reads each part by its leading unsigned ASCII digits. Ruby's `to_i` also skips leading whitespace, accepts a sign and accepts underscores between digits (`" 27"`, `"-3"`, `"1_997"`); the model reads these as 0, 0 and 1. It does not reject non-numeric parts and does not check calendar ranges such as month 13.
- DateParams.CoerceDate: only a missing or empty part rejects the date. A part made only of whitespace (`" "`) counts as submitted and reads as 0, so it gives a date rather than nil.
- Errors.Blank: a value is blank when it is nil or made only of ASCII whitespace. Unicode whitespace and `blank?` on other types are not modelled.
- Presence is the only validation rule modelled, and it is modelled only on properties. Error-message localisation is out, and "can't be blank" is the fixed message.
- Errors.Merge: under one dotted key it keeps each distinct message once, in the order they first occur. Whether the library repeats a message reported by several collection items is not shown.
- FormObjects.FormObject: only the root form is an object with mutable state. Sub-forms are values inside its `tree`, so aliasing between sub-form objects is not modelled.
- Persistence, writing back to the records (`sync`/`save`), the minitest `let`/`describe` layer, and any I/O.
