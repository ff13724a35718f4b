/**
 * The form class and record tree of the form-builder compatibility test,
 * and what `validate` does to them in each of its scenarios.
 */
module FormBuilderTest {
  import opened Wrappers
  import opened DateParams
  import opened Schemas
  import opened Forms
  import opened Populate
  import opened Errors

  /** The inline artist form: a `name` property that must be present. */
  const ArtistSchema := Schema([Property("name", true)])
  /** The inline form of each song: a `title` that must be present, and a `release_date`. */
  const SongSchema := Schema([Property("title", true), Property("release_date", false)])
  /** The separate `LabelForm` class: one `name` property, with no rule. */
  const LabelSchema := Schema([Property("name", false)])
  /** The inline band form, which nests an inline label form with one `name` property. */
  const BandLabelSchema := Schema([Property("name", false)])
  const BandSchema := Schema([Nested("label", FormClass(None, BandLabelSchema))])

  const AlbumSchema := Schema([
    Nested("artist", FormClass(None, ArtistSchema)),
    Collection("songs", FormClass(None, SongSchema)),
    Nested("label", FormClass(Some("LabelForm"), LabelSchema)),
    Nested("band", FormClass(None, BandSchema))
  ])

  const ArtistRecord := Record(1, map["name" := Plain(Text("Propagandhi"))])
  const SongRecord := Record(2, map[])
  const LabelRecord := Record(3, map[])
  const BandLabelRecord := Record(5, map[])
  const BandRecord := Record(4, map["label" := One(BandLabelRecord)])
  const AlbumRecord := Record(0, map[
    "artist" := One(ArtistRecord),
    "songs" := Many([SongRecord]),
    "label" := One(LabelRecord),
    "band" := One(BandRecord)
  ])

  /** The tree `form_class.new(...)` builds over the fixture records. */
  function InitialForm(): (f: Form)
    ensures f == Form(0, [
      Sub(Some(Form(1, [Scalar(Text("Propagandhi"))]))),
      Subs([Form(2, [Scalar(Nil), Scalar(Nil)])]),
      Sub(Some(Form(3, [Scalar(Nil)]))),
      Sub(Some(Form(4, [Sub(Some(Form(5, [Scalar(Nil)])))])))
    ])
  {
    ArtistBuilt();
    SongBuilt();
    LabelBuilt();
    BandBuilt();
    ArtistSlotBuilt();
    SongsSlotBuilt();
    LabelSlotBuilt();
    BandSlotBuilt();
    FourSlotBuild(AlbumSchema, AlbumRecord,
      Sub(Some(Build(ArtistSchema, ArtistRecord))), Subs([Build(SongSchema, SongRecord)]),
      Sub(Some(Build(LabelSchema, LabelRecord))), Sub(Some(Build(BandSchema, BandRecord))));
    Build(AlbumSchema, AlbumRecord)
  }

  /** A form of four fields is built slot by slot. */
  lemma FourSlotBuild(s: Schema, r: Record, a: Slot, b: Slot, c: Slot, d: Slot)
    requires |s.fields| == 4
    requires BuildSlot(s.fields[0], r) == a && BuildSlot(s.fields[1], r) == b
    requires BuildSlot(s.fields[2], r) == c && BuildSlot(s.fields[3], r) == d
    ensures Build(s, r) == Form(r.id, [a, b, c, d])
  {
    assert Build(s, r).slots == [a, b, c, d];
  }

  lemma ArtistSlotBuilt()
    ensures BuildSlot(AlbumSchema.fields[0], AlbumRecord) == Sub(Some(Build(ArtistSchema, ArtistRecord)))
  {
  }

  lemma SongsSlotBuilt()
    ensures BuildSlot(AlbumSchema.fields[1], AlbumRecord) == Subs([Build(SongSchema, SongRecord)])
  {
    assert Records(AlbumRecord, "songs") == [SongRecord];
  }

  lemma LabelSlotBuilt()
    ensures BuildSlot(AlbumSchema.fields[2], AlbumRecord) == Sub(Some(Build(LabelSchema, LabelRecord)))
  {
  }

  lemma BandSlotBuilt()
    ensures BuildSlot(AlbumSchema.fields[3], AlbumRecord) == Sub(Some(Build(BandSchema, BandRecord)))
  {
  }

  lemma ArtistBuilt()
    ensures Build(ArtistSchema, ArtistRecord) == Form(1, [Scalar(Text("Propagandhi"))])
  {
    assert Build(ArtistSchema, ArtistRecord).slots[0] == BuildSlot(ArtistSchema.fields[0], ArtistRecord);
  }

  lemma SongBuilt()
    ensures Build(SongSchema, SongRecord) == Form(2, [Scalar(Nil), Scalar(Nil)])
  {
    var song := Build(SongSchema, SongRecord);
    assert song.slots[0] == BuildSlot(SongSchema.fields[0], SongRecord);
    assert song.slots[1] == BuildSlot(SongSchema.fields[1], SongRecord);
  }

  lemma LabelBuilt()
    ensures Build(LabelSchema, LabelRecord) == Form(3, [Scalar(Nil)])
  {
    assert Build(LabelSchema, LabelRecord).slots[0] == BuildSlot(LabelSchema.fields[0], LabelRecord);
  }

  lemma BandBuilt()
    ensures Build(BandSchema, BandRecord) == Form(4, [Sub(Some(Form(5, [Scalar(Nil)])))])
  {
    var bandLabel := Build(BandLabelSchema, BandLabelRecord);
    assert bandLabel == Form(5, [Scalar(Nil)]) by {
      assert bandLabel.slots[0] == BuildSlot(BandLabelSchema.fields[0], BandLabelRecord);
    }
    var band := Build(BandSchema, BandRecord);
    assert band.slots[0] == BuildSlot(BandSchema.fields[0], BandRecord) == Sub(Some(bandLabel));
  }

  /** A schema of four nested fields accepts exactly their four `_attributes` keys. */
  lemma FourSetters(s: Schema)
    requires |s.fields| == 4 && forall i :: 0 <= i < 4 ==> IsNestedField(s.fields[i])
    ensures AttributeSetters(s) == {
      AttributesKey(s.fields[0].name), AttributesKey(s.fields[1].name),
      AttributesKey(s.fields[2].name), AttributesKey(s.fields[3].name)
    }
  {
    var four := {
      AttributesKey(s.fields[0].name), AttributesKey(s.fields[1].name),
      AttributesKey(s.fields[2].name), AttributesKey(s.fields[3].name)
    };
    forall k | k in AttributeSetters(s) ensures k in four {
      var i :| 0 <= i < |s.fields| && IsNestedField(s.fields[i]) && k == AttributesKey(s.fields[i].name);
      assert i == 0 || i == 1 || i == 2 || i == 3;
    }
  }

  /** Every nested field, single or collection, inline or `:form => LabelForm`, accepts `<name>_attributes`. */
  lemma AttributeSettersDefined()
    ensures AttributeSetters(AlbumSchema) == {"artist_attributes", "songs_attributes", "label_attributes", "band_attributes"}
  {
    FourSetters(AlbumSchema);
    ArtistKey();
    SongsKey();
    LabelKey();
    BandKey();
  }

  // The four spelled-out keys, one per lemma: together in one proof the literal strings are costly.
  lemma ArtistKey() ensures AttributesKey("artist") == "artist_attributes" {}
  lemma SongsKey() ensures AttributesKey("songs") == "songs_attributes" {}
  lemma LabelKey() ensures AttributesKey("label") == "label_attributes" {}
  lemma BandKey() ensures AttributesKey("band") == "band_attributes" {}

  // ---------------------------------------------------------------------
  // "respects _attributes params hash"

  const AttributesParams: Payload := map[
    "artist_attributes" := Hash(map["name" := Str("Blink 182")]),
    "songs_attributes" := Hash(map["0" := Hash(map["title" := Str("Damnit")])]),
    "band_attributes" := Hash(map["label_attributes" := Hash(map["name" := Str("Epitaph")])])
  ]

  /** A payload of plain strings that holds no date part of `name`. */
  lemma NoDateParts(p: Payload, name: string)
    requires forall k :: k in p ==> |k| != |name| + 4
    ensures !HasDateParts(p, name)
  {
  }

  /** A single property set from a one-key payload holding a plain string. */
  lemma PropertySet(s: Schema, model: nat, was: Value, name: string, presence: bool, text: string)
    requires s == Schema([Property(name, presence)])
    ensures Populated(s, Form(model, [Scalar(was)]), map[name := Str(text)]) == Form(model, [Scalar(Text(text))])
  {
    var p := map[name := Str(text)];
    NoDateParts(p, name);
    var r := Populated(s, Form(model, [Scalar(was)]), p);
    assert r.slots[0] == PopulatedSlot(s.fields[0], Scalar(was), p);
  }

  lemma SongTitleSet(title: string)
    ensures Populated(SongSchema, Form(2, [Scalar(Nil), Scalar(Nil)]), map["title" := Str(title)])
      == Form(2, [Scalar(Text(title)), Scalar(Nil)])
  {
    var p := map["title" := Str(title)];
    NoDateParts(p, "title");
    NoDateParts(p, "release_date");
    var r := Populated(SongSchema, Form(2, [Scalar(Nil), Scalar(Nil)]), p);
    assert r.slots[0] == PopulatedSlot(SongSchema.fields[0], Scalar(Nil), p);
    assert r.slots[1] == PopulatedSlot(SongSchema.fields[1], Scalar(Nil), p);
  }

  /** A populated tree is determined slot by slot. */
  lemma PopulatedByFourSlots(s: Schema, f: Form, p: Payload, a: Slot, b: Slot, c: Slot, d: Slot)
    requires |f.slots| == |s.fields| == 4
    requires PopulatedSlot(s.fields[0], f.slots[0], p) == a && PopulatedSlot(s.fields[1], f.slots[1], p) == b
    requires PopulatedSlot(s.fields[2], f.slots[2], p) == c && PopulatedSlot(s.fields[3], f.slots[3], p) == d
    ensures Populated(s, f, p) == Form(f.model, [a, b, c, d])
  {
  }

  lemma ArtistSlotSet(p: Payload, name: string)
    requires HashParam(p, "artist_attributes") == Some(map["name" := Str(name)])
    ensures PopulatedSlot(AlbumSchema.fields[0], Sub(Some(Form(1, [Scalar(Text("Propagandhi"))]))), p)
      == Sub(Some(Form(1, [Scalar(Text(name))])))
  {
    assert AttributesKey("artist") == "artist_attributes";
    PropertySet(ArtistSchema, 1, Text("Propagandhi"), "name", true, name);
  }

  /** The collection hash `{"0" => q}` populates the only song, and no other, with `q`. */
  lemma SongsSlotSet(p: Payload, q: Payload)
    requires HashParam(p, "songs_attributes") == Some(map["0" := Hash(q)])
    ensures var song := Form(2, [Scalar(Nil), Scalar(Nil)]);
      PopulatedSlot(AlbumSchema.fields[1], Subs([song]), p) == Subs([Populated(SongSchema, song, q)])
  {
    assert AttributesKey("songs") == "songs_attributes";
    assert Numerals.Decimal(0) == "0";
  }

  /** No `<name>_attributes` key: the nested slot keeps its sub-form. */
  lemma NestedSlotKept(field: Field, slot: Slot, p: Payload)
    requires slot.Sub? && AttributesKey(field.name) !in p
    ensures PopulatedSlot(field, slot, p) == slot
  {
  }

  lemma BandLabelSet()
    ensures Populated(BandSchema, Form(4, [Sub(Some(Form(5, [Scalar(Nil)])))]),
      map["label_attributes" := Hash(map["name" := Str("Epitaph")])])
      == Form(4, [Sub(Some(Form(5, [Scalar(Text("Epitaph"))])))])
  {
    assert AttributesKey("label") == "label_attributes";
    PropertySet(BandLabelSchema, 5, Nil, "name", false, "Epitaph");
    SingleNestedSet(BandSchema, 4, "label", FormClass(None, BandLabelSchema), Form(5, [Scalar(Nil)]),
      map["name" := Str("Epitaph")], Form(5, [Scalar(Text("Epitaph"))]));
  }

  /** A form with one nested single: its `_attributes` hash populates the sub-form. */
  lemma SingleNestedSet(s: Schema, model: nat, name: string, fc: FormClass, inner: Form, q: Payload, result: Form)
    requires s == Schema([Nested(name, fc)]) && Populated(fc.schema, inner, q) == result
    ensures Populated(s, Form(model, [Sub(Some(inner))]), map[AttributesKey(name) := Hash(q)]) == Form(model, [Sub(Some(result))])
  {
    var p := map[AttributesKey(name) := Hash(q)];
    var r := Populated(s, Form(model, [Sub(Some(inner))]), p);
    assert r.slots[0] == PopulatedSlot(s.fields[0], Sub(Some(inner)), p);
  }

  lemma BandSlotSet(p: Payload)
    requires HashParam(p, "band_attributes") == Some(map["label_attributes" := Hash(map["name" := Str("Epitaph")])])
    ensures PopulatedSlot(AlbumSchema.fields[3], Sub(Some(Form(4, [Sub(Some(Form(5, [Scalar(Nil)])))]))), p)
      == Sub(Some(Form(4, [Sub(Some(Form(5, [Scalar(Text("Epitaph"))])))])))
  {
    assert AttributesKey("band") == "band_attributes";
    BandLabelSet();
  }

  /** `label_attributes` is none of the keys the scenarios submit. */
  lemma LabelNotSubmitted(p: Payload)
    requires p.Keys <= {"artist_attributes", "songs_attributes", "band_attributes"}
    ensures AttributesKey(AlbumSchema.fields[2].name) !in p
  {
    var k := AttributesKey("label");
    assert k == "label_attributes";
    assert k[0] == 'l';
    assert k != "songs_attributes" by { assert "songs_attributes"[0] == 's'; }
    assert |k| != |"artist_attributes"| && |k| != |"band_attributes"|;
  }

  lemma AttributesParamsLookups()
    ensures HashParam(AttributesParams, "artist_attributes") == Some(map["name" := Str("Blink 182")])
    ensures HashParam(AttributesParams, "songs_attributes") == Some(map["0" := Hash(map["title" := Str("Damnit")])])
    ensures HashParam(AttributesParams, "band_attributes")
      == Some(map["label_attributes" := Hash(map["name" := Str("Epitaph")])])
    ensures AttributesParams.Keys <= {"artist_attributes", "songs_attributes", "band_attributes"}
  {
  }

  /**
   * Exactly `artist.name`, `songs[0].title` and `band.label.name` change;
   * everything else, `label` included, keeps the value read from the records.
   */
  lemma RespectsAttributesHash()
    ensures Populated(AlbumSchema, InitialForm(), AttributesParams) == Form(0, [
      Sub(Some(Form(1, [Scalar(Text("Blink 182"))]))),
      Subs([Form(2, [Scalar(Text("Damnit")), Scalar(Nil)])]),
      Sub(Some(Form(3, [Scalar(Nil)]))),
      Sub(Some(Form(4, [Sub(Some(Form(5, [Scalar(Text("Epitaph"))])))])))
    ])
  {
    var f, p := InitialForm(), AttributesParams;
    AttributesParamsLookups();
    ArtistSlotSet(p, "Blink 182");
    SongsSlotSet(p, map["title" := Str("Damnit")]);
    SongTitleSet("Damnit");
    LabelNotSubmitted(p);
    NestedSlotKept(AlbumSchema.fields[2], Sub(Some(Form(3, [Scalar(Nil)]))), p);
    BandSlotSet(p);
    PopulatedByFourSlots(AlbumSchema, f, p,
      Sub(Some(Form(1, [Scalar(Text("Blink 182"))]))),
      Subs([Form(2, [Scalar(Text("Damnit")), Scalar(Nil)])]),
      Sub(Some(Form(3, [Scalar(Nil)]))),
      Sub(Some(Form(4, [Sub(Some(Form(5, [Scalar(Text("Epitaph"))])))]))));
  }
  // ---------------------------------------------------------------------
  // "allows nested collection and property to be missing"

  /** An empty payload keeps `artist.name`, the one song, and the record that song wraps. */
  lemma AllowsMissingNested()
    ensures var r := Populated(AlbumSchema, InitialForm(), map[]);
      && r == InitialForm()
      && r.slots[0].form.value.slots[0] == Scalar(Text("Propagandhi"))
      && |r.slots[1].items| == 1
      && r.slots[1].items[0].model == SongRecord.id
  {
    PopulateNothing(AlbumSchema, InitialForm());
  }

  // ---------------------------------------------------------------------
  // "deconstructed date parameters"

  function DateAttributes(year: string, month: string, day: string): Payload {
    map[
      "artist_attributes" := Hash(map["name" := Str("Blink 182")]),
      "songs_attributes" := Hash(map["0" := Hash(SongDateParams(year, month, day))])
    ]
  }

  function SongDateParams(year: string, month: string, day: string): Payload {
    map["title" := Str("Damnit"), "release_date(1i)" := Str(year),
      "release_date(2i)" := Str(month), "release_date(3i)" := Str(day)]
  }

  /** The song takes the title and the date the three parts combine to (nil when one is left blank). */
  lemma SongDateSet(year: string, month: string, day: string)
    ensures Populated(SongSchema, Form(2, [Scalar(Nil), Scalar(Nil)]), SongDateParams(year, month, day))
      == Form(2, [Scalar(Text("Damnit")), Scalar(DateValue(CoerceDate(Some(year), Some(month), Some(day))))])
  {
    var q := SongDateParams(year, month, day);
    var r := Populated(SongSchema, Form(2, [Scalar(Nil), Scalar(Nil)]), q);
    SongTitleLookup(year, month, day);
    assert r.slots[0] == PopulatedSlot(SongSchema.fields[0], Scalar(Nil), q);
    SongDatePartLookups(year, month, day);
    assert r.slots[1] == PopulatedSlot(SongSchema.fields[1], Scalar(Nil), q);
  }

  lemma SongTitleLookup(year: string, month: string, day: string)
    ensures !HasDateParts(SongDateParams(year, month, day), "title")
    ensures StrParam(SongDateParams(year, month, day), "title") == Some("Damnit")
  {
    NoDateParts(SongDateParams(year, month, day), "title");
  }

  lemma SongDatePartLookups(year: string, month: string, day: string)
    ensures var q := SongDateParams(year, month, day);
      && StrParam(q, PartKey("release_date", 1)) == Some(year)
      && StrParam(q, PartKey("release_date", 2)) == Some(month)
      && StrParam(q, PartKey("release_date", 3)) == Some(day)
  {
    var k1, k2, k3 := PartKey("release_date", 1), PartKey("release_date", 2), PartKey("release_date", 3);
    assert k1 == "release_date(1i)" && k2 == "release_date(2i)" && k3 == "release_date(3i)";
    assert k1[13] == '1' && k2[13] == '2' && k3[13] == '3';
  }

  lemma DateAttributesPopulated(year: string, month: string, day: string)
    ensures Populated(AlbumSchema, InitialForm(), DateAttributes(year, month, day)).slots[1]
      == Subs([Form(2, [Scalar(Text("Damnit")), Scalar(DateValue(CoerceDate(Some(year), Some(month), Some(day))))])])
  {
    var p := DateAttributes(year, month, day);
    assert HashParam(p, "songs_attributes") == Some(map["0" := Hash(SongDateParams(year, month, day))]);
    SongsSlotSet(p, SongDateParams(year, month, day));
    SongDateSet(year, month, day);
  }

  /** "1997", "9" and "27" make `songs.first.release_date` the date 1997-09-27. */
  lemma CreatesDate()
    ensures Populated(AlbumSchema, InitialForm(), DateAttributes("1997", "9", "27")).slots[1].items[0].slots[1]
      == Scalar(Day(Date(1997, 9, 27)))
  {
    DateAttributesPopulated("1997", "9", "27");
    ReleaseDateParts();
  }

  lemma ReleaseDateParts()
    ensures CoerceDate(Some("1997"), Some("9"), Some("27")) == Some(Date(1997, 9, 27))
  {
    assert Numerals.Decimal(1997) == "1997" by {
      assert Numerals.Decimal(19) == "19";
      assert Numerals.Decimal(199) == "199";
    }
    assert Numerals.Decimal(9) == "9";
    assert Numerals.Decimal(27) == "27";
    DateRoundTrip(Date(1997, 9, 27));
  }

  /** With the year, the month or the day left empty, `songs.first.release_date` is nil. */
  lemma RejectsDate(year: string, month: string, day: string)
    requires year == "" || month == "" || day == ""
    ensures Populated(AlbumSchema, InitialForm(), DateAttributes(year, month, day)).slots[1].items[0].slots[1]
      == Scalar(Nil)
  {
    DateAttributesPopulated(year, month, day);
  }

  // ---------------------------------------------------------------------
  // "returns flat errors hash"

  const BlankAttributes: Payload := map[
    "artist_attributes" := Hash(map["name" := Str("")]),
    "songs_attributes" := Hash(map["0" := Hash(map["title" := Str("")])])
  ]

  lemma BandNotSubmitted(p: Payload)
    requires p.Keys <= {"artist_attributes", "songs_attributes"}
    ensures AttributesKey(AlbumSchema.fields[3].name) !in p
  {
    assert AttributesKey("band") == "band_attributes";
    assert |"band_attributes"| != |"artist_attributes"| && |"band_attributes"| != |"songs_attributes"|;
  }

  lemma BlankAttributesPopulated()
    ensures Populated(AlbumSchema, InitialForm(), BlankAttributes) == BlankTree
  {
    var f, p := InitialForm(), BlankAttributes;
    ArtistSlotSet(p, "");
    SongsSlotSet(p, map["title" := Str("")]);
    SongTitleSet("");
    LabelNotSubmitted(p);
    NestedSlotKept(AlbumSchema.fields[2], f.slots[2], p);
    BandNotSubmitted(p);
    NestedSlotKept(AlbumSchema.fields[3], f.slots[3], p);
    PopulatedByFourSlots(AlbumSchema, f, p,
      Sub(Some(Form(1, [Scalar(Text(""))]))),
      Subs([Form(2, [Scalar(Text("")), Scalar(Nil)])]),
      f.slots[2],
      f.slots[3]);
  }

  /** The tree after the blank submission. */
  const BlankTree := Form(0, [
    Sub(Some(Form(1, [Scalar(Text(""))]))),
    Subs([Form(2, [Scalar(Text("")), Scalar(Nil)])]),
    Sub(Some(Form(3, [Scalar(Nil)]))),
    Sub(Some(Form(4, [Sub(Some(Form(5, [Scalar(Nil)])))])))
  ])

  /** A one-property form reports a blank error for that property exactly as its rule and value say. */
  lemma SinglePropertyErrors(s: Schema, f: Form, path: seq<string>)
    requires |s.fields| == 1 && s.fields[0].Property? && |f.slots| == 1 && f.slots[0].Scalar?
    ensures FormErrors(s, f, path) ==
      if s.fields[0].presence && Blank(f.slots[0].value) then [Error(path + [s.fields[0].name], BlankMessage)] else []
  {
    var ess := seq(1, i requires 0 <= i < 1 => SlotErrors(s.fields[i], f.slots[i], path));
    assert ess == [SlotErrors(s.fields[0], f.slots[0], path)];
  }

  lemma SongErrors(title: Value)
    ensures FormErrors(SongSchema, Form(2, [Scalar(title), Scalar(Nil)]), ["songs"]) ==
      if Blank(title) then [Error(["songs", "title"], BlankMessage)] else []
  {
    var song := Form(2, [Scalar(title), Scalar(Nil)]);
    assert ["songs"] + ["title"] == ["songs", "title"];
    var ess := seq(2, i requires 0 <= i < 2 => SlotErrors(SongSchema.fields[i], song.slots[i], ["songs"]));
    assert ess == [SlotErrors(SongSchema.fields[0], song.slots[0], ["songs"]), []];
    assert Concat([[]]) == [];
  }

  lemma BandErrors()
    ensures FormErrors(BandSchema, Form(4, [Sub(Some(Form(5, [Scalar(Nil)])))]), ["band"]) == []
  {
    var band := Form(4, [Sub(Some(Form(5, [Scalar(Nil)])))]);
    SinglePropertyErrors(BandLabelSchema, Form(5, [Scalar(Nil)]), ["band", "label"]);
    var ess := seq(1, i requires 0 <= i < 1 => SlotErrors(BandSchema.fields[i], band.slots[i], ["band"]));
    assert ess == [SlotErrors(BandSchema.fields[0], band.slots[0], ["band"])];
  }

  lemma ConcatFour(a: seq<Error>, b: seq<Error>, c: seq<Error>, d: seq<Error>)
    ensures Concat([a, b, c, d]) == a + b + c + d
  {
    assert [a, b, c, d][1..] == [b, c, d];
    assert [b, c, d][1..] == [c, d];
    assert [c, d][1..] == [d];
    assert [d][1..] == [];
    assert Concat([d]) == d;
    assert Concat([c, d]) == c + d;
    assert Concat([b, c, d]) == b + c + d;
  }

  lemma ArtistErrors()
    ensures SlotErrors(AlbumSchema.fields[0], BlankTree.slots[0], []) == [Error(["artist", "name"], BlankMessage)]
  {
    assert Blank(Text(""));
    SinglePropertyErrors(ArtistSchema, Form(1, [Scalar(Text(""))]), ["artist"]);
    assert ["artist"] + ["name"] == ["artist", "name"];
    assert [] + ["artist"] == ["artist"];
  }

  lemma SongsErrors()
    ensures SlotErrors(AlbumSchema.fields[1], BlankTree.slots[1], []) == [Error(["songs", "title"], BlankMessage)]
  {
    assert Blank(Text(""));
    SongErrors(Text(""));
    assert [] + ["songs"] == ["songs"];
    var songs := [Form(2, [Scalar(Text("")), Scalar(Nil)])];
    var items := seq(1, j requires 0 <= j < 1 => FormErrors(SongSchema, songs[j], ["songs"]));
    assert items == [[Error(["songs", "title"], BlankMessage)]];
    assert [[Error(["songs", "title"], BlankMessage)]][1..] == [];
  }

  lemma LabelAndBandErrors()
    ensures SlotErrors(AlbumSchema.fields[2], BlankTree.slots[2], []) == []
    ensures SlotErrors(AlbumSchema.fields[3], BlankTree.slots[3], []) == []
  {
    SinglePropertyErrors(LabelSchema, Form(3, [Scalar(Nil)]), ["label"]);
    BandErrors();
    assert [] + ["label"] == ["label"] && [] + ["band"] == ["band"];
  }

  lemma BlankTreeErrors()
    ensures FormErrors(AlbumSchema, BlankTree, [])
      == [Error(["artist", "name"], BlankMessage), Error(["songs", "title"], BlankMessage)]
  {
    ArtistErrors();
    SongsErrors();
    LabelAndBandErrors();
    var e1, e2 := Error(["artist", "name"], BlankMessage), Error(["songs", "title"], BlankMessage);
    FourSlotErrors(AlbumSchema, BlankTree, [], [e1], [e2], [], []);
    assert [e1] + [e2] + [] + [] == [e1, e2];
  }

  /** The errors of a four-field form are those of its four slots, in order. */
  lemma FourSlotErrors(s: Schema, f: Form, path: seq<string>, a: seq<Error>, b: seq<Error>, c: seq<Error>, d: seq<Error>)
    requires |s.fields| == 4 && |f.slots| == 4
    requires SlotErrors(s.fields[0], f.slots[0], path) == a && SlotErrors(s.fields[1], f.slots[1], path) == b
    requires SlotErrors(s.fields[2], f.slots[2], path) == c && SlotErrors(s.fields[3], f.slots[3], path) == d
    ensures FormErrors(s, f, path) == a + b + c + d
  {
    var ess := seq(4, i requires 0 <= i < 4 => SlotErrors(s.fields[i], f.slots[i], path));
    assert ess == [a, b, c, d];
    ConcatFour(a, b, c, d);
  }

  lemma MergeBlankErrors()
    ensures Merge(map[], [Error(["artist", "name"], BlankMessage), Error(["songs", "title"], BlankMessage)])
      == map["artist.name" := [BlankMessage], "songs.title" := [BlankMessage]]
  {
    var es := [Error(["artist", "name"], BlankMessage), Error(["songs", "title"], BlankMessage)];
    assert Join(["artist", "name"]) == "artist.name";
    assert Join(["songs", "title"]) == "songs.title";
    assert es[1..] == [Error(["songs", "title"], BlankMessage)];
    var m1 := AddMessage(map[], "artist.name", BlankMessage);
    assert m1 == map["artist.name" := [BlankMessage]];
    assert "songs.title" != "artist.name" by { assert "songs.title"[0] == 's' && "artist.name"[0] == 'a'; }
    assert Merge(m1, es[1..]) == AddMessage(m1, "songs.title", BlankMessage);
  }

  /** Blank `artist.name` and `songs[0].title`: exactly two keys, dotted, without the collection index. */
  lemma ReturnsFlatErrorsHash()
    ensures FlattenErrors(AlbumSchema, Populated(AlbumSchema, InitialForm(), BlankAttributes))
      == map["artist.name" := ["can't be blank"], "songs.title" := ["can't be blank"]]
  {
    BlankAttributesPopulated();
    BlankTreeErrors();
    MergeBlankErrors();
  }
}
