/**
 * The validation aggregator: presence validation over every sub-form
 * reachable from the root, and the merge of all their errors into one
 * map keyed by the dotted path of field names from the root (collection
 * positions are not part of the key).
 */
module Errors {
  import opened Wrappers
  import opened Schemas
  import opened Forms

  const BlankMessage := "can't be blank"

  predicate IsSpace(c: char) {
    c == ' ' || c == '\t' || c == '\n' || c == '\r' || c == '\U{C}' || c == '\U{B}'
  }

  /** The presence rule rejects nil and strings made only of white space; a date is never blank. */
  predicate Blank(v: Value): (b: bool)
    ensures v == Nil || v == Text("") ==> b
    ensures v.Day? ==> !b
    ensures v.Text? && (exists i :: 0 <= i < |v.s| && !IsSpace(v.s[i])) ==> !b
  {
    v.Nil? || (v.Text? && forall i :: 0 <= i < |v.s| ==> IsSpace(v.s[i]))
  }

  /** One validation failure: the field names from the root to the field, and the message. */
  datatype Error = Error(path: seq<string>, message: string)

  function Concat(ess: seq<seq<Error>>): (es: seq<Error>)
    ensures forall e :: e in es <==> exists i :: 0 <= i < |ess| && e in ess[i]
    ensures es == [] <==> forall i :: 0 <= i < |ess| ==> ess[i] == []
  {
    if ess == [] then [] else ess[0] + Concat(ess[1..])
  }

  /** The errors of form `f` (schema `s`) and of every form under it; `path` leads from the root to `f`. */
  function FormErrors(s: Schema, f: Form, path: seq<string>): (es: seq<Error>)
    ensures forall e :: e in es ==> e.message == BlankMessage && |e.path| > |path|
    decreases f, 1
  {
    var n := if |f.slots| < |s.fields| then |f.slots| else |s.fields|;
    Concat(seq(n, i requires 0 <= i < n => SlotErrors(s.fields[i], f.slots[i], path)))
  }

  function SlotErrors(field: Field, slot: Slot, path: seq<string>): (es: seq<Error>)
    ensures forall e :: e in es ==> e.message == BlankMessage && |e.path| > |path|
    ensures field.Property? && !field.presence ==> es == []
    ensures slot.Scalar? ==> |es| <= 1
    decreases slot, 0
  {
    match slot
    case Scalar(v) =>
      if field.Property? && field.presence && Blank(v) then [Error(path + [field.name], BlankMessage)] else []
    case Sub(g) =>
      if field.Nested? && g.Some? then FormErrors(field.form.schema, g.value, path + [field.name]) else []
    case Subs(items) =>
      if field.Collection? then
        Concat(seq(|items|, j requires 0 <= j < |items| => FormErrors(field.form.schema, items[j], path + [field.name])))
      else []
  }

  /** Every presence-validated property of every reachable form holds a non-blank value. */
  predicate AllPresent(s: Schema, f: Form)
    decreases f, 1
  {
    forall i :: 0 <= i < |f.slots| && i < |s.fields| ==> SlotPresent(s.fields[i], f.slots[i])
  }

  predicate SlotPresent(field: Field, slot: Slot)
    decreases slot, 0
  {
    match slot
    case Scalar(v) => field.Property? && field.presence ==> !Blank(v)
    case Sub(g) => field.Nested? && g.Some? ==> AllPresent(field.form.schema, g.value)
    case Subs(items) => field.Collection? ==> forall j :: 0 <= j < |items| ==> AllPresent(field.form.schema, items[j])
  }

  /** A form tree has no errors exactly when every presence rule in it holds. */
  lemma {:induction false} NoErrorsIffAllPresent(s: Schema, f: Form, path: seq<string>)
    ensures FormErrors(s, f, path) == [] <==> AllPresent(s, f)
    decreases f, 1
  {
    var n := if |f.slots| < |s.fields| then |f.slots| else |s.fields|;
    var ess := seq(n, i requires 0 <= i < n => SlotErrors(s.fields[i], f.slots[i], path));
    assert FormErrors(s, f, path) == Concat(ess);
    forall i | 0 <= i < n
      ensures ess[i] == [] <==> SlotPresent(s.fields[i], f.slots[i])
    {
      SlotNoErrorsIffPresent(s.fields[i], f.slots[i], path);
    }
  }

  lemma {:induction false} SlotNoErrorsIffPresent(field: Field, slot: Slot, path: seq<string>)
    ensures SlotErrors(field, slot, path) == [] <==> SlotPresent(field, slot)
    decreases slot, 0
  {
    match slot
    case Scalar(_) =>
    case Sub(g) =>
      if field.Nested? && g.Some? {
        NoErrorsIffAllPresent(field.form.schema, g.value, path + [field.name]);
      }
    case Subs(items) =>
      if field.Collection? {
        var ess := seq(|items|, j requires 0 <= j < |items| => FormErrors(field.form.schema, items[j], path + [field.name]));
        assert SlotErrors(field, slot, path) == Concat(ess);
        forall j | 0 <= j < |items|
          ensures ess[j] == [] <==> AllPresent(field.form.schema, items[j])
        {
          NoErrorsIffAllPresent(field.form.schema, items[j], path + [field.name]);
        }
      }
  }

  /**
   * The property reached from `f` by the field names `q` has a presence
   * rule and a blank value: `q` names a chain of nested singles and
   * collections (through any one item of a collection) that ends in that
   * property.
   */
  predicate BlankAt(s: Schema, f: Form, q: seq<string>)
    decreases f, 1
  {
    |q| >= 1 &&
    exists i :: 0 <= i < |f.slots| && i < |s.fields| && s.fields[i].name == q[0] && SlotBlankAt(s.fields[i], f.slots[i], q[1..])
  }

  predicate SlotBlankAt(field: Field, slot: Slot, rest: seq<string>)
    decreases slot, 0
  {
    match slot
    case Scalar(v) => rest == [] && field.Property? && field.presence && Blank(v)
    case Sub(g) => field.Nested? && g.Some? && BlankAt(field.form.schema, g.value, rest)
    case Subs(items) => field.Collection? && exists j :: 0 <= j < |items| && BlankAt(field.form.schema, items[j], rest)
  }

  /**
   * The errors under `path` are exactly one blank message for every blank
   * presence-validated property: its key is `path` followed by the field
   * names that lead to that property.
   */
  lemma {:induction false} ErrorsExactlyBlanks(s: Schema, f: Form, path: seq<string>)
    ensures forall e :: e in FormErrors(s, f, path) <==>
      e.message == BlankMessage && |e.path| > |path| && e.path[..|path|] == path && BlankAt(s, f, e.path[|path|..])
    decreases f, 1
  {
    var n := if |f.slots| < |s.fields| then |f.slots| else |s.fields|;
    var ess := seq(n, i requires 0 <= i < n => SlotErrors(s.fields[i], f.slots[i], path));
    assert FormErrors(s, f, path) == Concat(ess);
    forall e ensures e in FormErrors(s, f, path) <==>
      e.message == BlankMessage && |e.path| > |path| && e.path[..|path|] == path && BlankAt(s, f, e.path[|path|..])
    {
      if e in FormErrors(s, f, path) {
        var i :| 0 <= i < n && e in ess[i];
        SlotErrorsExactlyBlanks(s.fields[i], f.slots[i], path);
        var q := e.path[|path|..];
        assert q[0] == e.path[|path|];
        assert q[1..] == e.path[|path| + 1..];
      }
      if e.message == BlankMessage && |e.path| > |path| && e.path[..|path|] == path && BlankAt(s, f, e.path[|path|..]) {
        var q := e.path[|path|..];
        var i :| 0 <= i < |f.slots| && i < |s.fields| && s.fields[i].name == q[0] && SlotBlankAt(s.fields[i], f.slots[i], q[1..]);
        assert q[1..] == e.path[|path| + 1..];
        SlotErrorsExactlyBlanks(s.fields[i], f.slots[i], path);
        assert e in ess[i];
      }
    }
  }

  /** The predicate the errors of one slot satisfy: a blank message under `path`, then the field's name, then a blank's path. */
  predicate SlotBlankError(field: Field, slot: Slot, path: seq<string>, e: Error) {
    e.message == BlankMessage && |e.path| > |path| && e.path[..|path|] == path && e.path[|path|] == field.name
      && SlotBlankAt(field, slot, e.path[|path| + 1..])
  }

  lemma {:induction false} SlotErrorsExactlyBlanks(field: Field, slot: Slot, path: seq<string>)
    ensures forall e :: e in SlotErrors(field, slot, path) <==> SlotBlankError(field, slot, path, e)
    decreases slot, 0
  {
    match slot
    case Scalar(_) => ScalarErrorsExact(field, slot, path);
    case Sub(g) =>
      if field.Nested? && g.Some? {
        ErrorsExactlyBlanks(field.form.schema, g.value, path + [field.name]);
        SubErrorsExact(field, slot, path);
      }
    case Subs(items) =>
      if field.Collection? {
        forall j | 0 <= j < |items| {
          ErrorsExactlyBlanks(field.form.schema, items[j], path + [field.name]);
        }
        SubsErrorsExact(field, slot, path);
      }
  }

  lemma ScalarErrorsExact(field: Field, slot: Slot, path: seq<string>)
    requires slot.Scalar?
    ensures forall e :: e in SlotErrors(field, slot, path) <==> SlotBlankError(field, slot, path, e)
  {
    var here := path + [field.name];
    var hit := field.Property? && field.presence && Blank(slot.value);
    assert SlotErrors(field, slot, path) == if hit then [Error(here, BlankMessage)] else [];
    forall e ensures e in SlotErrors(field, slot, path) <==> SlotBlankError(field, slot, path, e) {
      if SlotBlankError(field, slot, path, e) {
        assert SlotBlankAt(field, slot, e.path[|path| + 1..]);
        assert hit && |e.path| == |path| + 1;
        assert e.path == e.path[..|path|] + [e.path[|path|]];
        assert e == Error(here, BlankMessage);
      }
      if e in SlotErrors(field, slot, path) {
        assert hit && e == Error(here, BlankMessage);
        assert e.path[..|path|] == path && e.path[|path|] == field.name;
        assert e.path[|path| + 1..] == [];
      }
    }
  }

  lemma SubErrorsExact(field: Field, slot: Slot, path: seq<string>)
    requires field.Nested? && slot.Sub? && slot.form.Some?
    requires var here := path + [field.name];
      forall e :: e in FormErrors(field.form.schema, slot.form.value, here) <==>
        e.message == BlankMessage && |e.path| > |here| && e.path[..|here|] == here && BlankAt(field.form.schema, slot.form.value, e.path[|here|..])
    ensures forall e :: e in SlotErrors(field, slot, path) <==> SlotBlankError(field, slot, path, e)
  {
    var here := path + [field.name];
    var sub, g := field.form.schema, slot.form.value;
    assert slot == Sub(Some(g));
    assert SlotErrors(field, slot, path) == FormErrors(sub, g, here);
    forall e ensures e in SlotErrors(field, slot, path) <==> SlotBlankError(field, slot, path, e) {
      if |e.path| > |path| + 1 {
        ExtendPrefix(path, field.name, e.path);
        assert e.path[|here|..] == e.path[|path| + 1..];
        assert SlotBlankAt(field, slot, e.path[|path| + 1..]) == BlankAt(sub, g, e.path[|path| + 1..]);
      } else {
        assert e !in FormErrors(sub, g, here);
        if |e.path| > |path| {
          assert !BlankAt(sub, g, e.path[|path| + 1..]);
          assert !SlotBlankAt(field, slot, e.path[|path| + 1..]);
        }
      }
    }
  }

  lemma SubsErrorsExact(field: Field, slot: Slot, path: seq<string>)
    requires field.Collection? && slot.Subs?
    requires var here := path + [field.name];
      forall j, e :: 0 <= j < |slot.items| ==>
        (e in FormErrors(field.form.schema, slot.items[j], here) <==>
          e.message == BlankMessage && |e.path| > |here| && e.path[..|here|] == here && BlankAt(field.form.schema, slot.items[j], e.path[|here|..]))
    ensures forall e :: e in SlotErrors(field, slot, path) <==> SlotBlankError(field, slot, path, e)
  {
    var here := path + [field.name];
    var items := slot.items;
    var ess := seq(|items|, j requires 0 <= j < |items| => FormErrors(field.form.schema, items[j], here));
    assert SlotErrors(field, slot, path) == Concat(ess);
    forall e ensures e in SlotErrors(field, slot, path) <==> SlotBlankError(field, slot, path, e) {
      if |e.path| > |path| + 1 {
        ExtendPrefix(path, field.name, e.path);
      }
      if e in SlotErrors(field, slot, path) {
        var j :| 0 <= j < |items| && e in ess[j];
      }
      if SlotBlankError(field, slot, path, e) {
        var j :| 0 <= j < |items| && BlankAt(field.form.schema, items[j], e.path[|path| + 1..]);
        assert e in ess[j];
      }
    }
  }

  /** A path starts with `path + [name]` exactly when it starts with `path` and then `name`. */
  lemma ExtendPrefix(path: seq<string>, name: string, p: seq<string>)
    requires |p| >= |path| + 1
    ensures p[..|path| + 1] == path + [name] <==> p[..|path|] == path && p[|path|] == name
  {
    assert p[..|path| + 1] == p[..|path|] + [p[|path|]];
  }

  /**
   * The field names leading through nested singles and collections to a
   * property that has a presence rule. Such a path is made of field names
   * only: no collection position can appear in it.
   */
  predicate ValidatedPath(s: Schema, q: seq<string>)
    decreases |q|
  {
    |q| >= 1 &&
    exists i :: 0 <= i < |s.fields| && s.fields[i].name == q[0] &&
      match s.fields[i]
      case Property(_, presence) => |q| == 1 && presence
      case Nested(_, fc) => ValidatedPath(fc.schema, q[1..])
      case Collection(_, fc) => ValidatedPath(fc.schema, q[1..])
  }

  /** Every error is a blank message under `path` followed by a validated path of the schema. */
  lemma {:induction false} ErrorsFollowSchema(s: Schema, f: Form, path: seq<string>)
    ensures forall e :: e in FormErrors(s, f, path) ==>
      e.message == BlankMessage && |e.path| > |path| && e.path[..|path|] == path && ValidatedPath(s, e.path[|path|..])
    decreases f, 1
  {
    var n := if |f.slots| < |s.fields| then |f.slots| else |s.fields|;
    forall i | 0 <= i < n
      ensures forall e :: e in SlotErrors(s.fields[i], f.slots[i], path) ==>
        e.message == BlankMessage && |e.path| > |path| && e.path[..|path|] == path && ValidatedPath(s, e.path[|path|..])
    {
      SlotErrorsFollowSchema(s, i, f.slots[i], path);
    }
  }

  lemma {:induction false} SlotErrorsFollowSchema(s: Schema, i: nat, slot: Slot, path: seq<string>)
    requires i < |s.fields|
    ensures forall e :: e in SlotErrors(s.fields[i], slot, path) ==>
      e.message == BlankMessage && |e.path| > |path| && e.path[..|path|] == path && ValidatedPath(s, e.path[|path|..])
    decreases slot, 0
  {
    var field := s.fields[i];
    var here := path + [field.name];
    match slot
    case Scalar(v) =>
      if field.Property? && field.presence && Blank(v) {
        assert here[|path|..] == [field.name];
        assert here[..|path|] == path;
      }
    case Sub(g) =>
      if field.Nested? && g.Some? {
        ErrorsFollowSchema(field.form.schema, g.value, here);
        forall e | e in FormErrors(field.form.schema, g.value, here)
          ensures |e.path| > |path| && e.path[..|path|] == path && ValidatedPath(s, e.path[|path|..])
        {
          DescendPath(s, i, path, e.path);
        }
      }
    case Subs(items) =>
      if field.Collection? {
        forall j, e | 0 <= j < |items| && e in FormErrors(field.form.schema, items[j], here)
          ensures e.message == BlankMessage && |e.path| > |path| && e.path[..|path|] == path && ValidatedPath(s, e.path[|path|..])
        {
          ErrorsFollowSchema(field.form.schema, items[j], here);
          DescendPath(s, i, path, e.path);
        }
      }
  }

  /** A validated path of a nested field's schema, below that field's name, is a validated path of the parent. */
  lemma DescendPath(s: Schema, i: nat, path: seq<string>, full: seq<string>)
    requires i < |s.fields| && IsNestedField(s.fields[i])
    requires var here := path + [s.fields[i].name];
      |full| > |here| && full[..|here|] == here && ValidatedPath(s.fields[i].form.schema, full[|here|..])
    ensures |full| > |path| && full[..|path|] == path && ValidatedPath(s, full[|path|..])
  {
    var here := path + [s.fields[i].name];
    var q := full[|path|..];
    assert full[..|path|] == here[..|path|] == path;
    assert q[0] == full[|path|] == here[|path|] == s.fields[i].name;
    assert q[1..] == full[|here|..];
  }

  // ---------------------------------------------------------------------
  // Flattening

  /** Dotted key of a path: `["artist", "name"]` becomes `"artist.name"`. */
  function Join(path: seq<string>): (k: string)
    ensures |path| >= 1 ==> |k| >= |path[0]| && k[..|path[0]|] == path[0]
    ensures |path| >= 2 ==> |k| > |path[0]| && k[|path[0]|] == '.'
  {
    if |path| == 0 then "" else if |path| == 1 then path[0] else path[0] + "." + Join(path[1..])
  }

  /** No field name on the path contains a dot (field names are Ruby identifiers). */
  predicate DotFree(path: seq<string>) {
    forall i, c :: 0 <= i < |path| && 0 <= c < |path[i]| ==> path[i][c] != '.'
  }

  /** Dotted keys of non-empty dot-free paths are equal exactly when the paths are: two fields never share a key. */
  lemma {:induction false} JoinInjective(p: seq<string>, q: seq<string>)
    requires |p| >= 1 && |q| >= 1 && DotFree(p) && DotFree(q)
    ensures Join(p) == Join(q) <==> p == q
    decreases |p|
  {
    if Join(p) == Join(q) {
      var k := Join(p);
      var a, b := |p[0]|, |q[0]|;
      assert forall c :: 0 <= c < a ==> k[c] == p[0][c] != '.';
      assert forall c :: 0 <= c < b ==> k[c] == q[0][c] != '.';
      assert |p| == 1 ==> k == p[0];
      assert |q| == 1 ==> k == q[0];
      assert a == b;
      assert p[0] == k[..a] == q[0];
      assert |p| == 1 <==> |q| == 1;
      if |p| >= 2 {
        assert Join(p[1..]) == k[a + 1..] == Join(q[1..]);
        assert DotFree(p[1..]) by {
          forall i, c | 0 <= i < |p[1..]| && 0 <= c < |p[1..][i]| ensures p[1..][i][c] != '.' {
            assert p[1..][i] == p[i + 1];
          }
        }
        assert DotFree(q[1..]) by {
          forall i, c | 0 <= i < |q[1..]| && 0 <= c < |q[1..][i]| ensures q[1..][i][c] != '.' {
            assert q[1..][i] == q[i + 1];
          }
        }
        JoinInjective(p[1..], q[1..]);
        assert p == [p[0]] + p[1..] && q == [q[0]] + q[1..];
      }
    }
  }

  type ErrorMap = map<string, seq<string>>

  predicate NoDuplicates(ms: seq<string>) {
    forall a, b :: 0 <= a < b < |ms| ==> ms[a] != ms[b]
  }

  /** Every key holds at least one message and no message twice. */
  predicate WellFormedErrors(m: ErrorMap) {
    forall k :: k in m ==> |m[k]| > 0 && NoDuplicates(m[k])
  }

  /** Some error in `es` carries message `msg` under dotted key `k`. */
  predicate Reported(es: seq<Error>, k: string, msg: string) {
    exists j :: 0 <= j < |es| && Join(es[j].path) == k && es[j].message == msg
  }

  /** Record one message under a key, unless that key already has it. */
  function AddMessage(m: ErrorMap, k: string, msg: string): ErrorMap {
    if k !in m then m[k := [msg]] else if msg in m[k] then m else m[k := m[k] + [msg]]
  }

  function Merge(m: ErrorMap, es: seq<Error>): (r: ErrorMap)
    ensures forall k :: k in m ==> k in r && forall msg :: msg in m[k] ==> msg in r[k]
    decreases |es|
  {
    if es == [] then m else Merge(AddMessage(m, Join(es[0].path), es[0].message), es[1..])
  }

  /** One added message keeps the map well formed, adds its key and adds exactly that message. */
  lemma AddMessageFacts(m: ErrorMap, k0: string, msg0: string)
    requires WellFormedErrors(m)
    ensures var m' := AddMessage(m, k0, msg0);
      && WellFormedErrors(m')
      && (forall k :: k in m' <==> k in m || k == k0)
      && (forall k, msg :: k in m' && msg in m'[k] <==> (k in m && msg in m[k]) || (k == k0 && msg == msg0))
  {
    var m' := AddMessage(m, k0, msg0);
    if k0 in m && msg0 !in m[k0] {
      forall a, b | 0 <= a < b < |m'[k0]| ensures m'[k0][a] != m'[k0][b] {
        if b == |m[k0]| {
          assert m'[k0][a] == m[k0][a];
        }
      }
    }
  }

  lemma {:induction false} MergeWellFormed(m: ErrorMap, es: seq<Error>)
    requires WellFormedErrors(m)
    ensures WellFormedErrors(Merge(m, es))
    decreases |es|
  {
    if es != [] {
      AddMessageFacts(m, Join(es[0].path), es[0].message);
      MergeWellFormed(AddMessage(m, Join(es[0].path), es[0].message), es[1..]);
    }
  }

  lemma {:induction false} MergeKeys(m: ErrorMap, es: seq<Error>)
    ensures var r := Merge(m, es);
      forall k :: k in r <==> k in m || exists j :: 0 <= j < |es| && Join(es[j].path) == k
    decreases |es|
  {
    if es != [] {
      var k0 := Join(es[0].path);
      var m' := AddMessage(m, k0, es[0].message);
      assert forall k :: k in m' <==> k in m || k == k0;
      MergeKeys(m', es[1..]);
      var r := Merge(m', es[1..]);
      forall k ensures k in r <==> k in m || exists j :: 0 <= j < |es| && Join(es[j].path) == k {
        if exists j :: 0 <= j < |es[1..]| && Join(es[1..][j].path) == k {
          var j :| 0 <= j < |es[1..]| && Join(es[1..][j].path) == k;
          assert es[j + 1] == es[1..][j];
        }
        if exists j :: 0 <= j < |es| && Join(es[j].path) == k {
          var j :| 0 <= j < |es| && Join(es[j].path) == k;
          if j > 0 {
            assert es[1..][j - 1] == es[j];
          }
        }
      }
    }
  }

  lemma {:induction false} MergeMessages(m: ErrorMap, es: seq<Error>)
    requires WellFormedErrors(m)
    ensures var r := Merge(m, es);
      forall k, msg :: k in r && msg in r[k] <==> (k in m && msg in m[k]) || Reported(es, k, msg)
    decreases |es|
  {
    if es != [] {
      var k0, msg0 := Join(es[0].path), es[0].message;
      var m' := AddMessage(m, k0, msg0);
      AddMessageFacts(m, k0, msg0);
      MergeMessages(m', es[1..]);
      var r := Merge(m', es[1..]);
      forall k, msg ensures k in r && msg in r[k] <==> (k in m && msg in m[k]) || Reported(es, k, msg) {
        if Reported(es[1..], k, msg) {
          var j :| 0 <= j < |es[1..]| && Join(es[1..][j].path) == k && es[1..][j].message == msg;
          assert es[j + 1] == es[1..][j];
        }
        if Reported(es, k, msg) {
          var j :| 0 <= j < |es| && Join(es[j].path) == k && es[j].message == msg;
          if j > 0 {
            assert es[1..][j - 1] == es[j];
          }
        }
      }
    }
  }

  /** Folding errors into a well-formed map: it stays well formed, gains exactly their keys and exactly their messages. */
  lemma MergeCollects(m: ErrorMap, es: seq<Error>)
    requires WellFormedErrors(m)
    ensures var r := Merge(m, es);
      && WellFormedErrors(r)
      && (forall k :: k in r <==> k in m || exists j :: 0 <= j < |es| && Join(es[j].path) == k)
      && (forall k, msg :: k in r && msg in r[k] <==> (k in m && msg in m[k]) || Reported(es, k, msg))
  {
    MergeWellFormed(m, es);
    MergeKeys(m, es);
    MergeMessages(m, es);
  }

  /**
   * `form.errors.messages`: all errors of the tree in one map. A message
   * is listed under a key exactly when some reachable form reported it
   * for the field at that dotted path; every listed key has at least one
   * message and none twice; and the map is empty exactly when every
   * presence rule holds.
   */
  function FlattenErrors(s: Schema, f: Form): (r: ErrorMap)
    ensures WellFormedErrors(r)
    ensures forall k, msg :: k in r && msg in r[k] <==> Reported(FormErrors(s, f, []), k, msg)
    ensures forall k, msg :: k in r && msg in r[k] ==> msg == BlankMessage
    ensures r == map[] <==> AllPresent(s, f)
    ensures forall k :: k in r <==> BlankKey(s, f, k)
    ensures forall k :: k in r ==> r[k] == [BlankMessage]
  {
    MergedErrorsFollowRules(s, f);
    MergedKeysAreBlanks(s, f);
    MergeSingleMessage(map[], FormErrors(s, f, []));
    Merge(map[], FormErrors(s, f, []))
  }

  /** The merged map is well formed, holds exactly the reported messages, only blank messages, and is empty exactly when every rule holds. */
  lemma MergedErrorsFollowRules(s: Schema, f: Form)
    ensures var r := Merge(map[], FormErrors(s, f, []));
      && WellFormedErrors(r)
      && (forall k, msg :: k in r && msg in r[k] <==> Reported(FormErrors(s, f, []), k, msg))
      && (forall k, msg :: k in r && msg in r[k] ==> msg == BlankMessage)
      && (r == map[] <==> AllPresent(s, f))
  {
    var es := FormErrors(s, f, []);
    MergeCollects(map[], es);
    NoErrorsIffAllPresent(s, f, []);
    var r := Merge(map[], es);
    assert r == map[] <==> es == [] by {
      if es != [] {
        assert Join(es[0].path) in r;
      }
    }
  }

  /** The errors from the root are exactly the blank messages at the paths of the blank properties. */
  lemma ErrorsAtRoot(s: Schema, f: Form)
    ensures forall e :: e in FormErrors(s, f, []) <==> e.message == BlankMessage && BlankAt(s, f, e.path)
  {
    ErrorsExactlyBlanks(s, f, []);
    forall e: Error ensures e.path[..0] == [] && e.path[0..] == e.path {
    }
  }

  /** `k` is the dotted key of a blank presence-validated property of the tree. */
  ghost predicate BlankKey(s: Schema, f: Form, k: string) {
    exists q :: Join(q) == k && BlankAt(s, f, q)
  }

  /** The keys of the merged map are exactly the dotted paths of the blank presence-validated properties. */
  lemma MergedKeysAreBlanks(s: Schema, f: Form)
    ensures forall k :: k in Merge(map[], FormErrors(s, f, [])) <==> BlankKey(s, f, k)
  {
    var es := FormErrors(s, f, []);
    MergeKeys(map[], es);
    ErrorsAtRoot(s, f);
    forall k ensures k in Merge(map[], es) <==> BlankKey(s, f, k) {
      if k in Merge(map[], es) {
        MergedKeyIsBlank(s, f, es, k);
      }
      if BlankKey(s, f, k) {
        BlankKeyIsMerged(s, f, es, k);
      }
    }
  }

  /** A key joined from some error's path is the key of a blank property. */
  lemma MergedKeyIsBlank(s: Schema, f: Form, es: seq<Error>, k: string)
    requires forall e :: e in es ==> BlankAt(s, f, e.path)
    requires exists j :: 0 <= j < |es| && Join(es[j].path) == k
    ensures BlankKey(s, f, k)
  {
    var j :| 0 <= j < |es| && Join(es[j].path) == k;
    assert es[j] in es;
  }

  /** The key of a blank property is joined from the path of the error reported for it. */
  lemma BlankKeyIsMerged(s: Schema, f: Form, es: seq<Error>, k: string)
    requires forall e: Error :: e.message == BlankMessage && BlankAt(s, f, e.path) ==> e in es
    requires BlankKey(s, f, k)
    ensures exists j :: 0 <= j < |es| && Join(es[j].path) == k
  {
    var q :| Join(q) == k && BlankAt(s, f, q);
    assert Error(q, BlankMessage) in es;
    var j :| 0 <= j < |es| && es[j] == Error(q, BlankMessage);
  }

  /** Merging only blank messages leaves exactly one message, the blank one, under each key. */
  lemma {:induction false} MergeSingleMessage(m: ErrorMap, es: seq<Error>)
    requires forall k :: k in m ==> m[k] == [BlankMessage]
    requires forall e :: e in es ==> e.message == BlankMessage
    ensures forall k :: k in Merge(m, es) ==> Merge(m, es)[k] == [BlankMessage]
    decreases |es|
  {
    if es != [] {
      var m' := AddMessage(m, Join(es[0].path), es[0].message);
      assert es[0] in es;
      assert forall k :: k in m' ==> m'[k] == [BlankMessage];
      forall e | e in es[1..] ensures e.message == BlankMessage {
        assert e in es;
      }
      MergeSingleMessage(m', es[1..]);
    }
  }
}
