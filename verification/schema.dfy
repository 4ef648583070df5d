/** Schemas, their differences and their hashes (internal/schema/schema.go, evolution.go). */
module Schemas {
  datatype Field = Field(name: string, fieldType: string, nullable: bool)

  datatype Schema = Schema(objectName: string, fields: seq<Field>)

  datatype HashField = HashField(name: string, fieldType: string)

  predicate DistinctNames(fields: seq<Field>) {
    forall i, j :: 0 <= i < j < |fields| ==> fields[i].name != fields[j].name
  }

  /** `FieldMap`: the last field of a name wins. */
  function FieldMap(fields: seq<Field>): (m: map<string, Field>)
    ensures forall name :: name in m ==> m[name] in fields && m[name].name == name
    ensures forall f :: f in fields ==> f.name in m
  {
    if fields == [] then map[]
    else
      var last := fields[|fields| - 1];
      FieldMap(fields[..|fields| - 1])[last.name := last]
  }

  lemma {:induction false} FieldMapKeepsTheLast(fields: seq<Field>, i: nat)
    requires i < |fields| && forall j :: i < j < |fields| ==> fields[j].name != fields[i].name
    ensures FieldMap(fields)[fields[i].name] == fields[i]
  {
    if i < |fields| - 1 {
      FieldMapKeepsTheLast(fields[..|fields| - 1], i);
    }
  }

  lemma LastFieldsAreKept(fields: seq<Field>)
    ensures forall i :: 0 <= i < |fields| && (forall j :: i < j < |fields| ==> fields[j].name != fields[i].name) ==>
              FieldMap(fields)[fields[i].name] == fields[i]
  {
    forall i | 0 <= i < |fields| && forall j :: i < j < |fields| ==> fields[j].name != fields[i].name
      ensures FieldMap(fields)[fields[i].name] == fields[i]
    {
      FieldMapKeepsTheLast(fields, i);
    }
  }

  method BuildFieldMap(fields: seq<Field>) returns (m: map<string, Field>)
    ensures m == FieldMap(fields)
    ensures forall i :: 0 <= i < |fields| && (forall j :: i < j < |fields| ==> fields[j].name != fields[i].name) ==>
              fields[i].name in m && m[fields[i].name] == fields[i]
  {
    m := map[];
    for i := 0 to |fields|
      invariant m == FieldMap(fields[..i])
    {
      assert fields[..i + 1][..i] == fields[..i];
      m := m[fields[i].name := fields[i]];
    }
    assert fields[..|fields|] == fields;
    LastFieldsAreKept(fields);
  }

  // ---------------------------------------------------------------- differences

  datatype ChangeType = ChangeNone | ChangeAdditive | ChangeBreaking

  datatype TypeChange = TypeChange(fieldName: string, oldType: string, newType: string)

  datatype SchemaDiff = SchemaDiff(
    change: ChangeType, addedFields: seq<Field>, removedFields: seq<Field>, typeChanges: seq<TypeChange>)
  {
    predicate IsBreaking() {
      change == ChangeBreaking
    }
  }

  /** Every field of `before` is in `after` with its type. */
  predicate KeepsFields(before: map<string, Field>, after: map<string, Field>) {
    forall name :: name in before ==> name in after && after[name].fieldType == before[name].fieldType
  }

  function ChangeOf(before: map<string, Field>, after: map<string, Field>): ChangeType {
    if !KeepsFields(before, after) then ChangeBreaking
    else if after.Keys - before.Keys != {} then ChangeAdditive
    else ChangeNone
  }

  /** The diff lists exactly the fields that came, went or changed type, and classifies them. */
  method Diff(old_: Schema, new_: Schema) returns (diff: SchemaDiff)
    ensures diff.change == ChangeOf(FieldMap(old_.fields), FieldMap(new_.fields))
    ensures diff.change == ChangeBreaking <==> diff.removedFields != [] || diff.typeChanges != []
    ensures diff.change == ChangeNone <==> diff.addedFields == diff.removedFields == [] && diff.typeChanges == []
    ensures var o, n := FieldMap(old_.fields), FieldMap(new_.fields);
            && (forall f :: f in diff.addedFields <==> f.name in n && f.name !in o && n[f.name] == f)
            && (forall f :: f in diff.removedFields <==> f.name in o && f.name !in n && o[f.name] == f)
            && (forall c :: c in diff.typeChanges <==>
                  c.fieldName in o && c.fieldName in n && o[c.fieldName].fieldType != n[c.fieldName].fieldType
                  && c == TypeChange(c.fieldName, o[c.fieldName].fieldType, n[c.fieldName].fieldType))
  {
    var o := BuildFieldMap(old_.fields);
    var n := BuildFieldMap(new_.fields);
    var added := FieldsMissing(n, o);
    var removed := FieldsMissing(o, n);
    var changes := TypeChanges(o, n);
    var change := ChangeNone;
    if |removed| > 0 || |changes| > 0 {
      change := ChangeBreaking;
    } else if |added| > 0 {
      change := ChangeAdditive;
    }
    ClassifiedRight(o, n, added, removed, changes);
    diff := SchemaDiff(change, added, removed, changes);
  }

  /** One of the two membership loops of `Diff`. */
  method FieldsMissing(m: map<string, Field>, other: map<string, Field>) returns (missing: seq<Field>)
    requires forall name :: name in m ==> m[name].name == name
    ensures forall f :: f in missing <==> f.name in m && f.name !in other && m[f.name] == f
  {
    missing := [];
    var rest := m.Keys;
    while rest != {}
      invariant rest <= m.Keys
      invariant forall f :: f in missing <==> f.name in m.Keys - rest && f.name !in other && m[f.name] == f
      decreases |rest|
    {
      var name :| name in rest;
      rest := rest - {name};
      if name !in other {
        missing := missing + [m[name]];
      }
    }
  }

  method TypeChanges(o: map<string, Field>, n: map<string, Field>) returns (changes: seq<TypeChange>)
    ensures forall c :: c in changes <==>
              c.fieldName in o && c.fieldName in n && o[c.fieldName].fieldType != n[c.fieldName].fieldType
              && c == TypeChange(c.fieldName, o[c.fieldName].fieldType, n[c.fieldName].fieldType)
  {
    changes := [];
    var rest := o.Keys;
    while rest != {}
      invariant rest <= o.Keys
      invariant forall c :: c in changes <==>
                  c.fieldName in o.Keys - rest && c.fieldName in n && o[c.fieldName].fieldType != n[c.fieldName].fieldType
                  && c == TypeChange(c.fieldName, o[c.fieldName].fieldType, n[c.fieldName].fieldType)
      decreases |rest|
    {
      var name :| name in rest;
      rest := rest - {name};
      if name in n && o[name].fieldType != n[name].fieldType {
        changes := changes + [TypeChange(name, o[name].fieldType, n[name].fieldType)];
      }
    }
  }

  lemma ClassifiedRight(o: map<string, Field>, n: map<string, Field>, added: seq<Field>, removed: seq<Field>, changes: seq<TypeChange>)
    requires forall name :: name in o ==> o[name].name == name
    requires forall name :: name in n ==> n[name].name == name
    requires forall f :: f in added <==> f.name in n && f.name !in o && n[f.name] == f
    requires forall f :: f in removed <==> f.name in o && f.name !in n && o[f.name] == f
    requires forall c :: c in changes <==>
               c.fieldName in o && c.fieldName in n && o[c.fieldName].fieldType != n[c.fieldName].fieldType
               && c == TypeChange(c.fieldName, o[c.fieldName].fieldType, n[c.fieldName].fieldType)
    ensures ChangeOf(o, n) == if |removed| > 0 || |changes| > 0 then ChangeBreaking
                              else if |added| > 0 then ChangeAdditive else ChangeNone
  {
    if |removed| > 0 {
      assert removed[0] in removed;
    }
    if |changes| > 0 {
      assert changes[0] in changes;
    }
    if !KeepsFields(o, n) {
      var name :| name in o && !(name in n && n[name].fieldType == o[name].fieldType);
      assert o[name] in removed || TypeChange(name, o[name].fieldType, n[name].fieldType) in changes;
    } else {
      if |added| > 0 {
        assert added[0] in added;
        assert added[0].name in n.Keys - o.Keys;
      }
      if n.Keys - o.Keys != {} {
        var name :| name in n.Keys - o.Keys;
        assert n[name] in added;
      }
    }
  }

  /** Not breaking: the relation under which a sync may stay incremental. */
  predicate NonBreaking(before: Schema, after: Schema) {
    ChangeOf(FieldMap(before.fields), FieldMap(after.fields)) != ChangeBreaking
  }

  // ---------------------------------------------------------------- the hash

  /** Byte order of Go strings. */
  predicate Before(a: string, b: string) {
    b != [] && (a == [] || a[0] < b[0] || (a[0] == b[0] && Before(a[1..], b[1..])))
  }

  lemma {:induction false} BeforeIsTotal(a: string, b: string)
    ensures a != b ==> Before(a, b) || Before(b, a)
    ensures !(Before(a, b) && (Before(b, a) || a == b))
    decreases |a|
  {
    if a != [] && b != [] {
      BeforeIsTotal(a[1..], b[1..]);
      assert a == [a[0]] + a[1..] && b == [b[0]] + b[1..];
    }
  }

  lemma {:induction false} BeforeIsTransitive(a: string, b: string, c: string)
    requires Before(a, b) && Before(b, c)
    ensures Before(a, c)
    decreases |a|
  {
    if a != [] && a[0] == b[0] == c[0] {
      BeforeIsTransitive(a[1..], b[1..], c[1..]);
    }
  }

  predicate NamesAscend(s: seq<HashField>) {
    forall i, j :: 0 <= i < j < |s| ==> Before(s[i].name, s[j].name)
  }

  /** `sort.Slice` by name, as insertion.  (For equal names its order is unspecified in the source.) */
  function Insert(s: seq<HashField>, f: HashField): (r: seq<HashField>)
    ensures |r| == |s| + 1
    ensures forall x :: x in r <==> x in s || x == f
  {
    if s == [] then [f]
    else if Before(f.name, s[|s| - 1].name) then Insert(s[..|s| - 1], f) + [s[|s| - 1]]
    else s + [f]
  }

  function HashFieldOf(f: Field): HashField {
    HashField(f.name, f.fieldType)
  }

  /** What is hashed: name and type of each field, sorted by name. */
  function Canonical(fields: seq<Field>): (r: seq<HashField>)
    ensures |r| == |fields|
    ensures forall x :: x in r <==> exists f :: f in fields && x == HashFieldOf(f)
  {
    if fields == [] then []
    else
      var front, last := fields[..|fields| - 1], fields[|fields| - 1];
      assert fields == front + [last];
      Insert(Canonical(front), HashFieldOf(last))
  }

  method ComputeHash(fields: seq<Field>, hash: seq<HashField> -> string) returns (h: string)
    ensures h == hash(Canonical(fields))
  {
    var sorted: seq<HashField> := [];
    for i := 0 to |fields|
      invariant sorted == Canonical(fields[..i])
    {
      assert fields[..i + 1][..i] == fields[..i];
      sorted := Insert(sorted, HashFieldOf(fields[i]));
    }
    assert fields[..|fields|] == fields;
    h := hash(sorted);
  }

  lemma {:induction false} InsertAscends(s: seq<HashField>, f: HashField)
    requires NamesAscend(s) && forall x :: x in s ==> x.name != f.name
    ensures NamesAscend(Insert(s, f))
  {
    if s != [] {
      var front, last := s[..|s| - 1], s[|s| - 1];
      assert last in s;
      BeforeIsTotal(f.name, last.name);
      if Before(f.name, last.name) {
        InsertAscends(front, f);
        var r := Insert(front, f);
        forall i | 0 <= i < |r| ensures Before(r[i].name, last.name) {
          assert r[i] in r;
          if r[i] in front {
            var j :| 0 <= j < |front| && front[j] == r[i];
            assert Before(s[j].name, s[|s| - 1].name);
          }
        }
      } else {
        forall i | 0 <= i < |s| ensures Before(s[i].name, f.name) {
          if i < |s| - 1 {
            BeforeIsTransitive(s[i].name, last.name, f.name);
          }
        }
      }
    }
  }

  lemma {:induction false} CanonicalAscends(fields: seq<Field>)
    requires DistinctNames(fields)
    ensures NamesAscend(Canonical(fields))
  {
    if fields != [] {
      var front, last := fields[..|fields| - 1], fields[|fields| - 1];
      CanonicalAscends(front);
      InsertAscends(Canonical(front), HashFieldOf(last));
    }
  }

  /** A strictly ascending sequence is determined by its elements. */
  lemma {:induction false} AscendingIsUnique(s: seq<HashField>, t: seq<HashField>)
    requires NamesAscend(s) && NamesAscend(t) && forall x :: x in s <==> x in t
    ensures s == t
    decreases |s|
  {
    if s == [] || t == [] {
      if s != [] {
        CarriesOver(s, t);
      }
      if t != [] {
        CarriesOver(t, s);
      }
    } else {
      var a, b := s[|s| - 1], t[|t| - 1];
      assert a == b by {
        assert a in t && b in s;
        BeforeIsTotal(a.name, b.name);
      }
      LastOccursOnce(s);
      LastOccursOnce(t);
      var sf, tf := s[..|s| - 1], t[..|t| - 1];
      forall x ensures x in sf <==> x in tf {
        assert x in s <==> x in sf || x == a by { assert s == sf + [a]; }
        assert x in t <==> x in tf || x == b by { assert t == tf + [b]; }
      }
      AscendingIsUnique(sf, tf);
      assert s == sf + [a] && t == tf + [b];
    }
  }

  lemma CarriesOver(s: seq<HashField>, t: seq<HashField>)
    requires s != [] && forall x :: x in s ==> x in t
    ensures t != []
  {
    assert s[0] in t;
  }

  lemma LastOccursOnce(s: seq<HashField>)
    requires NamesAscend(s) && s != []
    ensures s[|s| - 1] !in s[..|s| - 1]
  {
    BeforeIsTotal(s[|s| - 1].name, s[|s| - 1].name);
  }

  lemma FieldMapOfDistinct(fields: seq<Field>, f: Field)
    requires DistinctNames(fields)
    ensures f in fields <==> f.name in FieldMap(fields) && FieldMap(fields)[f.name] == f
  {
    if f in fields {
      var g := FieldMap(fields)[f.name];
      var i :| 0 <= i < |fields| && fields[i] == f;
      var j :| 0 <= j < |fields| && fields[j] == g;
      assert i == j;
    }
  }

  /** The map gives this name this type. */
  predicate Typed(m: map<string, Field>, x: HashField) {
    x.name in m && m[x.name].fieldType == x.fieldType
  }

  lemma CanonicalListsTheTypes(fields: seq<Field>, x: HashField)
    requires DistinctNames(fields)
    ensures x in Canonical(fields) <==> Typed(FieldMap(fields), x)
  {
    if x in Canonical(fields) {
      var f :| f in fields && x == HashFieldOf(f);
      FieldMapOfDistinct(fields, f);
    }
    if Typed(FieldMap(fields), x) {
      var f := FieldMap(fields)[x.name];
      assert f in fields && HashFieldOf(f) == x;
    }
  }

  lemma SameFormSameTypes(a: seq<Field>, b: seq<Field>)
    requires DistinctNames(a) && DistinctNames(b) && Canonical(a) == Canonical(b)
    ensures KeepsFields(FieldMap(a), FieldMap(b))
  {
    var ma, mb := FieldMap(a), FieldMap(b);
    forall name | name in ma ensures name in mb && mb[name].fieldType == ma[name].fieldType {
      var x := HashField(name, ma[name].fieldType);
      CanonicalListsTheTypes(a, x);
      CanonicalListsTheTypes(b, x);
    }
  }

  lemma SameTypesSameForm(a: seq<Field>, b: seq<Field>)
    requires DistinctNames(a) && DistinctNames(b)
    requires KeepsFields(FieldMap(a), FieldMap(b)) && KeepsFields(FieldMap(b), FieldMap(a))
    ensures Canonical(a) == Canonical(b)
  {
    CanonicalAscends(a);
    CanonicalAscends(b);
    forall x ensures x in Canonical(a) <==> x in Canonical(b) {
      CanonicalListsTheTypes(a, x);
      CanonicalListsTheTypes(b, x);
    }
    AscendingIsUnique(Canonical(a), Canonical(b));
  }

  /** For distinct names the hashed form and `Diff` agree: equal forms exactly when no change. */
  lemma HashAgreesWithDiff(a: seq<Field>, b: seq<Field>)
    requires DistinctNames(a) && DistinctNames(b)
    ensures Canonical(a) == Canonical(b) <==> ChangeOf(FieldMap(a), FieldMap(b)) == ChangeNone
  {
    var ma, mb := FieldMap(a), FieldMap(b);
    if Canonical(a) == Canonical(b) {
      SameFormSameTypes(a, b);
      SameFormSameTypes(b, a);
      assert mb.Keys - ma.Keys == {};
    }
    if ChangeOf(ma, mb) == ChangeNone {
      forall name | name in mb ensures name in ma {
        assert name !in mb.Keys - ma.Keys;
      }
      SameTypesSameForm(a, b);
    }
  }

  /** The hashed form ignores the order of the fields. */
  lemma HashIgnoresFieldOrder(a: seq<Field>, b: seq<Field>)
    requires DistinctNames(a) && DistinctNames(b)
    requires forall f :: f in a <==> f in b
    ensures Canonical(a) == Canonical(b)
  {
    CanonicalAscends(a);
    CanonicalAscends(b);
    forall x ensures x in Canonical(a) <==> x in Canonical(b) {
    }
    AscendingIsUnique(Canonical(a), Canonical(b));
  }

  lemma KeepsFieldsComposes(a: map<string, Field>, b: map<string, Field>, c: map<string, Field>)
    requires KeepsFields(a, b) && KeepsFields(b, c)
    ensures KeepsFields(a, c)
  {
  }

  /** Non-breaking is transitive (and reflexive), and both ways round it means the same schema up
      to field order and nullability. */
  lemma NonBreakingIsAnOrder(a: Schema, b: Schema, c: Schema)
    requires DistinctNames(a.fields) && DistinctNames(b.fields)
    ensures NonBreaking(a, a)
    ensures NonBreaking(a, b) && NonBreaking(b, c) ==> NonBreaking(a, c)
    ensures NonBreaking(a, b) && NonBreaking(b, a) <==> Canonical(a.fields) == Canonical(b.fields)
  {
    if NonBreaking(a, b) && NonBreaking(b, c) {
      KeepsFieldsComposes(FieldMap(a.fields), FieldMap(b.fields), FieldMap(c.fields));
    }
    NonBreakingBothWays(a, b);
  }

  lemma NonBreakingBothWays(a: Schema, b: Schema)
    requires DistinctNames(a.fields) && DistinctNames(b.fields)
    ensures NonBreaking(a, b) && NonBreaking(b, a) <==> Canonical(a.fields) == Canonical(b.fields)
  {
    if NonBreaking(a, b) && NonBreaking(b, a) {
      SameTypesSameForm(a.fields, b.fields);
    }
    if Canonical(a.fields) == Canonical(b.fields) {
      SameFormSameTypes(a.fields, b.fields);
      SameFormSameTypes(b.fields, a.fields);
    }
  }
}
