/**
 Node configurations: nested JSON-like values and the normal form in which they enter a genome.
 Dictionaries are kept as the list of their fields, named by the text of their keys.
 */
module ConfigValue {
  import opened Orders

  datatype Value =
    | Null
    | Bool(b: bool)
    | Int(n: int)
    | Float(numerator: int, shift: nat)  // a finite float: numerator / 2^shift
    | NotFinite
    | Text(s: string)
    | List(items: seq<Value>)
    | Dict(fields: seq<Field>)
    | Unsupported

  datatype Field = Field(name: string, value: Value)

  function FieldKey(f: Field): Key { [f.name] }

  function Power2(n: nat): nat { if n == 0 then 1 else 2 * Power2(n - 1) }

  // What the normaliser accepts: finite numbers, supported types, keys whose texts do not collide.
  predicate Storable(v: Value)
  {
    match v
    case NotFinite => false
    case Unsupported => false
    case List(items) => forall item :: item in items ==> Storable(item)
    case Dict(fields) => DistinctBy(fields, FieldKey) && forall f :: f in fields ==> Storable(f.value)
    case _ => true
  }

  function Normal(v: Value): Value
    decreases v, 1
  {
    match v
    case List(items) => List(NormalItems(items))
    case Dict(fields) => Dict(SortBy(NormalFields(fields), FieldKey))
    case _ => v
  }

  function NormalItems(items: seq<Value>): (r: seq<Value>)
    ensures |r| == |items| && forall i :: 0 <= i < |items| ==> r[i] == Normal(items[i])
    decreases items, 0
  {
    if items == [] then [] else [Normal(items[0])] + NormalItems(items[1..])
  }

  function NormalFields(fields: seq<Field>): (r: seq<Field>)
    ensures |r| == |fields| && forall i :: 0 <= i < |fields| ==> r[i] == Field(fields[i].name, Normal(fields[i].value))
    decreases fields, 0
  {
    if fields == [] then [] else [Field(fields[0].name, Normal(fields[0].value))] + NormalFields(fields[1..])
  }

  lemma {:induction false} NormalIsFixed(v: Value)
    requires Storable(v)
    ensures Storable(Normal(v)) && Normal(Normal(v)) == Normal(v)
    decreases v
  {
    match v
    case List(items) =>
      forall i | 0 <= i < |items|
        ensures Storable(Normal(items[i])) && Normal(Normal(items[i])) == Normal(items[i])
      {
        assert items[i] in items;
        NormalIsFixed(items[i]);
      }
      assert NormalItems(NormalItems(items)) == NormalItems(items);
    case Dict(fields) =>
      forall i | 0 <= i < |fields|
        ensures Storable(Normal(fields[i].value)) && Normal(Normal(fields[i].value)) == Normal(fields[i].value)
      {
        assert fields[i] in fields;
        NormalIsFixed(fields[i].value);
      }
      SortedFieldsAreFixed(NormalFields(fields));
    case _ =>
  }

  lemma FixedFields(normal: seq<Field>, sorted: seq<Field>)
    requires forall f :: f in sorted ==> f in normal
    requires forall i :: 0 <= i < |normal| ==> Storable(normal[i].value) && Normal(normal[i].value) == normal[i].value
    ensures (forall f :: f in sorted ==> Storable(f.value)) && NormalFields(sorted) == sorted
  {
    forall i | 0 <= i < |sorted|
      ensures Storable(sorted[i].value) && Normal(sorted[i].value) == sorted[i].value
    {
      assert sorted[i] in normal;
    }
  }

  lemma SortedFieldsAreFixed(normal: seq<Field>)
    requires DistinctBy(normal, FieldKey)
    requires forall i :: 0 <= i < |normal| ==> Storable(normal[i].value) && Normal(normal[i].value) == normal[i].value
    ensures Storable(Dict(SortBy(normal, FieldKey)))
    ensures SortBy(NormalFields(SortBy(normal, FieldKey)), FieldKey) == SortBy(normal, FieldKey)
  {
    var sorted := SortBy(normal, FieldKey);
    PermutedDistinct(normal, sorted, FieldKey);
    SameMembers(normal, sorted);
    FixedFields(normal, sorted);
    SortIsSorted(normal, FieldKey);
    DistinctMeans(sorted, FieldKey);
    SortFixesSorted(sorted, FieldKey);
  }

  // --- what the normaliser accepts ---------------------------------------------------------------

  // `x` occurs in `v`, at any depth.
  ghost predicate Inside(x: Value, v: Value)
    decreases v
  {
    || x == v
    || (v.List? && exists item :: item in v.items && Inside(x, item))
    || (v.Dict? && exists f :: f in v.fields && Inside(x, f.value))
  }

  ghost predicate Refused(x: Value)
  {
    || x == NotFinite || x == Unsupported
    || (x.Dict? && exists i, j :: 0 <= i < j < |x.fields| && x.fields[i].name == x.fields[j].name)
  }

  lemma NamesCollide(fields: seq<Field>)
    ensures DistinctBy(fields, FieldKey) <==>
              !exists i, j :: 0 <= i < j < |fields| && fields[i].name == fields[j].name
  {
    forall i, j | 0 <= i < j < |fields|
      ensures FieldKey(fields[i]) == FieldKey(fields[j]) <==> fields[i].name == fields[j].name
    {
      assert FieldKey(fields[i])[0] == fields[i].name && FieldKey(fields[j])[0] == fields[j].name;
    }
  }

  // A value is refused exactly for something refused inside it.
  lemma {:induction false} StorableMeans(v: Value)
    ensures Storable(v) <==> forall x :: Inside(x, v) ==> !Refused(x)
    decreases v
  {
    if v.List? {
      forall item | item in v.items
        ensures Storable(item) <==> forall x :: Inside(x, item) ==> !Refused(x)
      {
        StorableMeans(item);
      }
    } else if v.Dict? {
      NamesCollide(v.fields);
      forall f | f in v.fields
        ensures Storable(f.value) <==> forall x :: Inside(x, f.value) ==> !Refused(x)
      {
        StorableMeans(f.value);
      }
    }
    assert Inside(v, v);
  }

  // --- what the normal form keeps ----------------------------------------------------------------

  ghost predicate HasName(fields: seq<Field>, name: string) { exists f :: f in fields && f.name == name }

  // The same value: equal scalars, lists equal item by item, dictionaries with the same names and the
  // same value under each name, in whatever order their fields are listed.
  ghost predicate Same(v: Value, w: Value)
    decreases v
  {
    match v
    case List(items) =>
      w.List? && |items| == |w.items| && forall i :: 0 <= i < |items| ==> Same(items[i], w.items[i])
    case Dict(fields) => w.Dict? && SameFields(fields, w.fields)
    case _ => v == w
  }

  ghost predicate SameFields(a: seq<Field>, b: seq<Field>)
    decreases a
  {
    && (forall name :: HasName(a, name) <==> HasName(b, name))
    && (forall f, g :: f in a && g in b && f.name == g.name ==> Same(f.value, g.value))
  }

  // Every dictionary, at any depth, lists its names in ascending order.
  ghost predicate Ordered(v: Value)
  {
    match v
    case List(items) => forall item :: item in items ==> Ordered(item)
    case Dict(fields) =>
      && (forall i, j :: 0 <= i < j < |fields| ==> StringLess(fields[i].name, fields[j].name))
      && (forall f :: f in fields ==> Ordered(f.value))
    case _ => true
  }

  lemma NamesDiffer(fields: seq<Field>)
    requires DistinctBy(fields, FieldKey)
    ensures forall f, g :: f in fields && g in fields && f.name == g.name ==> f == g
  {
    DistinctMeans(fields, FieldKey);
    forall f, g | f in fields && g in fields && f.name == g.name
      ensures f == g
    {
      assert FieldKey(f) == FieldKey(g);
    }
  }

  lemma NormalFieldsDistinct(fields: seq<Field>)
    requires DistinctBy(fields, FieldKey)
    ensures DistinctBy(NormalFields(fields), FieldKey)
    ensures DistinctBy(SortBy(NormalFields(fields), FieldKey), FieldKey)
  {
    var normal := NormalFields(fields);
    forall i, j | 0 <= i < j < |normal|
      ensures FieldKey(normal[i]) != FieldKey(normal[j])
    {
      assert FieldKey(normal[i]) == FieldKey(fields[i]) && FieldKey(normal[j]) == FieldKey(fields[j]);
    }
    PermutedDistinct(normal, SortBy(normal, FieldKey), FieldKey);
  }

  lemma NormalFieldIn(fields: seq<Field>, f: Field)
    requires f in fields
    ensures Field(f.name, Normal(f.value)) in SortBy(NormalFields(fields), FieldKey)
  {
    var normal := NormalFields(fields);
    SameMembers(normal, SortBy(normal, FieldKey));
    var i :| 0 <= i < |fields| && fields[i] == f;
    assert normal[i] in normal;
  }

  lemma NormalFieldFrom(fields: seq<Field>, g: Field)
    requires g in SortBy(NormalFields(fields), FieldKey)
    ensures exists f :: f in fields && g == Field(f.name, Normal(f.value))
  {
    var normal := NormalFields(fields);
    SameMembers(normal, SortBy(normal, FieldKey));
    var i :| 0 <= i < |normal| && normal[i] == g;
    assert fields[i] in fields;
  }

  // A field of the normal dictionary is a field of the original with its value in normal form.
  lemma NormalFieldsAre(fields: seq<Field>)
    ensures forall f :: f in fields ==> Field(f.name, Normal(f.value)) in SortBy(NormalFields(fields), FieldKey)
    ensures forall g :: g in SortBy(NormalFields(fields), FieldKey) ==>
      exists f :: f in fields && g == Field(f.name, Normal(f.value))
  {
    forall f | f in fields
      ensures Field(f.name, Normal(f.value)) in SortBy(NormalFields(fields), FieldKey)
    {
      NormalFieldIn(fields, f);
    }
    forall g | g in SortBy(NormalFields(fields), FieldKey)
      ensures exists f :: f in fields && g == Field(f.name, Normal(f.value))
    {
      NormalFieldFrom(fields, g);
    }
  }

  lemma NormalKeepsNames(fields: seq<Field>, name: string)
    ensures HasName(SortBy(NormalFields(fields), FieldKey), name) <==> HasName(fields, name)
  {
    NormalFieldsAre(fields);
    if HasName(fields, name) {
      var f :| f in fields && f.name == name;
      assert Field(f.name, Normal(f.value)).name == name;
    }
  }

  // Normalising changes nothing but the order of dictionary fields, and makes that order ascending.
  lemma {:induction false} NormalIsSame(v: Value)
    requires Storable(v)
    ensures Same(Normal(v), v)
    decreases v
  {
    match v
    case List(items) =>
      forall i | 0 <= i < |items|
        ensures Same(Normal(items[i]), items[i])
      {
        assert items[i] in items;
        NormalIsSame(items[i]);
      }
    case Dict(fields) =>
      forall name
        ensures HasName(SortBy(NormalFields(fields), FieldKey), name) <==> HasName(fields, name)
      {
        NormalKeepsNames(fields, name);
      }
      NormalFieldsAre(fields);
      NamesDiffer(fields);
      forall g, f | g in SortBy(NormalFields(fields), FieldKey) && f in fields && g.name == f.name
        ensures Same(g.value, f.value)
      {
        NormalIsSame(f.value);
      }
    case _ =>
  }

  lemma {:induction false} NormalIsOrdered(v: Value)
    requires Storable(v)
    ensures Ordered(Normal(v))
    decreases v
  {
    match v
    case List(items) =>
      forall item | item in NormalItems(items)
        ensures Ordered(item)
      {
        var i :| 0 <= i < |items| && NormalItems(items)[i] == item;
        assert items[i] in items;
        NormalIsOrdered(items[i]);
      }
    case Dict(fields) =>
      NormalFieldsAre(fields);
      forall f | f in fields
        ensures Ordered(Normal(f.value))
      {
        NormalIsOrdered(f.value);
      }
      NormalFieldsDistinct(fields);
      SortIsSorted(NormalFields(fields), FieldKey);
      NamesAscend(SortBy(NormalFields(fields), FieldKey));
    case _ =>
  }

  lemma NamesAscend(fields: seq<Field>)
    requires SortedBy(fields, FieldKey) && DistinctBy(fields, FieldKey)
    ensures forall i, j :: 0 <= i < j < |fields| ==> StringLess(fields[i].name, fields[j].name)
  {
    forall i, j | 0 <= i < j < |fields|
      ensures StringLess(fields[i].name, fields[j].name)
    {
      SingleKey(fields[i].name, fields[j].name);
      SingleKey(fields[j].name, fields[i].name);
      StringOrder(fields[i].name, fields[j].name, []);
    }
  }

  lemma AlikeFields(a: seq<Field>, b: seq<Field>)
    requires DistinctBy(a, FieldKey) && DistinctBy(b, FieldKey)
    requires forall name :: HasName(a, name) <==> HasName(b, name)
    requires forall f, g :: f in a && g in b && f.name == g.name ==> Normal(f.value) == Normal(g.value)
    ensures SortBy(NormalFields(a), FieldKey) == SortBy(NormalFields(b), FieldKey)
  {
    NormalFieldsWithin(a, b);
    NormalFieldsWithin(b, a);
    NormalFieldsDistinct(a);
    NormalFieldsDistinct(b);
    var x, y := NormalFields(a), NormalFields(b);
    DistinctMeans(x, FieldKey);
    DistinctMeans(y, FieldKey);
    assert Elements(x) == Elements(y);
    SameElementsPermute(x, y);
    SortIsCanonical(x, y, FieldKey);
  }

  lemma NormalFieldsWithin(a: seq<Field>, b: seq<Field>)
    requires forall name :: HasName(a, name) ==> HasName(b, name)
    requires forall f, g :: f in a && g in b && f.name == g.name ==> Normal(f.value) == Normal(g.value)
    ensures forall x :: x in NormalFields(a) ==> x in NormalFields(b)
  {
    forall x | x in NormalFields(a)
      ensures x in NormalFields(b)
    {
      var i :| 0 <= i < |a| && NormalFields(a)[i] == x;
      assert a[i] in a && HasName(a, a[i].name);
      var g :| g in b && g.name == a[i].name;
      var j :| 0 <= j < |b| && b[j] == g;
      assert NormalFields(b)[j] == x;
    }
  }

  lemma EqualNormalFields(a: seq<Field>, b: seq<Field>)
    requires DistinctBy(a, FieldKey) && DistinctBy(b, FieldKey)
    requires SortBy(NormalFields(a), FieldKey) == SortBy(NormalFields(b), FieldKey)
    ensures forall name :: HasName(a, name) <==> HasName(b, name)
    ensures forall f, g :: f in a && g in b && f.name == g.name ==> Normal(f.value) == Normal(g.value)
  {
    forall name
      ensures HasName(a, name) <==> HasName(b, name)
    {
      NormalKeepsNames(a, name);
      NormalKeepsNames(b, name);
    }
    NormalFieldsAre(a);
    NormalFieldsAre(b);
    NormalFieldsDistinct(a);
    var sorted := SortBy(NormalFields(a), FieldKey);
    NamesDiffer(sorted);
    forall f, g | f in a && g in b && f.name == g.name
      ensures Normal(f.value) == Normal(g.value)
    {
      assert Field(f.name, Normal(f.value)) in sorted && Field(g.name, Normal(g.value)) in sorted;
    }
  }

  // The normal form decides sameness.
  lemma {:induction false} NormalDecides(v: Value, w: Value)
    requires Storable(v) && Storable(w)
    ensures Normal(v) == Normal(w) <==> Same(v, w)
    decreases v, 1
  {
    if v.List? && w.List? {
      ListsDecide(v, w);
    } else if v.Dict? && w.Dict? {
      DictsDecide(v, w);
    } else {
      Shape(v);
      Shape(w);
    }
  }

  lemma {:induction false} ListsDecide(v: Value, w: Value)
    requires v.List? && w.List? && Storable(v) && Storable(w)
    ensures Normal(v) == Normal(w) <==> Same(v, w)
    decreases v, 0
  {
    Shape(v);
    Shape(w);
    if |v.items| == |w.items| {
      ItemsDecide(v.items, w.items);
    }
  }

  lemma {:induction false} DictsDecide(v: Value, w: Value)
    requires v.Dict? && w.Dict? && Storable(v) && Storable(w)
    ensures Normal(v) == Normal(w) <==> Same(v, w)
    decreases v, 0
  {
    Shape(v);
    Shape(w);
    FieldsDecide(v.fields, w.fields);
  }

  lemma Shape(v: Value)
    ensures v.List? ==> Normal(v) == List(NormalItems(v.items))
    ensures v.Dict? ==> Normal(v) == Dict(SortBy(NormalFields(v.fields), FieldKey))
    ensures !v.List? && !v.Dict? ==> Normal(v) == v
  {
  }

  lemma {:induction false} ItemsDecide(a: seq<Value>, b: seq<Value>)
    requires |a| == |b|
    requires (forall x :: x in a ==> Storable(x)) && (forall y :: y in b ==> Storable(y))
    ensures NormalItems(a) == NormalItems(b) <==> forall i :: 0 <= i < |a| ==> Same(a[i], b[i])
    decreases a, 0
  {
    forall i | 0 <= i < |a|
      ensures Normal(a[i]) == Normal(b[i]) <==> Same(a[i], b[i])
    {
      assert a[i] in a && b[i] in b;
      NormalDecides(a[i], b[i]);
    }
    if NormalItems(a) == NormalItems(b) {
      forall i | 0 <= i < |a|
        ensures Same(a[i], b[i])
      {
        assert NormalItems(a)[i] == NormalItems(b)[i];
      }
    }
  }

  lemma {:induction false} FieldsDecide(a: seq<Field>, b: seq<Field>)
    requires DistinctBy(a, FieldKey) && DistinctBy(b, FieldKey)
    requires (forall f :: f in a ==> Storable(f.value)) && (forall g :: g in b ==> Storable(g.value))
    ensures SortBy(NormalFields(a), FieldKey) == SortBy(NormalFields(b), FieldKey) <==> SameFields(a, b)
    decreases a, 0
  {
    forall f, g | f in a && g in b
      ensures Normal(f.value) == Normal(g.value) <==> Same(f.value, g.value)
    {
      NormalDecides(f.value, g.value);
    }
    if SortBy(NormalFields(a), FieldKey) == SortBy(NormalFields(b), FieldKey) {
      EqualNormalFields(a, b);
    } else if SameFields(a, b) {
      AlikeFields(a, b);
    }
  }
}
