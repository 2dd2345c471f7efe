/** `sameJson`: two JSON values print alike once the keys of every object have been sorted. */
module JsonEquality {
  import opened Prelude

  /** Numbers and strings are told apart by how they print. */
  datatype Json =
    | Null
    | Bool(b: bool)
    | Number(printed: string)
    | Text(s: string)
    | Array(items: seq<Json>)
    | Object(fields: seq<Field>)

  datatype Field = Field(key: string, value: Json)

  /** The comparison of keys the sort uses. */
  type Order = (string, string) -> bool

  ghost predicate StrictTotal(less: Order) {
    && (forall a, b :: less(a, b) ==> !less(b, a))
    && (forall a, b, c :: less(a, b) && less(b, c) ==> less(a, c))
    && (forall a, b :: a != b ==> less(a, b) || less(b, a))
  }

  predicate DistinctKeys(fields: seq<Field>) {
    forall i, j | 0 <= i < j < |fields| :: fields[i].key != fields[j].key
  }

  /** No object has a key twice, at any depth. */
  predicate WellFormed(j: Json) {
    match j
    case Array(items) => forall i | 0 <= i < |items| :: WellFormed(items[i])
    case Object(fields) => DistinctKeys(fields) && forall i | 0 <= i < |fields| :: WellFormed(fields[i].value)
    case _ => true
  }

  // ----- sorting -----

  /** Stable: `f` comes before the fields its key ties with. */
  function InsertField(less: Order, f: Field, fields: seq<Field>): seq<Field> {
    if fields == [] || !less(fields[0].key, f.key) then [f] + fields
    else [fields[0]] + InsertField(less, f, fields[1..])
  }

  function SortFields(less: Order, fields: seq<Field>): seq<Field> {
    if fields == [] then [] else InsertField(less, fields[0], SortFields(less, fields[1..]))
  }

  ghost predicate Ascending(less: Order, fields: seq<Field>) {
    forall i, j | 0 <= i < j < |fields| :: less(fields[i].key, fields[j].key)
  }

  lemma PutFirst(less: Order, f: Field, fields: seq<Field>)
    requires StrictTotal(less) && Ascending(less, fields) && forall i | 0 <= i < |fields| :: fields[i].key != f.key
    requires fields != [] ==> !less(fields[0].key, f.key)
    ensures Ascending(less, [f] + fields)
  {
    forall i | 0 <= i < |fields| ensures less(f.key, fields[i].key) {
      assert less(f.key, fields[0].key);
      assert i > 0 ==> less(fields[0].key, fields[i].key);
    }
  }

  lemma {:induction false} InsertBag(less: Order, f: Field, fields: seq<Field>)
    ensures multiset(InsertField(less, f, fields)) == multiset(fields) + multiset{f}
  {
    if fields != [] {
      InsertBag(less, f, fields[1..]);
      assert fields == [fields[0]] + fields[1..];
    }
  }

  lemma InsertMembers(less: Order, f: Field, fields: seq<Field>, x: Field)
    ensures x in InsertField(less, f, fields) <==> x == f || x in fields
  {
    InsertBag(less, f, fields);
    assert x in InsertField(less, f, fields) <==> x in multiset(InsertField(less, f, fields));
  }

  lemma {:induction false} InsertAscends(less: Order, f: Field, fields: seq<Field>)
    requires StrictTotal(less) && Ascending(less, fields) && forall i | 0 <= i < |fields| :: fields[i].key != f.key
    ensures Ascending(less, InsertField(less, f, fields))
  {
    hide StrictTotal;
    if fields != [] && less(fields[0].key, f.key) {
      var rest := fields[1..];
      InsertAscends(less, f, rest);
      var inserted := InsertField(less, f, rest);
      forall i | 0 <= i < |inserted| ensures less(fields[0].key, inserted[i].key) {
        InsertMembers(less, f, rest, inserted[i]);
      }
    } else {
      PutFirst(less, f, fields);
    }
  }

  lemma {:induction false} SortAscends(less: Order, fields: seq<Field>)
    requires StrictTotal(less) && DistinctKeys(fields)
    ensures Ascending(less, SortFields(less, fields))
    ensures multiset(SortFields(less, fields)) == multiset(fields)
  {
    if fields != [] {
      var rest := fields[1..];
      SortAscends(less, rest);
      var sorted := SortFields(less, rest);
      forall i | 0 <= i < |sorted| ensures sorted[i].key != fields[0].key {
        SameBag(sorted, rest, sorted[i]);
      }
      InsertAscends(less, fields[0], sorted);
      InsertBag(less, fields[0], sorted);
      assert fields == [fields[0]] + rest;
    }
  }

  lemma FirstIsLeast(less: Order, fields: seq<Field>, f: Field)
    requires Ascending(less, fields) && f in fields
    ensures fields[0] == f || less(fields[0].key, f.key)
  {
  }

  lemma TailFields(less: Order, fields: seq<Field>, f: Field)
    requires StrictTotal(less) && Ascending(less, fields) && fields != []
    ensures f in fields[1..] <==> f in fields && f != fields[0]
  {
    if f in fields && f != fields[0] {
      var i :| 0 <= i < |fields| && fields[i] == f;
      assert fields[1..][i - 1] == f;
    }
  }

  /** Sorted lists of the same fields are the same list: normal forms are unique. */
  lemma {:induction false} AscendingUnique(less: Order, a: seq<Field>, b: seq<Field>)
    requires StrictTotal(less) && Ascending(less, a) && Ascending(less, b) && forall f :: f in a <==> f in b
    ensures a == b
  {
    assert b != [] ==> b[0] in a;
    if a != [] {
      assert a[0] in b && b[0] in b && b[0] in a;
      FirstIsLeast(less, a, b[0]);
      FirstIsLeast(less, b, a[0]);
      forall f ensures f in a[1..] <==> f in b[1..] {
        TailFields(less, a, f);
        TailFields(less, b, f);
      }
      AscendingUnique(less, a[1..], b[1..]);
      assert a == [a[0]] + a[1..] && b == [b[0]] + b[1..];
    }
  }

  lemma SortedAlike(less: Order, a: seq<Field>, b: seq<Field>)
    requires StrictTotal(less) && DistinctKeys(a) && DistinctKeys(b)
    ensures SortFields(less, a) == SortFields(less, b) <==> forall f :: f in a <==> f in b
  {
    var sa, sb := SortFields(less, a), SortFields(less, b);
    SortAscends(less, a);
    SortAscends(less, b);
    forall f ensures (f in sa <==> f in a) && (f in sb <==> f in b) {
      SameBag(sa, a, f);
      SameBag(sb, b, f);
    }
    if forall f :: f in a <==> f in b {
      AscendingUnique(less, sa, sb);
    }
  }

  // ----- normal forms -----

  /** The fields with their values normalised, in the order they came. */
  function NormalFields(less: Order, fields: seq<Field>): (r: seq<Field>)
    ensures |r| == |fields|
    ensures forall i | 0 <= i < |fields| :: r[i] == Field(fields[i].key, Normalize(less, fields[i].value))
    decreases fields
  {
    seq(|fields|, i requires 0 <= i < |fields| => Field(fields[i].key, Normalize(less, fields[i].value)))
  }

  /** `normalizeJson` */
  function Normalize(less: Order, j: Json): Json
    decreases j
  {
    match j
    case Array(items) => Array(seq(|items|, i requires 0 <= i < |items| => Normalize(less, items[i])))
    case Object(fields) => Object(SortFields(less, NormalFields(less, fields)))
    case _ => j
  }

  /** `sameJson`; printing tells different normal forms apart. */
  predicate SameJson(less: Order, a: Json, b: Json) {
    Normalize(less, a) == Normalize(less, b)
  }

  // ----- equality up to key order -----

  /** Equal, except that the fields of objects may come in another order, at every depth. */
  predicate EqualUpToOrder(a: Json, b: Json)
    decreases a
  {
    match (a, b)
    case (Array(xs), Array(ys)) => |xs| == |ys| && forall i | 0 <= i < |xs| :: EqualUpToOrder(xs[i], ys[i])
    case (Object(fs), Object(gs)) =>
      && (forall i | 0 <= i < |fs| :: FoundIn(fs[i], gs))
      && (forall j | 0 <= j < |gs| :: FoundAmong(fs, gs[j]))
    case _ => a == b
  }

  predicate FoundIn(f: Field, gs: seq<Field>)
    decreases f
  {
    exists j :: 0 <= j < |gs| && gs[j].key == f.key && EqualUpToOrder(f.value, gs[j].value)
  }

  predicate FoundAmong(fs: seq<Field>, g: Field)
    decreases fs
  {
    exists i :: 0 <= i < |fs| && fs[i].key == g.key && EqualUpToOrder(fs[i].value, g.value)
  }

  lemma NormalDistinct(less: Order, fields: seq<Field>)
    requires DistinctKeys(fields)
    ensures DistinctKeys(NormalFields(less, fields))
  {
  }

  /** What is to be shown of all pairs of values of two objects. */
  ghost predicate AgreeOnValues(less: Order, fs: seq<Field>, gs: seq<Field>) {
    forall i, j | 0 <= i < |fs| && 0 <= j < |gs| ::
      SameJson(less, fs[i].value, gs[j].value) <==> EqualUpToOrder(fs[i].value, gs[j].value)
  }

  lemma FoundInNormal(less: Order, fs: seq<Field>, gs: seq<Field>, i: nat)
    requires AgreeOnValues(less, fs, gs) && i < |fs|
    ensures FoundIn(fs[i], gs) <==> NormalFields(less, fs)[i] in NormalFields(less, gs)
  {
    hide EqualUpToOrder, Normalize;
    var nf, ng := NormalFields(less, fs), NormalFields(less, gs);
    if FoundIn(fs[i], gs) {
      var j :| 0 <= j < |gs| && gs[j].key == fs[i].key && EqualUpToOrder(fs[i].value, gs[j].value);
      assert SameJson(less, fs[i].value, gs[j].value);
      assert ng[j] == nf[i];
    }
    if nf[i] in ng {
      var j :| 0 <= j < |ng| && ng[j] == nf[i];
      assert SameJson(less, fs[i].value, gs[j].value);
    }
  }

  lemma FoundAmongNormal(less: Order, fs: seq<Field>, gs: seq<Field>, j: nat)
    requires AgreeOnValues(less, fs, gs) && j < |gs|
    ensures FoundAmong(fs, gs[j]) <==> NormalFields(less, gs)[j] in NormalFields(less, fs)
  {
    hide EqualUpToOrder, Normalize;
    var nf, ng := NormalFields(less, fs), NormalFields(less, gs);
    if FoundAmong(fs, gs[j]) {
      var i :| 0 <= i < |fs| && fs[i].key == gs[j].key && EqualUpToOrder(fs[i].value, gs[j].value);
      assert SameJson(less, fs[i].value, gs[j].value);
      assert nf[i] == ng[j];
    }
    if ng[j] in nf {
      var i :| 0 <= i < |nf| && nf[i] == ng[j];
      assert SameJson(less, fs[i].value, gs[j].value);
    }
  }

  /** Every field of `a` is one of `b`. */
  ghost predicate AllIn(a: seq<Field>, b: seq<Field>) {
    forall i | 0 <= i < |a| :: a[i] in b
  }

  ghost predicate AllFoundIn(fs: seq<Field>, gs: seq<Field>) {
    forall i | 0 <= i < |fs| :: FoundIn(fs[i], gs)
  }

  ghost predicate AllFoundAmong(fs: seq<Field>, gs: seq<Field>) {
    forall j | 0 <= j < |gs| :: FoundAmong(fs, gs[j])
  }

  lemma AllInNormal(less: Order, fs: seq<Field>, gs: seq<Field>)
    requires AgreeOnValues(less, fs, gs)
    ensures AllFoundIn(fs, gs) <==> AllIn(NormalFields(less, fs), NormalFields(less, gs))
  {
    hide EqualUpToOrder, Normalize, FoundIn, AgreeOnValues;
    var nf, ng := NormalFields(less, fs), NormalFields(less, gs);
    forall i | 0 <= i < |fs| ensures FoundIn(fs[i], gs) <==> nf[i] in ng {
      FoundInNormal(less, fs, gs, i);
    }
  }

  lemma AllAmongNormal(less: Order, fs: seq<Field>, gs: seq<Field>)
    requires AgreeOnValues(less, fs, gs)
    ensures AllFoundAmong(fs, gs) <==> AllIn(NormalFields(less, gs), NormalFields(less, fs))
  {
    hide EqualUpToOrder, Normalize, FoundAmong, AgreeOnValues;
    var nf, ng := NormalFields(less, fs), NormalFields(less, gs);
    forall j | 0 <= j < |gs| ensures FoundAmong(fs, gs[j]) <==> ng[j] in nf {
      FoundAmongNormal(less, fs, gs, j);
    }
  }

  lemma SameElements(a: seq<Field>, b: seq<Field>)
    ensures (forall f :: f in a <==> f in b) <==> AllIn(a, b) && AllIn(b, a)
  {
  }

  lemma ObjectsEqual(fs: seq<Field>, gs: seq<Field>)
    ensures EqualUpToOrder(Object(fs), Object(gs)) <==> AllFoundIn(fs, gs) && AllFoundAmong(fs, gs)
  {
    hide FoundIn, FoundAmong;
  }

  lemma ObjectsAlike(less: Order, fs: seq<Field>, gs: seq<Field>)
    requires StrictTotal(less) && DistinctKeys(fs) && DistinctKeys(gs) && AgreeOnValues(less, fs, gs)
    ensures SameJson(less, Object(fs), Object(gs)) <==> EqualUpToOrder(Object(fs), Object(gs))
  {
    hide SortFields, AgreeOnValues, AllFoundIn, AllFoundAmong, AllIn, NormalFields, EqualUpToOrder;
    AllInNormal(less, fs, gs);
    AllAmongNormal(less, fs, gs);
    SameElements(NormalFields(less, fs), NormalFields(less, gs));
    ObjectsEqual(fs, gs);
    NormalDistinct(less, fs);
    NormalDistinct(less, gs);
    SortedAlike(less, NormalFields(less, fs), NormalFields(less, gs));
  }

  lemma ArraysAlike(less: Order, xs: seq<Json>, ys: seq<Json>)
    requires forall i | 0 <= i < |xs| && i < |ys| :: SameJson(less, xs[i], ys[i]) <==> EqualUpToOrder(xs[i], ys[i])
    ensures SameJson(less, Array(xs), Array(ys)) <==> EqualUpToOrder(Array(xs), Array(ys))
  {
    var nx, ny := Normalize(less, Array(xs)).items, Normalize(less, Array(ys)).items;
    assert |nx| == |xs| && |ny| == |ys|;
    assert forall i | 0 <= i < |xs| :: nx[i] == Normalize(less, xs[i]);
    assert forall i | 0 <= i < |ys| :: ny[i] == Normalize(less, ys[i]);
    if |xs| == |ys| && forall i | 0 <= i < |xs| :: EqualUpToOrder(xs[i], ys[i]) {
      forall i | 0 <= i < |xs| ensures nx[i] == ny[i] {
        assert SameJson(less, xs[i], ys[i]);
      }
      assert nx == ny;
    }
    if nx == ny {
      forall i | 0 <= i < |xs| ensures EqualUpToOrder(xs[i], ys[i]) {
        assert nx[i] == ny[i];
        assert SameJson(less, xs[i], ys[i]);
      }
    }
  }

  /**
   * With a comparison that tells all keys apart, `sameJson` holds of two JSON values exactly when they are
   * equal up to the order of object keys at every depth.
   */
  lemma {:induction false} SameJsonExactly(less: Order, a: Json, b: Json)
    requires StrictTotal(less) && WellFormed(a) && WellFormed(b)
    ensures SameJson(less, a, b) <==> EqualUpToOrder(a, b)
    decreases a
  {
    hide SameJson, EqualUpToOrder, StrictTotal;
    if a.Array? && b.Array? {
      forall i | 0 <= i < |a.items| && i < |b.items|
        ensures SameJson(less, a.items[i], b.items[i]) <==> EqualUpToOrder(a.items[i], b.items[i])
      {
        SameJsonExactly(less, a.items[i], b.items[i]);
      }
      ArraysAlike(less, a.items, b.items);
    } else if a.Object? && b.Object? {
      forall i, j | 0 <= i < |a.fields| && 0 <= j < |b.fields|
        ensures SameJson(less, a.fields[i].value, b.fields[j].value) <==>
                EqualUpToOrder(a.fields[i].value, b.fields[j].value)
      {
        SameJsonExactly(less, a.fields[i].value, b.fields[j].value);
      }
      ObjectsAlike(less, a.fields, b.fields);
    } else {
      OtherwiseAlike(less, a, b);
    }
  }

  lemma OtherwiseAlike(less: Order, a: Json, b: Json)
    requires !(a.Array? && b.Array?) && !(a.Object? && b.Object?)
    ensures SameJson(less, a, b) <==> EqualUpToOrder(a, b)
  {
  }

  /** Reordering the fields of an object, at any place where it is compared, makes no difference. */
  lemma FieldOrderIsIrrelevant(less: Order, fs: seq<Field>, gs: seq<Field>)
    requires StrictTotal(less) && WellFormed(Object(fs)) && multiset(fs) == multiset(gs)
    ensures SameJson(less, Object(fs), Object(gs))
  {
    hide Normalize, SortFields;
    forall f ensures f in fs <==> f in gs {
      SameBag(fs, gs, f);
    }
    SameFieldsDistinct(fs, gs);
    NormalDistinct(less, fs);
    NormalDistinct(less, gs);
    forall f ensures f in NormalFields(less, fs) <==> f in NormalFields(less, gs) {
      NormalMembers(less, fs, gs, f);
      NormalMembers(less, gs, fs, f);
    }
    SortedAlike(less, NormalFields(less, fs), NormalFields(less, gs));
    NormalObject(less, fs);
    NormalObject(less, gs);
  }

  lemma NormalObject(less: Order, fs: seq<Field>)
    ensures Normalize(less, Object(fs)) == Object(SortFields(less, NormalFields(less, fs)))
  {
  }

  lemma NormalMembers(less: Order, fs: seq<Field>, gs: seq<Field>, f: Field)
    requires forall g :: g in fs ==> g in gs
    ensures f in NormalFields(less, fs) ==> f in NormalFields(less, gs)
  {
    hide Normalize;
    if f in NormalFields(less, fs) {
      var i :| 0 <= i < |fs| && NormalFields(less, fs)[i] == f;
      assert fs[i] in fs && fs[i] in gs;
      var j :| 0 <= j < |gs| && gs[j] == fs[i];
      assert NormalFields(less, gs)[j] == f;
    }
  }

  lemma {:induction false} KeyCount(fs: seq<Field>, f: Field)
    requires DistinctKeys(fs)
    ensures multiset(fs)[f] <= 1
  {
    if fs != [] {
      KeyCount(fs[1..], f);
      assert fs == [fs[0]] + fs[1..];
      assert f == fs[0] ==> f !in fs[1..];
    }
  }

  /** A reordering of fields with distinct keys has distinct keys. */
  lemma SameFieldsDistinct(fs: seq<Field>, gs: seq<Field>)
    requires DistinctKeys(fs) && multiset(fs) == multiset(gs)
    ensures DistinctKeys(gs)
  {
    forall i, j | 0 <= i < j < |gs| ensures gs[i].key != gs[j].key {
      SameBag(fs, gs, gs[i]);
      SameBag(fs, gs, gs[j]);
      KeyCount(fs, gs[i]);
      TwiceInBag(gs, i, j);
    }
  }

  lemma TwiceInBag(gs: seq<Field>, i: nat, j: nat)
    requires i < j < |gs|
    ensures gs[i] == gs[j] ==> multiset(gs)[gs[i]] >= 2
  {
    assert gs == gs[..j] + gs[j..];
    assert gs[i] in gs[..j] && gs[j] in gs[j..];
  }

  // ----- keys that tie -----

  /** A comparison as a locale gives it: consistent, but it may let different keys tie. */
  ghost predicate StrictPartial(less: Order) {
    && (forall a, b :: less(a, b) ==> !less(b, a))
    && (forall a, b, c :: less(a, b) && less(b, c) ==> less(a, c))
  }

  ghost predicate ExactFor(less: Order) {
    forall a, b | WellFormed(a) && WellFormed(b) :: SameJson(less, a, b) <==> EqualUpToOrder(a, b)
  }

  /** Two keys that tie keep the order they came in, so two objects that only differ in it print differently. */
  lemma TiedKeysKeepTheirOrder(less: Order, k: string, l: string)
    requires k != l && !less(k, l) && !less(l, k)
    ensures var a, b := [Field(k, Null), Field(l, Null)], [Field(l, Null), Field(k, Null)];
            && WellFormed(Object(a)) && WellFormed(Object(b))
            && EqualUpToOrder(Object(a), Object(b)) && !SameJson(less, Object(a), Object(b))
  {
    var a, b := [Field(k, Null), Field(l, Null)], [Field(l, Null), Field(k, Null)];
    TwoTied(less, k, l);
    TwoTied(less, l, k);
    assert a[0] == b[1] && a[1] == b[0];
    assert FoundIn(a[0], b) && FoundIn(a[1], b) && FoundAmong(a, b[0]) && FoundAmong(a, b[1]);
  }

  lemma TwoTied(less: Order, k: string, l: string)
    requires !less(k, l) && !less(l, k)
    ensures Normalize(less, Object([Field(k, Null), Field(l, Null)])) == Object([Field(k, Null), Field(l, Null)])
  {
    var fields := [Field(k, Null), Field(l, Null)];
    assert NormalFields(less, fields) == fields;
    assert fields[1..] == [Field(l, Null)];
    assert [Field(l, Null)][1..] == [];
    assert SortFields(less, [Field(l, Null)]) == [Field(l, Null)];
  }

  /** So `sameJson` is equality up to key order exactly when the comparison lets no two different keys tie. */
  lemma ExactExactlyWhenNothingTies(less: Order)
    requires StrictPartial(less)
    ensures ExactFor(less) <==> forall k, l :: k != l ==> less(k, l) || less(l, k)
  {
    if ExactFor(less) {
      forall k, l | k != l ensures less(k, l) || less(l, k) {
        if !less(k, l) && !less(l, k) {
          TiedKeysKeepTheirOrder(less, k, l);
        }
      }
    }
    if forall k, l :: k != l ==> less(k, l) || less(l, k) {
      forall a, b | WellFormed(a) && WellFormed(b) ensures SameJson(less, a, b) <==> EqualUpToOrder(a, b) {
        SameJsonExactly(less, a, b);
      }
    }
  }
}
