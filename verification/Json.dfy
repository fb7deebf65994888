/**
 JSON values as Python holds them: the fields of an object have an order, which the canonical form
 removes at every depth. A number or a literal is told apart by its text.
 */
module Json {
  import opened Basics

  datatype Json = Literal(text: string) | String(s: string) | Array(items: Items) | Object(fields: Fields)

  datatype Items = NoItems | Item(head: Json, tail: Items)

  datatype Fields = NoFields | Field(key: string, value: Json, rest: Fields)

  /** The order of strings by their characters. */
  predicate Less(a: string, b: string) {
    b != [] && (a == [] || a[0] < b[0] || (a[0] == b[0] && Less(a[1..], b[1..])))
  }

  function Insert(key: string, value: Json, fields: Fields): Fields {
    match fields
    case NoFields => Field(key, value, NoFields)
    case Field(k, v, rest) =>
      if Less(key, k) then Field(key, value, fields) else Field(k, v, Insert(key, value, rest))
  }

  /** The same value with the fields of every object sorted by key. */
  function Sort(j: Json): Json {
    match j
    case Array(items) => Array(SortItems(items))
    case Object(fields) => Object(SortFields(fields))
    case _ => j
  }

  function SortItems(items: Items): Items {
    match items
    case NoItems => NoItems
    case Item(head, tail) => Item(Sort(head), SortItems(tail))
  }

  function SortFields(fields: Fields): Fields {
    match fields
    case NoFields => NoFields
    case Field(key, value, rest) => Insert(key, Sort(value), SortFields(rest))
  }

  // ----- equality up to the order of fields -----

  function Lookup(fields: Fields, key: string): Option<Json> {
    match fields
    case NoFields => None
    case Field(k, v, rest) => if k == key then Some(v) else Lookup(rest, key)
  }

  function Remove(fields: Fields, key: string): Fields {
    match fields
    case NoFields => NoFields
    case Field(k, v, rest) => if k == key then rest else Field(k, v, Remove(rest, key))
  }

  /** Equal up to the order of the fields, at every depth. */
  predicate Same(a: Json, b: Json) {
    match a
    case Array(items) => b.Array? && SameItems(items, b.items)
    case Object(fields) => b.Object? && SameFields(fields, b.fields)
    case _ => a == b
  }

  predicate SameItems(a: Items, b: Items) {
    match a
    case NoItems => b.NoItems?
    case Item(head, tail) => b.Item? && Same(head, b.head) && SameItems(tail, b.tail)
  }

  /** The first field of a is some field of b, and so on with the other fields. */
  predicate SameFields(a: Fields, b: Fields) {
    match a
    case NoFields => b.NoFields?
    case Field(key, value, rest) =>
      Lookup(b, key).Some? && Same(value, Lookup(b, key).value) && SameFields(rest, Remove(b, key))
  }

  /** No object has a key twice. */
  predicate Valid(j: Json) {
    match j
    case Array(items) => ValidItems(items)
    case Object(fields) => ValidFields(fields)
    case _ => true
  }

  predicate ValidItems(items: Items) {
    items.Item? ==> Valid(items.head) && ValidItems(items.tail)
  }

  predicate ValidFields(fields: Fields) {
    fields.Field? ==> Valid(fields.value) && ValidFields(fields.rest) && Lookup(fields.rest, fields.key).None?
  }

  // ----- the order of keys -----

  lemma {:induction false} LessIsTotal(a: string, b: string)
    ensures Less(a, b) || Less(b, a) || a == b
    ensures !(Less(a, b) && Less(b, a)) && !Less(a, a)
  {
    if a != [] && b != [] {
      LessIsTotal(a[1..], b[1..]);
      LessIsTotal(a[1..], a[1..]);
      assert a == [a[0]] + a[1..] && b == [b[0]] + b[1..];
    } else if a != [] {
      LessIsTotal(a[1..], a[1..]);
    }
  }

  lemma {:induction false} LessIsTransitive(a: string, b: string, c: string)
    requires Less(a, b) && Less(b, c)
    ensures Less(a, c)
  {
    if a != [] && a[0] == b[0] && b[0] == c[0] { LessIsTransitive(a[1..], b[1..], c[1..]); }
  }

  // ----- inserting, looking up, removing -----

  lemma {:induction false} InsertCommutes(k1: string, v1: Json, k2: string, v2: Json, fields: Fields)
    requires k1 != k2
    ensures Insert(k1, v1, Insert(k2, v2, fields)) == Insert(k2, v2, Insert(k1, v1, fields))
  {
    hide Less;
    LessIsTotal(k1, k2);
    if fields.NoFields? {
    } else {
      if Less(k1, k2) && Less(k2, fields.key) { LessIsTransitive(k1, k2, fields.key); }
      if Less(k2, k1) && Less(k1, fields.key) { LessIsTransitive(k2, k1, fields.key); }
      InsertCommutes(k1, v1, k2, v2, fields.rest);
    }
  }

  lemma {:induction false} LookupInsert(key: string, value: Json, fields: Fields, k: string)
    requires Lookup(fields, key).None?
    ensures Lookup(Insert(key, value, fields), k) == if k == key then Some(value) else Lookup(fields, k)
  {
    hide Less;
    if fields.NoFields? {
    } else {
      LookupInsert(key, value, fields.rest, k);
    }
  }

  lemma {:induction false} RemoveInserted(key: string, value: Json, fields: Fields)
    requires Lookup(fields, key).None?
    ensures Remove(Insert(key, value, fields), key) == fields
  {
    hide Less;
    if fields.NoFields? {
    } else {
      RemoveInserted(key, value, fields.rest);
    }
  }

  function SortedOption(v: Option<Json>): Option<Json> { if v.None? then None else Some(Sort(v.value)) }

  lemma {:induction false} LookupSorted(fields: Fields, key: string)
    requires ValidFields(fields)
    ensures Lookup(SortFields(fields), key) == SortedOption(Lookup(fields, key))
  {
    hide Sort, Valid, Insert;
    if fields.NoFields? {
    } else {
      LookupSorted(fields.rest, key);
      LookupSorted(fields.rest, fields.key);
      LookupInsert(fields.key, Sort(fields.value), SortFields(fields.rest), key);
    }
  }

  lemma {:induction false} RemoveKeeps(fields: Fields, key: string, k: string)
    requires ValidFields(fields)
    ensures ValidFields(Remove(fields, key))
    ensures Lookup(Remove(fields, key), k) == if k == key then None else Lookup(fields, k)
    ensures Lookup(fields, key).Some? ==> Valid(Lookup(fields, key).value)
  {
    hide Valid;
    if fields.NoFields? {
    } else {
      RemoveKeeps(fields.rest, key, k);
      RemoveKeeps(fields.rest, key, fields.key);
    }
  }

  /** The field with this key may be sorted in last. */
  lemma {:induction false} SortWithout(fields: Fields, key: string)
    requires ValidFields(fields) && Lookup(fields, key).Some?
    ensures SortFields(fields) == Insert(key, Sort(Lookup(fields, key).value), SortFields(Remove(fields, key)))
  {
    hide Sort, Valid, Insert;
    if fields.key != key {
      SortWithout(fields.rest, key);
      InsertCommutes(fields.key, Sort(fields.value), key, Sort(Lookup(fields, key).value), SortFields(Remove(fields.rest, key)));
    }
  }

  // ----- the canonical form -----

  lemma {:induction false} SameSorts(a: Json, b: Json)
    requires Valid(a) && Valid(b) && Same(a, b)
    ensures Sort(a) == Sort(b)
  {
    match a
    case Array(items) => SameItemsSort(items, b.items);
    case Object(fields) => SameFieldsSort(fields, b.fields);
    case _ =>
  }

  lemma {:induction false} SameItemsSort(a: Items, b: Items)
    requires ValidItems(a) && ValidItems(b) && SameItems(a, b)
    ensures SortItems(a) == SortItems(b)
  {
    hide Sort, Same, Valid;
    if a.NoItems? {
    } else {
      SameSorts(a.head, b.head);
      SameItemsSort(a.tail, b.tail);
    }
  }

  lemma {:induction false} SameFieldsSort(a: Fields, b: Fields)
    requires ValidFields(a) && ValidFields(b) && SameFields(a, b)
    ensures SortFields(a) == SortFields(b)
  {
    hide Sort, Same, Valid, Insert;
    if a.NoFields? {
    } else {
      RemoveKeeps(b, a.key, a.key);
      SameSorts(a.value, Lookup(b, a.key).value);
      SameFieldsSort(a.rest, Remove(b, a.key));
      SortWithout(b, a.key);
    }
  }

  lemma {:induction false} SortedSame(a: Json, b: Json)
    requires Valid(a) && Valid(b) && Sort(a) == Sort(b)
    ensures Same(a, b)
  {
    match a
    case Array(items) => SortedItemsSame(items, b.items);
    case Object(fields) => SortedFieldsSame(fields, b.fields);
    case _ =>
  }

  lemma {:induction false} SortedItemsSame(a: Items, b: Items)
    requires ValidItems(a) && ValidItems(b) && SortItems(a) == SortItems(b)
    ensures SameItems(a, b)
  {
    hide Sort, Same, Valid;
    if a.NoItems? {
    } else {
      SortedSame(a.head, b.head);
      SortedItemsSame(a.tail, b.tail);
    }
  }

  lemma {:induction false} SortedFieldsSame(a: Fields, b: Fields)
    requires ValidFields(a) && ValidFields(b) && SortFields(a) == SortFields(b)
    ensures SameFields(a, b)
  {
    hide Sort, Same, Valid, Insert;
    if a.NoFields? {
      NothingSorted(b);
    } else {
      LookupSorted(a, a.key);
      LookupSorted(b, a.key);
      RemoveKeeps(b, a.key, a.key);
      LookupSorted(a.rest, a.key);
      LookupSorted(Remove(b, a.key), a.key);
      SortWithout(b, a.key);
      RemoveInserted(a.key, Sort(a.value), SortFields(a.rest));
      RemoveInserted(a.key, Sort(Lookup(b, a.key).value), SortFields(Remove(b, a.key)));
      SortedSame(a.value, Lookup(b, a.key).value);
      SortedFieldsSame(a.rest, Remove(b, a.key));
    }
  }

  lemma NothingSorted(fields: Fields)
    requires SortFields(fields) == NoFields
    ensures fields == NoFields
  {
  }

  /** Two values have the same canonical form exactly when they are equal up to the order of fields. */
  lemma CanonicalIff(a: Json, b: Json)
    requires Valid(a) && Valid(b)
    ensures Sort(a) == Sort(b) <==> Same(a, b)
  {
    hide Sort, Same, Valid;
    if Same(a, b) { SameSorts(a, b); }
    if Sort(a) == Sort(b) { SortedSame(a, b); }
  }

  lemma {:induction false} SortKeeps(j: Json)
    requires Valid(j)
    ensures Valid(Sort(j)) && Same(j, Sort(j))
  {
    match j
    case Array(items) => SortItemsKeeps(items);
    case Object(fields) => SortFieldsKeeps(fields);
    case _ =>
  }

  lemma {:induction false} SortItemsKeeps(items: Items)
    requires ValidItems(items)
    ensures ValidItems(SortItems(items)) && SameItems(items, SortItems(items))
  {
    hide Sort, Same, Valid;
    if items.NoItems? {
    } else {
      SortKeeps(items.head);
      SortItemsKeeps(items.tail);
    }
  }

  lemma {:induction false} InsertValid(key: string, value: Json, fields: Fields)
    requires ValidFields(fields) && Valid(value) && Lookup(fields, key).None?
    ensures ValidFields(Insert(key, value, fields))
  {
    hide Less, Valid;
    if fields.NoFields? {
    } else {
      InsertValid(key, value, fields.rest);
      LookupInsert(key, value, fields.rest, fields.key);
    }
  }

  lemma {:induction false} SortFieldsKeeps(fields: Fields)
    requires ValidFields(fields)
    ensures ValidFields(SortFields(fields)) && SameFields(fields, SortFields(fields))
  {
    hide Sort, Same, Valid, Insert;
    if fields.NoFields? {
    } else {
      SortKeeps(fields.value);
      SortFieldsKeeps(fields.rest);
      LookupSorted(fields.rest, fields.key);
      InsertValid(fields.key, Sort(fields.value), SortFields(fields.rest));
      LookupInsert(fields.key, Sort(fields.value), SortFields(fields.rest), fields.key);
      RemoveInserted(fields.key, Sort(fields.value), SortFields(fields.rest));
    }
  }

  /** The canonical form of a canonical form is itself. */
  lemma SortIsIdempotent(j: Json)
    requires Valid(j)
    ensures Sort(Sort(j)) == Sort(j)
  {
    hide Sort, Same, Valid;
    SortKeeps(j);
    SameSorts(j, Sort(j));
  }

  /** Keys go up. */
  predicate Ascending(fields: Fields) {
    fields.Field? && fields.rest.Field? ==> Less(fields.key, fields.rest.key) && Ascending(fields.rest)
  }

  lemma {:induction false} InsertAscends(key: string, value: Json, fields: Fields)
    requires Ascending(fields) && Lookup(fields, key).None?
    ensures Ascending(Insert(key, value, fields))
  {
    hide Less;
    if fields.NoFields? {
    } else {
      LessIsTotal(key, fields.key);
      if fields.rest.Field? { InsertAscends(key, value, fields.rest); }
    }
  }

  /** The fields of a canonical object are in the order of their keys. */
  lemma {:induction false} SortAscends(fields: Fields)
    requires ValidFields(fields)
    ensures Ascending(SortFields(fields))
  {
    hide Sort, Valid, Insert, Less;
    if fields.NoFields? {
    } else {
      SortAscends(fields.rest);
      LookupSorted(fields.rest, fields.key);
      InsertAscends(fields.key, Sort(fields.value), SortFields(fields.rest));
    }
  }
}
