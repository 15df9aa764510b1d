/** The restaurant query builder: a filter record and a sort directive become a
    query object (one constraint per key), which the store evaluates as a
    conjunction and sorts. */
module RestaurantService {
  import opened Wrappers
  import opened Text
  import opened Js
  import opened Model
  import opened Seqs

  /** The filter record the route handler fills in; absent criteria are `None`. */
  datatype Filters = Filters(
    name: Option<string>,
    avgRating: Option<Number>,
    cuisine: Option<string>,
    delivery: Option<bool>,
    price: Option<string>,
    acceptedPayments: Option<Json>,
    nutritionTypes: Option<Json>,
    hours: Option<Json>)

  const NoFilters := Filters(None, None, None, None, None, None, None, None)

  /** The top-level restaurant fields a query or a sort can name. */
  datatype TopField = IdField | ComplexIdField | NameField | AvgRatingField | DeliveryField | CuisineField | PriceField

  /** The map-valued fields whose entries a query names with a dotted path. */
  datatype Group = AcceptedPayments | NutritionTypes | Hours

  /** A key of the query object: `name`, or `accepted_payments.<key>` and the like. */
  datatype Path = Top(field: TopField) | Nested(group: Group, key: string)

  /** The value stored under a query key: an equality, a case-insensitive regex, or `$gte`. */
  datatype Condition = Eq(value: Json) | RegexI(pattern: Json) | Gte(bound: real)

  /** The query object. Assigning a key twice keeps the last value, as on a JavaScript object. */
  type Query = map<Path, Condition>

  datatype QueryError = RegexNotString

  // ----- paths as strings -----

  function TopName(f: TopField): string
  {
    match f
    case IdField => "_id"
    case ComplexIdField => "complex_id"
    case NameField => "name"
    case AvgRatingField => "avg_rating"
    case DeliveryField => "delivery"
    case CuisineField => "cuisine"
    case PriceField => "price"
  }

  function GroupPrefix(g: Group): string
  {
    match g
    case AcceptedPayments => "accepted_payments."
    case NutritionTypes => "nutrition_types."
    case Hours => "hours."
  }

  /** The dotted path string of a query key. */
  function PathName(p: Path): string
  {
    match p
    case Top(f) => TopName(f)
    case Nested(g, k) => GroupPrefix(g) + k
  }

  /** Reads a path string (a sort field); names no restaurant field when it is `None`. */
  function ParsePath(s: string): Option<Path>
  {
    if s == "_id" then Some(Top(IdField))
    else if s == "complex_id" then Some(Top(ComplexIdField))
    else if s == "name" then Some(Top(NameField))
    else if s == "avg_rating" then Some(Top(AvgRatingField))
    else if s == "delivery" then Some(Top(DeliveryField))
    else if s == "cuisine" then Some(Top(CuisineField))
    else if s == "price" then Some(Top(PriceField))
    else if StartsWith(s, "accepted_payments.") then Some(Nested(AcceptedPayments, s[18..]))
    else if StartsWith(s, "nutrition_types.") then Some(Nested(NutritionTypes, s[16..]))
    else if StartsWith(s, "hours.") then Some(Nested(Hours, s[6..]))
    else None
  }

  lemma TopNameHasNoDot(f: TopField)
    ensures '.' !in TopName(f)
  {
  }

  /** A dotted name is read back under its own group. */
  lemma ParseNestedName(g: Group, k: string)
    ensures ParsePath(GroupPrefix(g) + k) == Some(Nested(g, k))
  {
    var s := GroupPrefix(g) + k;
    assert s[|GroupPrefix(g)| - 1] == '.';
    forall f: TopField ensures s != TopName(f) {
      TopNameHasNoDot(f);
    }
    assert s[..|GroupPrefix(g)|] == GroupPrefix(g);
    assert s[|GroupPrefix(g)|..] == k;
    match g
    case AcceptedPayments =>
    case NutritionTypes =>
      assert s[0] == 'n';
    case Hours =>
      assert s[0] == 'h';
      assert !StartsWith(s, "accepted_payments.") && !StartsWith(s, "nutrition_types.");
  }

  /** Reading back a path string gives the path it was written from. */
  lemma ParsePathName(p: Path)
    ensures ParsePath(PathName(p)) == Some(p)
  {
    match p
    case Top(f) =>
    case Nested(g, k) => ParseNestedName(g, k);
  }

  // ----- evaluating a query -----

  /** The value a restaurant document holds at a path; `None` when it has no such field. */
  function FieldValue(r: Restaurant, p: Path): Option<Json>
  {
    match p
    case Top(IdField) => Some(JString(r.id))
    case Top(ComplexIdField) => Some(JString(r.complexId))
    case Top(NameField) => Some(JString(r.name))
    case Top(AvgRatingField) => Some(JNumber(r.avgRating))
    case Top(DeliveryField) => Some(JBool(r.delivery))
    case Top(CuisineField) => Some(JString(r.cuisine))
    case Top(PriceField) => Some(JString(r.price))
    case Nested(AcceptedPayments, k) => if k in r.acceptedPayments then Some(JBool(r.acceptedPayments[k])) else None
    case Nested(NutritionTypes, k) => if k in r.nutritionTypes then Some(JBool(r.nutritionTypes[k])) else None
    case Nested(Hours, k) => if k in r.hours then Some(JString(r.hours[k])) else None
  }

  /** Whether a field value meets one condition. Equality with `null` also holds of a
      missing field; a regex or a bound never holds of a missing or mistyped field. */
  predicate Satisfies(v: Option<Json>, c: Condition)
  {
    match c
    case Eq(JNull) => v == None || v == Some(JNull)
    case Eq(x) => v == Some(x)
    case RegexI(pat) => pat.JString? && v.Some? && v.value.JString? && ContainsIgnoreCase(v.value.str, pat.str)
    case Gte(b) => v.Some? && v.value.JNumber? && v.value.n >= b
  }

  /** A restaurant matches a query when it meets every condition (a conjunction). */
  predicate Matches(r: Restaurant, q: Query)
  {
    forall p :: p in q ==> Satisfies(FieldValue(r, p), q[p])
  }

  /** The store rejects a regex whose pattern is not a string. */
  predicate ValidQuery(q: Query)
  {
    forall p :: p in q ==> (q[p].RegexI? ==> q[p].pattern.JString?)
  }

  // ----- sorting -----

  /** A sort key, ordered by type first (missing < number < string < boolean), then by value. */
  datatype SortKey = Missing | KNum(n: real) | KStr(s: string) | KBool(b: bool)

  function KeyOf(v: Option<Json>): SortKey
  {
    match v
    case Some(JNumber(n)) => KNum(n)
    case Some(JString(s)) => KStr(s)
    case Some(JBool(b)) => KBool(b)
    case _ => Missing
  }

  function Rank(k: SortKey): nat
  {
    match k
    case Missing => 0
    case KNum(_) => 1
    case KStr(_) => 2
    case KBool(_) => 3
  }

  /** Code-point lexicographic order on strings. */
  predicate LexLe(a: string, b: string)
  {
    a == [] || (b != [] && (a[0] < b[0] || (a[0] == b[0] && LexLe(a[1..], b[1..]))))
  }

  predicate KeyLe(a: SortKey, b: SortKey)
  {
    Rank(a) < Rank(b)
    || (Rank(a) == Rank(b) &&
        match a
        case KNum(x) => x <= b.n
        case KStr(x) => LexLe(x, b.s)
        case KBool(x) => !x || b.b
        case Missing => true)
  }

  lemma {:induction false} LexTotal(a: string, b: string)
    ensures LexLe(a, b) || LexLe(b, a)
  {
    if a != [] && b != [] && a[0] == b[0] {
      LexTotal(a[1..], b[1..]);
    }
  }

  lemma {:induction false} LexTrans(a: string, b: string, c: string)
    requires LexLe(a, b) && LexLe(b, c)
    ensures LexLe(a, c)
  {
    if a != [] && b != [] && c != [] && a[0] == b[0] == c[0] {
      LexTrans(a[1..], b[1..], c[1..]);
    }
  }

  lemma KeyTotal(a: SortKey, b: SortKey)
    ensures KeyLe(a, b) || KeyLe(b, a)
  {
    if a.KStr? && b.KStr? { LexTotal(a.s, b.s); }
  }

  lemma KeyTrans(a: SortKey, b: SortKey, c: SortKey)
    requires KeyLe(a, b) && KeyLe(b, c)
    ensures KeyLe(a, c)
  {
    if a.KStr? && b.KStr? && c.KStr? { LexTrans(a.s, b.s, c.s); }
  }

  /** The sort options: the field path and whether the direction is ascending (`1`). */
  datatype Sort = Sort(field: string, ascending: bool)

  /** `{ [sortField]: sortOrder === "asc" ? 1 : -1 }`; an absent `sortField` becomes the key "undefined". */
  function SortOptions(sortField: Option<string>, sortOrder: string): (s: Sort)
    ensures s.ascending <==> sortOrder == "asc"
    ensures sortField.Some? ==> s.field == sortField.value
    ensures sortField.None? ==> ParsePath(s.field).None?
  {
    UndefinedNamesNoField();
    Sort(if sortField.Some? then sortField.value else "undefined", sortOrder == "asc")
  }

  /** The key "undefined" is no restaurant field. */
  lemma UndefinedNamesNoField()
    ensures ParsePath("undefined").None?
  {
    assert "undefined"[0] == 'u';
    assert !StartsWith("undefined", "accepted_payments.");
    assert !StartsWith("undefined", "nutrition_types.");
    assert !StartsWith("undefined", "hours.");
  }

  /** The key a restaurant is sorted under. Every top-level field is present; a group
      entry is missing when the restaurant's map lacks it; and a field string that names
      no modelled path gives every restaurant the same, missing key. */
  function SortKeyOf(r: Restaurant, field: string): (k: SortKey)
    ensures ParsePath(field).None? ==> k == Missing
    ensures ParsePath(field).Some? && ParsePath(field).value.Top? ==> k != Missing
  {
    match ParsePath(field)
    case None => Missing
    case Some(p) => KeyOf(FieldValue(r, p))
  }

  /** The sort fields the route's comment lists order by the restaurant's own value. */
  lemma DocumentedSortFields(r: Restaurant)
    ensures SortKeyOf(r, "name") == KStr(r.name)
    ensures SortKeyOf(r, "price") == KStr(r.price)
    ensures SortKeyOf(r, "avg_rating") == KNum(r.avgRating)
  {
    ParsePathName(Top(NameField));
    ParsePathName(Top(PriceField));
    ParsePathName(Top(AvgRatingField));
  }

  /** `a` may come before `b` under the sort options. */
  predicate Before(a: Restaurant, b: Restaurant, s: Sort)
  {
    if s.ascending then KeyLe(SortKeyOf(a, s.field), SortKeyOf(b, s.field))
    else KeyLe(SortKeyOf(b, s.field), SortKeyOf(a, s.field))
  }

  lemma BeforeTotal(a: Restaurant, b: Restaurant, s: Sort)
    ensures Before(a, b, s) || Before(b, a, s)
  {
    KeyTotal(SortKeyOf(a, s.field), SortKeyOf(b, s.field));
  }

  lemma BeforeTrans(a: Restaurant, b: Restaurant, c: Restaurant, s: Sort)
    requires Before(a, b, s) && Before(b, c, s)
    ensures Before(a, c, s)
  {
    if s.ascending {
      KeyTrans(SortKeyOf(a, s.field), SortKeyOf(b, s.field), SortKeyOf(c, s.field));
    } else {
      KeyTrans(SortKeyOf(c, s.field), SortKeyOf(b, s.field), SortKeyOf(a, s.field));
    }
  }

  predicate SortedBy(rs: seq<Restaurant>, s: Sort)
  {
    forall i, j :: 0 <= i < j < |rs| ==> Before(rs[i], rs[j], s)
  }

  /** Inserts `x` after the last element that may precede it. */
  function Insert(t: seq<Restaurant>, x: Restaurant, s: Sort): (r: seq<Restaurant>)
    ensures multiset(r) == multiset(t) + multiset{x}
    ensures |r| == |t| + 1
  {
    if t == [] then [x]
    else if Before(t[|t| - 1], x, s) then t + [x]
    else
      assert t == t[..|t| - 1] + [t[|t| - 1]];
      Insert(t[..|t| - 1], x, s) + [t[|t| - 1]]
  }

  /** Every element of an insertion result is the inserted one or was in the list. */
  lemma InsertMembers(t: seq<Restaurant>, x: Restaurant, s: Sort, y: Restaurant)
    requires y in Insert(t, x, s)
    ensures y in t || y == x
  {
    assert y in multiset(Insert(t, x, s));
  }

  /** A sorted list followed by an element after all of it is sorted. */
  lemma AppendSorted(r: seq<Restaurant>, last: Restaurant, s: Sort)
    requires SortedBy(r, s)
    requires forall i :: 0 <= i < |r| ==> Before(r[i], last, s)
    ensures SortedBy(r + [last], s)
  {
    var out := r + [last];
    forall i, j | 0 <= i < j < |out| ensures Before(out[i], out[j], s) {
      if j < |r| { assert out[i] == r[i] && out[j] == r[j]; }
    }
  }

  lemma {:induction false} InsertSorted(t: seq<Restaurant>, x: Restaurant, s: Sort)
    requires SortedBy(t, s)
    ensures SortedBy(Insert(t, x, s), s)
  {
    if t != [] {
      var last := t[|t| - 1];
      var init := t[..|t| - 1];
      if Before(last, x, s) {
        forall i | 0 <= i < |t| ensures Before(t[i], x, s) {
          if i < |t| - 1 { BeforeTrans(t[i], last, x, s); }
        }
        AppendSorted(t, x, s);
      } else {
        BeforeTotal(last, x, s);
        InsertSorted(init, x, s);
        var r := Insert(init, x, s);
        forall i | 0 <= i < |r| ensures Before(r[i], last, s) {
          InsertMembers(init, x, s, r[i]);
          if r[i] != x {
            var k :| 0 <= k < |init| && init[k] == r[i];
            assert t[k] == r[i];
          }
        }
        AppendSorted(r, last, s);
      }
    }
  }

  /** Stable insertion sort under the sort options. */
  function SortBy(rs: seq<Restaurant>, s: Sort): (r: seq<Restaurant>)
    ensures multiset(r) == multiset(rs)
    ensures |r| == |rs|
  {
    if rs == [] then []
    else
      assert rs == rs[..|rs| - 1] + [rs[|rs| - 1]];
      Insert(SortBy(rs[..|rs| - 1], s), rs[|rs| - 1], s)
  }

  /** The sorted result is ordered by the sort field in the requested direction. */
  lemma {:induction false} SortBySorted(rs: seq<Restaurant>, s: Sort)
    ensures SortedBy(SortBy(rs, s), s)
  {
    if rs != [] {
      SortBySorted(rs[..|rs| - 1], s);
      InsertSorted(SortBy(rs[..|rs| - 1], s), rs[|rs| - 1], s);
    }
  }

  /** Sorting on a field every restaurant lacks keeps the natural order. */
  lemma {:induction false} SortByNoFieldKeepsOrder(rs: seq<Restaurant>, s: Sort)
    requires forall r :: r in rs ==> SortKeyOf(r, s.field) == Missing
    ensures SortBy(rs, s) == rs
  {
    if rs != [] {
      var init, x := rs[..|rs| - 1], rs[|rs| - 1];
      assert rs == init + [x];
      assert forall r :: r in init ==> r in rs;
      SortByNoFieldKeepsOrder(init, s);
      if init != [] {
        assert SortKeyOf(init[|init| - 1], s.field) == Missing == SortKeyOf(x, s.field);
        assert Before(init[|init| - 1], x, s);
      }
    }
  }

  // ----- the store's find(query).sort(options) -----

  function MatchesOf(q: Query): Restaurant -> bool
  {
    r => Matches(r, q)
  }

  /** `find(query).sort(sortOptions)`: the matching restaurants, sorted; an invalid
      regex pattern makes the query fail. */
  function Find(restaurants: seq<Restaurant>, q: Query, s: Sort): (r: Result<seq<Restaurant>, QueryError>)
    ensures r.Failure? <==> !ValidQuery(q)
    ensures r.Success? ==> multiset(r.value) == multiset(Filter(MatchesOf(q), restaurants))
    ensures r.Success? ==> SortedBy(r.value, s)
    ensures r.Success? ==> forall x :: x in r.value <==> x in restaurants && Matches(x, q)
  {
    if !ValidQuery(q) then Failure(RegexNotString)
    else
      var found := Filter(MatchesOf(q), restaurants);
      SortBySorted(found, s);
      SortedMembers(found, s, q, restaurants);
      Success(SortBy(found, s))
  }

  lemma SortedMembers(found: seq<Restaurant>, s: Sort, q: Query, restaurants: seq<Restaurant>)
    requires found == Filter(MatchesOf(q), restaurants)
    ensures forall x :: x in SortBy(found, s) <==> x in restaurants && Matches(x, q)
  {
    forall x ensures x in SortBy(found, s) <==> x in restaurants && Matches(x, q) {
      calc {
        x in SortBy(found, s);
        x in multiset(SortBy(found, s));
        x in multiset(found);
        x in found;
      }
      assert MatchesOf(q)(x) == Matches(x, q);
    }
  }

  // ----- building the query -----

  /** The entries `Object.keys` visits for a map filter that is set and truthy. */
  function GroupEntries(o: Option<Json>): map<string, Json>
  {
    if o.Some? && Truthy(o.value) then Entries(o.value) else map[]
  }

  /** Whether the builder puts a key at path `p`. */
  predicate Selected(f: Filters, complexId: Option<Id>, p: Path)
  {
    match p
    case Top(IdField) => false
    case Top(ComplexIdField) => StringTruthy(complexId)
    case Top(NameField) => StringTruthy(f.name)
    case Top(AvgRatingField) => f.avgRating.Some? && NumberTruthy(f.avgRating.value)
    case Top(DeliveryField) => f.delivery == Some(true)
    case Top(CuisineField) => StringTruthy(f.cuisine)
    case Top(PriceField) => StringTruthy(f.price)
    case Nested(AcceptedPayments, k) => k in GroupEntries(f.acceptedPayments)
    case Nested(NutritionTypes, k) => k in GroupEntries(f.nutritionTypes)
    case Nested(Hours, k) => k in GroupEntries(f.hours)
  }

  /** The condition the builder stores at a selected path. */
  function ConditionAt(f: Filters, complexId: Option<Id>, p: Path): Condition
    requires Selected(f, complexId, p)
  {
    match p
    case Top(ComplexIdField) => Eq(JString(complexId.value))
    case Top(NameField) => RegexI(JString(f.name.value))
    case Top(AvgRatingField) => Gte(f.avgRating.value.value)
    case Top(DeliveryField) => Eq(JBool(true))
    case Top(CuisineField) => RegexI(JString(f.cuisine.value))
    case Top(PriceField) => Eq(JString(f.price.value))
    case Nested(AcceptedPayments, k) => Eq(GroupEntries(f.acceptedPayments)[k])
    case Nested(NutritionTypes, k) => Eq(GroupEntries(f.nutritionTypes)[k])
    case Nested(Hours, k) => RegexI(GroupEntries(f.hours)[k])
  }

  /** `q` holds exactly the keys the filters select, each with its condition. */
  ghost predicate Describes(q: Query, f: Filters, complexId: Option<Id>)
  {
    && (forall p :: p in q <==> Selected(f, complexId, p))
    && (forall p :: p in q ==> q[p] == ConditionAt(f, complexId, p))
  }

  /** One `forEach` over the keys of a map filter: each key `k` sets
      `<group>.k` to the entry's value, or to a regex on it for `hours`. */
  method AddEntries(query: Query, g: Group, entries: map<string, Json>) returns (q: Query)
    ensures forall p :: p in q <==> p in query || (p.Nested? && p.group == g && p.key in entries)
    ensures forall p :: p in q ==>
              q[p] == if p.Nested? && p.group == g && p.key in entries
                      then (if g == Hours then RegexI(entries[p.key]) else Eq(entries[p.key]))
                      else query[p]
  {
    q := query;
    var keys := entries.Keys;
    while keys != {}
      invariant keys <= entries.Keys
      invariant forall p :: p in q <==> p in query || (p.Nested? && p.group == g && p.key in entries && p.key !in keys)
      invariant forall p :: p in q ==>
                  q[p] == if p.Nested? && p.group == g && p.key in entries && p.key !in keys
                          then (if g == Hours then RegexI(entries[p.key]) else Eq(entries[p.key]))
                          else query[p]
      decreases keys
    {
      var k :| k in keys;
      q := q[Nested(g, k) := if g == Hours then RegexI(entries[k]) else Eq(entries[k])];
      keys := keys - {k};
    }
  }

  /** The top-level part of the query object (`complex_id` through `price`). */
  method BuildTopQuery(f: Filters, complexId: Option<Id>) returns (q: Query)
    ensures forall p :: p in q <==> p.Top? && Selected(f, complexId, p)
    ensures forall p :: p in q ==> q[p] == ConditionAt(f, complexId, p)
  {
    q := if StringTruthy(complexId) then map[Top(ComplexIdField) := Eq(JString(complexId.value))] else map[];
    if StringTruthy(f.name) {
      q := q[Top(NameField) := RegexI(JString(f.name.value))];
    }
    if f.avgRating.Some? && NumberTruthy(f.avgRating.value) {
      q := q[Top(AvgRatingField) := Gte(f.avgRating.value.value)];
    }
    if StringTruthy(f.cuisine) {
      q := q[Top(CuisineField) := RegexI(JString(f.cuisine.value))];
    }
    if f.delivery == Some(true) {
      q := q[Top(DeliveryField) := Eq(JBool(true))];
    }
    if StringTruthy(f.price) {
      q := q[Top(PriceField) := Eq(JString(f.price.value))];
    }
  }

  /** The map filter of a group. */
  function GroupFilter(f: Filters, g: Group): Option<Json>
  {
    match g
    case AcceptedPayments => f.acceptedPayments
    case NutritionTypes => f.nutritionTypes
    case Hours => f.hours
  }

  /** `q` holds exactly the selected top-level keys and the selected keys of the groups
      in `gs`, each with its condition. */
  ghost predicate Covers(q: Query, f: Filters, complexId: Option<Id>, gs: set<Group>)
  {
    && (forall p :: p in q <==> (p.Top? || p.group in gs) && Selected(f, complexId, p))
    && (forall p :: p in q ==> q[p] == ConditionAt(f, complexId, p))
  }

  /** One `if (filters.<group>) { Object.keys(...).forEach(...) }` block. */
  method AddGroup(query: Query, f: Filters, complexId: Option<Id>, g: Group, ghost gs: set<Group>)
    returns (q: Query)
    requires g !in gs && Covers(query, f, complexId, gs)
    ensures Covers(q, f, complexId, gs + {g})
  {
    var filter := GroupFilter(f, g);
    if filter.Some? && Truthy(filter.value) {
      q := AddEntries(query, g, Entries(filter.value));
    } else {
      q := query;
    }
  }

  /** The query object of `getRestaurants`, assembled field by field. */
  method BuildQuery(f: Filters, complexId: Option<Id>) returns (q: Query)
    ensures Describes(q, f, complexId)
  {
    q := BuildTopQuery(f, complexId);
    q := AddGroup(q, f, complexId, AcceptedPayments, {});
    q := AddGroup(q, f, complexId, NutritionTypes, {AcceptedPayments});
    q := AddGroup(q, f, complexId, Hours, {AcceptedPayments, NutritionTypes});
    ghost var all := {AcceptedPayments, NutritionTypes, Hours};
    forall p: Path | p.Nested? ensures p.group in all {
      match p.group
      case AcceptedPayments =>
      case NutritionTypes =>
      case Hours =>
    }
  }

  // ----- what the filters mean -----

  /** The flags a map filter asks for: each named key must hold exactly the given
      value (`null` asks for the key to be absent). */
  predicate FlagsAdmit(flags: map<string, bool>, wanted: map<string, Json>)
  {
    forall k :: k in wanted ==>
      if wanted[k] == JNull then k !in flags else k in flags && wanted[k] == JBool(flags[k])
  }

  /** Each named day's schedule must contain the given text, ignoring case. */
  predicate HoursAdmit(hours: map<string, string>, wanted: map<string, Json>)
  {
    forall d :: d in wanted ==>
      wanted[d].JString? && d in hours && ContainsIgnoreCase(hours[d], wanted[d].str)
  }

  /** The restaurants the filters ask for, stated on the filter record directly. */
  predicate Admits(r: Restaurant, f: Filters, complexId: Option<Id>)
  {
    && (StringTruthy(complexId) ==> r.complexId == complexId.value)
    && (StringTruthy(f.name) ==> ContainsIgnoreCase(r.name, f.name.value))
    && (f.avgRating.Some? && NumberTruthy(f.avgRating.value) ==> r.avgRating >= f.avgRating.value.value)
    && (StringTruthy(f.cuisine) ==> ContainsIgnoreCase(r.cuisine, f.cuisine.value))
    && (f.delivery == Some(true) ==> r.delivery)
    && (StringTruthy(f.price) ==> r.price == f.price.value)
    && FlagsAdmit(r.acceptedPayments, GroupEntries(f.acceptedPayments))
    && FlagsAdmit(r.nutritionTypes, GroupEntries(f.nutritionTypes))
    && HoursAdmit(r.hours, GroupEntries(f.hours))
  }

  function AdmitsOf(f: Filters, complexId: Option<Id>): Restaurant -> bool
  {
    r => Admits(r, f, complexId)
  }

  /** Every `hours` pattern is a string, as the store's `$regex` demands. */
  predicate HoursPatternsAreStrings(f: Filters)
  {
    forall d :: d in GroupEntries(f.hours) ==> GroupEntries(f.hours)[d].JString?
  }

  /** The query the builder describes is accepted exactly when the `hours` patterns are strings. */
  lemma ValidIffHoursStrings(q: Query, f: Filters, complexId: Option<Id>)
    requires Describes(q, f, complexId)
    ensures ValidQuery(q) <==> HoursPatternsAreStrings(f)
  {
    if ValidQuery(q) {
      forall d | d in GroupEntries(f.hours) ensures GroupEntries(f.hours)[d].JString? {
        assert Nested(Hours, d) in q;
      }
    }
  }

  /** A matching restaurant meets every top-level filter. */
  lemma MatchesTopAdmits(q: Query, f: Filters, complexId: Option<Id>, r: Restaurant)
    requires Describes(q, f, complexId) && Matches(r, q)
    ensures StringTruthy(complexId) ==> r.complexId == complexId.value
    ensures StringTruthy(f.name) ==> ContainsIgnoreCase(r.name, f.name.value)
    ensures f.avgRating.Some? && NumberTruthy(f.avgRating.value) ==> r.avgRating >= f.avgRating.value.value
    ensures StringTruthy(f.cuisine) ==> ContainsIgnoreCase(r.cuisine, f.cuisine.value)
    ensures f.delivery == Some(true) ==> r.delivery
    ensures StringTruthy(f.price) ==> r.price == f.price.value
  {
    if StringTruthy(complexId) { assert Top(ComplexIdField) in q; }
    if StringTruthy(f.name) { assert Top(NameField) in q; }
    if f.avgRating.Some? && NumberTruthy(f.avgRating.value) { assert Top(AvgRatingField) in q; }
    if StringTruthy(f.cuisine) { assert Top(CuisineField) in q; }
    if f.delivery == Some(true) { assert Top(DeliveryField) in q; }
    if StringTruthy(f.price) { assert Top(PriceField) in q; }
  }

  /** A matching restaurant meets every map filter. */
  lemma MatchesGroupsAdmit(q: Query, f: Filters, complexId: Option<Id>, r: Restaurant)
    requires Describes(q, f, complexId) && Matches(r, q)
    ensures FlagsAdmit(r.acceptedPayments, GroupEntries(f.acceptedPayments))
    ensures FlagsAdmit(r.nutritionTypes, GroupEntries(f.nutritionTypes))
    ensures HoursAdmit(r.hours, GroupEntries(f.hours))
  {
    forall k | k in GroupEntries(f.acceptedPayments)
      ensures var w := GroupEntries(f.acceptedPayments);
              if w[k] == JNull then k !in r.acceptedPayments else k in r.acceptedPayments && w[k] == JBool(r.acceptedPayments[k])
    {
      assert Nested(AcceptedPayments, k) in q;
    }
    forall k | k in GroupEntries(f.nutritionTypes)
      ensures var w := GroupEntries(f.nutritionTypes);
              if w[k] == JNull then k !in r.nutritionTypes else k in r.nutritionTypes && w[k] == JBool(r.nutritionTypes[k])
    {
      assert Nested(NutritionTypes, k) in q;
    }
    forall d | d in GroupEntries(f.hours)
      ensures var w := GroupEntries(f.hours);
              w[d].JString? && d in r.hours && ContainsIgnoreCase(r.hours[d], w[d].str)
    {
      assert Nested(Hours, d) in q;
    }
  }

  /** An admitted restaurant meets every condition of the built query. */
  lemma AdmitsMatches(q: Query, f: Filters, complexId: Option<Id>, r: Restaurant)
    requires Describes(q, f, complexId) && Admits(r, f, complexId)
    ensures Matches(r, q)
  {
    forall p | p in q ensures Satisfies(FieldValue(r, p), q[p]) {
      assert Selected(f, complexId, p);
      match p
      case Top(_) =>
      case Nested(AcceptedPayments, k) =>
      case Nested(NutritionTypes, k) =>
      case Nested(Hours, k) =>
    }
  }

  /** A restaurant matches the built query exactly when it is one the filters ask for:
      the query is the conjunction of the per-filter constraints and nothing more. */
  lemma MatchesIffAdmits(q: Query, f: Filters, complexId: Option<Id>, r: Restaurant)
    requires Describes(q, f, complexId)
    ensures Matches(r, q) <==> Admits(r, f, complexId)
  {
    if Matches(r, q) {
      MatchesTopAdmits(q, f, complexId, r);
      MatchesGroupsAdmit(q, f, complexId, r);
    }
    if Admits(r, f, complexId) {
      AdmitsMatches(q, f, complexId, r);
    }
  }

  /** `getRestaurants(filters, sortField, sortOrder = "asc", complexId)`. */
  method GetRestaurants(restaurants: seq<Restaurant>, f: Filters, sortField: Option<string>,
                        sortOrder: Option<string>, complexId: Option<Id>)
    returns (r: Result<seq<Restaurant>, QueryError>)
    ensures r.Failure? <==> !HoursPatternsAreStrings(f)
    ensures r.Success? ==> forall x :: x in r.value <==> x in restaurants && Admits(x, f, complexId)
    ensures r.Success? ==> multiset(r.value) == multiset(Filter(AdmitsOf(f, complexId), restaurants))
    ensures r.Success? ==> SortedBy(r.value, SortOptions(sortField, if sortOrder.Some? then sortOrder.value else "asc"))
  {
    var order := if sortOrder.Some? then sortOrder.value else "asc";
    var q := BuildQuery(f, complexId);
    var sort := SortOptions(sortField, order);
    ValidIffHoursStrings(q, f, complexId);
    forall x ensures MatchesOf(q)(x) == AdmitsOf(f, complexId)(x) {
      MatchesIffAdmits(q, f, complexId, x);
    }
    FilterExt(MatchesOf(q), AdmitsOf(f, complexId), restaurants);
    r := Find(restaurants, q, sort);
  }

  /** With no filters and no complex the query object is empty. */
  lemma NoFiltersEmptyQuery(q: Query)
    requires Describes(q, NoFilters, None)
    ensures q == map[]
  {
    assert forall p :: p !in q;
  }

  /** An empty query with the default sort returns the whole collection in natural order. */
  lemma EmptyQueryReturnsAll(restaurants: seq<Restaurant>)
    ensures Find(restaurants, map[], SortOptions(None, "asc")) == Success(restaurants)
  {
    var s := SortOptions(None, "asc");
    FilterKeepsAll(MatchesOf(map[]), restaurants);
    SortByNoFieldKeepsOrder(restaurants, s);
  }

  /** `delivery=false` adds no key: it is the same query as no delivery filter. */
  lemma DeliveryFalseAddsNothing(q: Query, f: Filters, complexId: Option<Id>)
    requires Describes(q, f.(delivery := Some(false)), complexId)
    ensures Describes(q, f.(delivery := None), complexId)
  {
  }

  /** A payment key the filter does not mention constrains nothing. */
  lemma UnmentionedPaymentFree(r: Restaurant, f: Filters, complexId: Option<Id>, k: string, b: bool)
    requires k !in GroupEntries(f.acceptedPayments)
    ensures Admits(r.(acceptedPayments := r.acceptedPayments[k := b]), f, complexId) == Admits(r, f, complexId)
  {
    var r' := r.(acceptedPayments := r.acceptedPayments[k := b]);
    var w := GroupEntries(f.acceptedPayments);
    assert forall j :: j in w ==> (j in r'.acceptedPayments <==> j in r.acceptedPayments);
    assert forall j :: j in w && j in r.acceptedPayments ==> r'.acceptedPayments[j] == r.acceptedPayments[j];
  }

  /** `getRestaurantById`: the restaurant with that id, if the collection holds one. */
  function GetRestaurantById(restaurants: seq<Restaurant>, id: Id): (r: Option<Restaurant>)
    ensures r.Some? ==> r.value in restaurants && r.value.id == id
    ensures r.None? <==> forall x :: x in restaurants ==> x.id != id
  {
    match FindFirst((x: Restaurant) => x.id == id, restaurants)
    case None => None
    case Some(i) => Some(restaurants[i])
  }
}
