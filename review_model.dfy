/** The Review schema: required fields, trimmed strings and the default date. */
module ReviewModel {
  import opened Wrappers
  import opened Text
  import opened Model

  /** The schema paths that carry `required: true`. */
  datatype Field = Item | ReviewText | Rating | Author | RestaurantRef

  /** The data a review document is created from; absent properties are `None`.
      `id` is an explicit `_id` in the data, if any. */
  datatype ReviewDraft = ReviewDraft(
    id: Option<Id>,
    item: Option<string>,
    review: Option<string>,
    rating: Option<real>,
    pictures: seq<string>,
    date: Option<int>,
    author: Option<Id>,
    restaurant: Option<Id>)

  /** A stored review. */
  datatype Review = Review(
    id: Id,
    item: string,
    review: string,
    rating: real,
    pictures: seq<string>,
    date: int,
    author: Id,
    restaurant: Id)

  /** A required, trimmed string passes validation when it is present and not blank
      (the value is trimmed before `required` is checked, and "" fails it). */
  predicate RequiredString(o: Option<string>)
  {
    o.Some? && Trim(o.value) != ""
  }

  /** Whether the draft satisfies the `required` rule of field `f`. */
  predicate Present(d: ReviewDraft, f: Field)
  {
    match f
    case Item => RequiredString(d.item)
    case ReviewText => RequiredString(d.review)
    case Rating => d.rating.Some?
    case Author => d.author.Some?
    case RestaurantRef => d.restaurant.Some?
  }

  /** The fields whose `required` rule fails. */
  function Missing(d: ReviewDraft): (m: set<Field>)
    ensures Item in m <==> !RequiredString(d.item)
    ensures ReviewText in m <==> !RequiredString(d.review)
    ensures Rating in m <==> d.rating.None?
    ensures Author in m <==> d.author.None?
    ensures RestaurantRef in m <==> d.restaurant.None?
  {
    (if RequiredString(d.item) then {} else {Item})
    + (if RequiredString(d.review) then {} else {ReviewText})
    + (if d.rating.Some? then {} else {Rating})
    + (if d.author.Some? then {} else {Author})
    + (if d.restaurant.Some? then {} else {RestaurantRef})
  }

  /** A field is reported missing exactly when its `required` rule fails. */
  lemma MissingIffAbsent(d: ReviewDraft)
    ensures forall f :: f in Missing(d) <==> !Present(d, f)
  {
    forall f ensures f in Missing(d) <==> !Present(d, f) {
      match f
      case Item =>
      case ReviewText =>
      case Rating =>
      case Author =>
      case RestaurantRef =>
    }
  }

  /** Every picture URL, trimmed. */
  function TrimAll(urls: seq<string>): (r: seq<string>)
    ensures |r| == |urls|
    ensures forall i :: 0 <= i < |urls| ==> r[i] == Trim(urls[i])
  {
    if urls == [] then [] else [Trim(urls[0])] + TrimAll(urls[1..])
  }

  /** `new Review(data)` followed by validation. `id` is the `_id` the document gets
      when the data names none; `now` is the creation time. */
  function Create(d: ReviewDraft, id: Id, now: int): (r: Result<Review, set<Field>>)
    ensures r.Failure? <==> exists f :: !Present(d, f)
    ensures r.Failure? ==> forall f :: f in r.error <==> !Present(d, f)
    ensures r.Success? ==>
              && RequiredString(d.item) && RequiredString(d.review)
              && d.rating.Some? && d.author.Some? && d.restaurant.Some?
              && r.value.id == (if d.id.Some? then d.id.value else id)
              && r.value.item == Trim(d.item.value) && r.value.item != ""
              && r.value.review == Trim(d.review.value) && r.value.review != ""
              && r.value.rating == d.rating.value
              && r.value.author == d.author.value
              && r.value.restaurant == d.restaurant.value
              && r.value.date == (if d.date.Some? then d.date.value else now)
              && |r.value.pictures| == |d.pictures|
              && forall i :: 0 <= i < |d.pictures| ==> r.value.pictures[i] == Trim(d.pictures[i])
  {
    var missing := Missing(d);
    MissingIffAbsent(d);
    if missing != {} then
      Failure(missing)
    else
      assert Present(d, Item) && Present(d, ReviewText) && Present(d, Rating);
      assert Present(d, Author) && Present(d, RestaurantRef);
      Success(Review(
        if d.id.Some? then d.id.value else id,
        Trim(d.item.value),
        Trim(d.review.value),
        d.rating.value,
        TrimAll(d.pictures),
        if d.date.Some? then d.date.value else now,
        d.author.value,
        d.restaurant.value))
  }

  /** The stored item and body carry no surrounding white space. */
  lemma CreatedTextIsTrimmed(d: ReviewDraft, id: Id, now: int)
    requires Create(d, id, now).Success?
    ensures var r := Create(d, id, now).value;
            && !IsSpace(r.item[0]) && !IsSpace(r.item[|r.item| - 1])
            && !IsSpace(r.review[0]) && !IsSpace(r.review[|r.review| - 1])
  {
    TrimSlice(d.item.value);
    TrimSlice(d.review.value);
  }

  /** The schema bounds nothing about the rating: any present number is kept. */
  lemma AnyRatingAccepted(d: ReviewDraft, id: Id, now: int, rating: real)
    requires Create(d, id, now).Success?
    ensures Create(d.(rating := Some(rating)), id, now).Success?
    ensures Create(d.(rating := Some(rating)), id, now).value.rating == rating
  {
    assert forall f :: Present(d.(rating := Some(rating)), f) == Present(d, f);
  }
}
