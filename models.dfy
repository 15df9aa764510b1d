/** The stored records other than reviews. Their schemas declare no fields, so the
    fields are those the services read and write. */
module Model {

  /** A document id (an ObjectId, compared by value). */
  type Id = string

  /** A restaurant document. `hours` maps a weekday to its schedule text;
      `accepted_payments` and `nutrition_types` map a name to a flag. */
  datatype Restaurant = Restaurant(
    id: Id,
    name: string,
    complexId: Id,
    hours: map<string, string>,
    avgRating: real,
    delivery: bool,
    acceptedPayments: map<string, bool>,
    cuisine: string,
    nutritionTypes: map<string, bool>,
    price: string)

  /** An account document: its e-mail, the stored password hash and its favourites. */
  datatype Account = Account(id: Id, email: string, password: string, favorites: seq<Id>)
}
