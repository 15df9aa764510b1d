/** The responses the route handlers send: a status code and a body. */
module Http {
  import opened ReviewModel
  import opened Model

  datatype Body =
    | Empty                                        // `res.status(s).end()`
    | Text(text: string)                           // `res.send("…")`
    | Error(error: string)                         // `{ error }`
    | Message(message: string)                     // `{ message }`
    | Token(token: string)                         // `{ token }`
    | AccountMessage(message: string, account: Account)  // `{ message, account }`
    | ReviewDoc(review: Review)                    // the saved review document
    | ReviewList(reviews: seq<Review>)             // `{ reviews }`
    | Favorites(favorites: seq<Restaurant>)        // `{ favorites }`
    | RestaurantList(restaurants: seq<Restaurant>) // `{ restaurants_list }`
    | RestaurantPage(restaurant: Restaurant, reviews: seq<Review>)  // `{ restaurant: { restaurant, reviews } }`
    | ErrorPage                                    // Express's default page for an uncaught exception

  datatype Response = Response(status: int, body: Body)

  /** What a middleware does with a request: pass it on, or answer it. */
  datatype Outcome = Next | Halt(response: Response)
}
