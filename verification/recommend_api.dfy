/**
  The shapes the frontend exchanges with the `/recommend` endpoint: the
  request payload, the product entries of the answer, and the outcome of
  the request as the pages observe it.
 */
module RecommendApi {
  import opened Wrappers

  /** One entry of `response.results`; every field but `id` may be missing. */
  datatype Product = Product(
    id: string,
    name: Option<string>,
    brand: Option<string>,
    category: Option<string>,
    price: Option<real>,
    rating: Option<real>,
    score: Option<real>,
    semantic: Option<real>)

  /** The request body; `userId` and `topK` may be omitted. */
  datatype Payload = Payload(userId: Option<string>, query: string, topK: Option<int>)

  /** A resolved request carries the results; a rejected one carries nothing the pages use. */
  datatype Reply = Answered(results: seq<Product>) | Failed
}
