/**
 * The back end as the pages see it: requests are values the model emits, and each request's
 * result comes back as an input to the page's next transition.
 */
module Http {

  /** A request with a body of type `B` for the writes. */
  datatype Request<B> = Get(path: string) | Post(path: string, body: B) | Put(path: string, body: B) | Delete(path: string)

  /** How a request ended: with a response body, or by throwing (network error or error status). */
  datatype Outcome<T> = Succeeded(data: T) | Failed
}
