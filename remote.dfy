/**
 * The remote Geonorge catalogue as the harvester sees it. `_get_content`
 * (geonorgeharvester.py:329-355) performs the HTTP request and the caller
 * decodes the body with `json.loads`; both are outside the model, which
 * takes their combined effect as an oracle from requests to responses.
 */
module Remote {
  import opened JsonValues

  /** A GET request: the address before `?`, and the query as key/value pairs in URL order. */
  datatype Request = Request(url: string, query: seq<(string, string)>)

  /**
   * What fetching and decoding a request yields:
   * `FetchError` when `_get_content` raises ContentFetchError (a 404 raises
   * its subclass ContentNotFoundError; URL, socket and other errors raise it
   * directly), `NoContent` when it returns None (any other HTTP error),
   * `NotJson` when the content is not JSON, and otherwise the decoded body.
   */
  datatype Response = FetchError | NoContent | NotJson | Body(doc: Json)

  /**
   * How a search ends: with a value, by raising SearchError (which the
   * gather stage catches), or by raising any other exception.
   */
  datatype Outcome<T> = Done(value: T) | SearchFailed | Crashed
}
