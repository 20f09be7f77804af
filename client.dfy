/**
 * The client's configuration-derived parts: the AtomPub URIs of a blog
 * (collection, member and category document), the client value itself, the
 * error type its operations return, and the shape of one page of a listing.
 */
module Clients {
  import opened Wrappers
  import opened EntryIds
  import Iterators

  /** `Config`: the credentials and the blog a client talks to. */
  datatype Config = Config(api_key: string, blog_id: string, hatena_id: string)

  /** `Config::new`: the arguments come as hatena id, blog id, api key. */
  function NewConfig(hatena_id: string, blog_id: string, api_key: string): (c: Config)
    ensures c.hatena_id == hatena_id && c.blog_id == blog_id && c.api_key == api_key
  {
    Config(api_key, blog_id, hatena_id)
  }

  datatype Client = Client(config: Config)

  /** `Client::new`: the client keeps a copy of the configuration. */
  function NewClient(config: Config): (c: Client)
    ensures c.config == config
  {
    Client(config)
  }

  /** `ClientError`. The library error inside `RequestError` is not modelled. */
  datatype ClientError =
    | RequestError
    | ResponseBody
    | BadRequest
    | Unauthorized
    | NotFound
    | MethodNotAllowed
    | InternalServerError
    | UnknownStatusCode

  /** The `Display` text of each error. */
  function Message(e: ClientError): string {
    match e
    case RequestError => "request error"
    case ResponseBody => "response body error"
    case BadRequest => "bad request"
    case Unauthorized => "unauthorized"
    case NotFound => "not found"
    case MethodNotAllowed => "method not allowed"
    case InternalServerError => "internal server error"
    case UnknownStatusCode => "unknown status code"
  }

  /** Each error has its own message. */
  lemma MessagesDistinct(a: ClientError, b: ClientError)
    ensures Message(a) == Message(b) <==> a == b
  {
  }

  /** `PartialList`: the cursor of the next page, if any, and the ids on this page. */
  type PartialList = (Option<string>, seq<EntryId>)

  const BaseUrl := "https://blog.hatena.ne.jp/"

  /** The blog's root, `https://blog.hatena.ne.jp/{hatena_id}/{blog_id}`. */
  function BlogUri(c: Client): string {
    BaseUrl + c.config.hatena_id + "/" + c.config.blog_id
  }

  /** `collection_uri`: the entry collection, with `?page=` and the cursor, verbatim, when one is given. */
  function CollectionUri(c: Client, page: Option<string>): (uri: string)
    ensures page.None? ==> uri == BlogUri(c) + "/atom/entry"
    ensures page.Some? ==> uri == BlogUri(c) + "/atom/entry" + "?page=" + page.value
  {
    BlogUri(c) + "/atom/entry" + match page { case Some(p) => "?page=" + p case None => "" }
  }

  /** `member_uri`: the collection followed by `/` and the id. */
  function MemberUri(c: Client, id: EntryId): (uri: string)
    ensures uri == CollectionUri(c, None) + "/" + ToString(id)
  {
    BlogUri(c) + "/atom/entry/" + ToString(id)
  }

  /** `category_document_uri`. */
  function CategoryDocumentUri(c: Client): (uri: string)
    ensures uri == BlogUri(c) + "/atom/category"
  {
    BlogUri(c) + "/atom/category"
  }

  /** `a + b == a + c` only when `b == c`. */
  lemma CancelPrefix(a: string, b: string, c: string)
    ensures a + b == a + c <==> b == c
  {
    if a + b == a + c {
      assert b == (a + b)[|a|..];
      assert c == (a + c)[|a|..];
    }
  }

  /** Different ids have different member URIs. */
  lemma MemberUriInjective(c: Client, a: EntryId, b: EntryId)
    ensures MemberUri(c, a) == MemberUri(c, b) <==> a == b
  {
    CancelPrefix(CollectionUri(c, None) + "/", a.raw, b.raw);
  }

  /** Different cursors give different page URIs, and no cursor a URI of its own. */
  lemma CollectionUriInjective(c: Client, p: Option<string>, q: Option<string>)
    ensures CollectionUri(c, p) == CollectionUri(c, q) <==> p == q
  {
    var first := CollectionUri(c, None);
    if p.Some? && q.Some? {
      CancelPrefix(first + "?page=", p.value, q.value);
    } else if p.Some? && q.None? {
      assert |CollectionUri(c, p)| > |first|;
    } else if p.None? && q.Some? {
      assert |CollectionUri(c, q)| > |first|;
    }
  }

  /**
   * The id is the last path segment of its member URI, the segment the
   * response reader takes from an entry's edit link, as long as the id has
   * no `/` of its own.
   */
  lemma MemberUriLastSegment(c: Client, id: EntryId)
    requires '/' !in id.raw
    ensures Iterators.LastPiece(MemberUri(c, id), '/') == id.raw
  {
    assert MemberUri(c, id) == CollectionUri(c, None) + ['/'] + id.raw;
    Iterators.LastPieceAfterSeparator(CollectionUri(c, None), '/', id.raw);
  }

  /** The category document is a different resource from the collection and its members. */
  lemma CategoryDocumentIsNotEntry(c: Client, page: Option<string>, id: EntryId)
    ensures CategoryDocumentUri(c) != CollectionUri(c, page)
    ensures CategoryDocumentUri(c) != MemberUri(c, id)
  {
    var n := |BlogUri(c)| + 6;
    assert CategoryDocumentUri(c)[n] == 'c';
    assert CollectionUri(c, page)[n] == 'e';
    assert MemberUri(c, id)[n] == 'e';
  }

  /** The unit tests of client.rs, with the URIs written as their parts. */
  lemma ClientExamples()
    ensures NewClient(NewConfig("HATENA_ID", "BLOG_ID", "API_KEY"))
         == Client(Config("API_KEY", "BLOG_ID", "HATENA_ID"))
    ensures CollectionUri(NewClient(NewConfig("HATENA_ID", "BLOG_ID", "API_KEY")), None)
         == "https://blog.hatena.ne.jp/" + "HATENA_ID/BLOG_ID/atom/entry"
    ensures MemberUri(NewClient(NewConfig("HATENA_ID", "BLOG_ID", "API_KEY")), EntryId("ENTRY_ID"))
         == "https://blog.hatena.ne.jp/" + "HATENA_ID/BLOG_ID/atom/entry/ENTRY_ID"
  {
  }
}
