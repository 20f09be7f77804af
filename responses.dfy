/**
 * Reading the server's AtomPub responses: the entry returned for a member
 * request, the page of ids returned for a collection request, and the
 * response wrappers with their `TryFrom` conversions.
 *
 * The feed parser (`Feed::from_str`) and the URL parser with its query
 * decoding (`Url::parse` and `query_pairs`) are library code; each is a
 * parameter returning `None` where the library reports an error. The feed
 * they produce is modelled by the fields the reader looks at.
 */
module Responses {
  import opened Wrappers
  import opened Iterators
  import opened Text
  import opened EntryIds
  import Entries
  import Clients

  datatype Link = Link(rel: string, href: string)

  datatype Person = Person(name: string)

  datatype Category = Category(term: string)

  datatype Content = Content(value: Option<string>)

  /**
   * A foreign-namespace element: its qualified name, text and child elements
   * by local name. Its attributes are not read by the client and are left out.
   */
  datatype Extension = Extension(name: string, value: Option<string>, children: map<string, seq<Extension>>)

  /** An Atom entry; `extensions` maps a namespace prefix and a local name to the elements found. */
  datatype AtomEntry = AtomEntry(
    title: string,
    authors: seq<Person>,
    categories: seq<Category>,
    content: Option<Content>,
    links: seq<Link>,
    updated: string,
    extensions: map<string, map<string, seq<Extension>>>)

  datatype Feed = Feed(entries: seq<AtomEntry>, links: seq<Link>)

  /** `ParseEntry`: the one error every response conversion reports. */
  datatype ParseEntry = ParseEntry

  /** `ParseCategory`: declared next to `ParseEntry`, never produced. */
  datatype ParseCategory = ParseCategory

  /** The feed parser: `None` where `Feed::from_str` fails. */
  type FeedParser = string -> Option<Feed>

  /** `Url::parse` followed by `query_pairs`: `None` where the URL does not parse. */
  type QueryParser = string -> Option<seq<(string, string)>>

  // ---------------------------------------------------------------------
  // The draft flag (the `app:control` element of section 13.1.1 of RFC 5023)
  // ---------------------------------------------------------------------

  predicate IsControl(e: Extension) {
    e.name == "app:control"
  }

  predicate IsDraftElement(e: Extension) {
    e.name == "app:draft"
  }

  /** The `app:control` elements an entry carries, in document order. */
  function Controls(entry: AtomEntry): seq<Extension> {
    if "app" in entry.extensions && "control" in entry.extensions["app"] then
      entry.extensions["app"]["control"]
    else []
  }

  /** A control element whose first `app:draft` child reads `yes`. */
  ghost predicate SaysDraft(control: Extension) {
    && "draft" in control.children
    && exists j :: IsFirst(control.children["draft"], IsDraftElement, j)
                && control.children["draft"][j].value == Some("yes")
  }

  /** The first `app:draft` child of a control element reads `yes`. */
  function DraftOf(control: Extension): (draft: bool)
    ensures draft <==> SaysDraft(control)
  {
    if "draft" in control.children then
      var drafts := control.children["draft"];
      match Find(drafts, IsDraftElement)
      case None => false
      case Some(d) =>
        assert SaysDraft(control) ==> d.value == Some("yes") by {
          if SaysDraft(control) {
            var j :| IsFirst(drafts, IsDraftElement, j) && drafts[j].value == Some("yes");
            FindIsFirst(drafts, IsDraftElement, j);
          }
        }
        d.value == Some("yes")
    else false
  }

  /**
   * `get_draft`: true exactly when the entry's first `app:control` element
   * has a first `app:draft` child whose text is `yes`; false for every
   * other shape, a missing element or text included.
   */
  function GetDraft(entry: AtomEntry): (draft: bool)
    ensures draft <==> exists i :: IsFirst(Controls(entry), IsControl, i) && SaysDraft(Controls(entry)[i])
  {
    var controls := Controls(entry);
    match Find(controls, IsControl)
    case None => false
    case Some(control) =>
      assert forall i :: IsFirst(controls, IsControl, i) ==> controls[i] == control by {
        forall i | IsFirst(controls, IsControl, i)
          ensures controls[i] == control
        {
          FindIsFirst(controls, IsControl, i);
        }
      }
      DraftOf(control)
  }

  // ---------------------------------------------------------------------
  // The entry id (the edit link of section 11.1 of RFC 5023)
  // ---------------------------------------------------------------------

  predicate IsEdit(link: Link) {
    link.rel == "edit"
  }

  /**
   * `get_id`: `None` exactly when no link is an edit link; otherwise the
   * text after the last `/` of the first edit link's href. Splitting always
   * has a last piece and parsing an id never fails, so no other case is
   * `None`.
   */
  function GetId(entry: AtomEntry): (id: Option<EntryId>)
    ensures id.None? <==> forall i :: 0 <= i < |entry.links| ==> !IsEdit(entry.links[i])
    ensures id.Some? ==> exists i :: IsFirst(entry.links, IsEdit, i)
                                  && id.value == EntryId(LastPiece(entry.links[i].href, '/'))
  {
    match Find(entry.links, IsEdit)
    case None => None
    case Some(link) =>
      match FromStr(LastPiece(link.href, '/'))
      case Success(id) => Some(id)
      case Failure(_) => None
  }

  // ---------------------------------------------------------------------
  // The entry of a member response
  // ---------------------------------------------------------------------

  function Term(c: Category): string {
    c.term
  }

  /** Whether the first entry has every part `first_entry` needs. */
  ghost predicate Complete(feed: Feed) {
    && |feed.entries| > 0
    && GetId(feed.entries[0]).Some?
    && |feed.entries[0].authors| > 0
    && feed.entries[0].content.Some?
    && feed.entries[0].content.value.value.Some?
  }

  /**
   * `first_entry`: fails exactly when the feed has no entry or its first
   * entry lacks an id, an author, a content or the content's text. On
   * success the entry is built from the first entry and its first author,
   * with the category terms in document order.
   */
  function FirstEntry(feed: Feed): (r: Result<Entries.Entry, ParseEntry>)
    ensures r.Success? <==> Complete(feed)
    ensures r.Success? ==>
      var e := feed.entries[0];
      && r.value.id == GetId(e).value
      && r.value.title == e.title
      && r.value.author_name == e.authors[0].name
      && |r.value.categories| == |e.categories|
      && (forall i :: 0 <= i < |e.categories| ==> r.value.categories[i] == e.categories[i].term)
      && r.value.content == e.content.value.value.value
      && r.value.updated == e.updated
      && r.value.draft == GetDraft(e)
  {
    if |feed.entries| == 0 then Failure(ParseEntry)
    else
      var e := feed.entries[0];
      var id :- GetId(e).OkOr(ParseEntry);
      var author :- if |e.authors| == 0 then Failure(ParseEntry) else Success(e.authors[0]);
      var content :- e.content.OkOr(ParseEntry);
      var value :- content.value.OkOr(ParseEntry);
      Success(Entries.New(id, e.title, author.name, Map(e.categories, Term), value, e.updated, GetDraft(e)))
  }

  /** Only the first entry matters: entries after it and the feed's links change nothing. */
  lemma FirstEntryOfFirst(e: AtomEntry, rest: seq<AtomEntry>, links: seq<Link>)
    ensures FirstEntry(Feed([e] + rest, links)) == FirstEntry(Feed([e], []))
  {
    assert ([e] + rest)[0] == e;
  }

  /** The XML declaration a member response starts with. */
  const XmlDeclaration := "<?xml version=\"1.0\" encoding=\"utf-8\"?>"

  /**
   * The text `from_entry_xml` hands to the feed parser: the body inside
   * `<feed>` and `</feed>`, with the declaration removed once when the body
   * starts with it and the body unchanged otherwise.
   */
  function WrapEntryXml(body: string): (xml: string)
    ensures XmlDeclaration <= body ==> xml == "<feed>" + body[|XmlDeclaration|..] + "</feed>"
    ensures !(XmlDeclaration <= body) ==> xml == "<feed>" + body + "</feed>"
  {
    "<feed>" + StripPrefix(body, XmlDeclaration).UnwrapOr(body) + "</feed>"
  }

  /** The declaration is removed once: a second copy stays in the wrapped text. */
  lemma WrapStripsOnce(rest: string)
    ensures WrapEntryXml(XmlDeclaration + rest) == "<feed>" + rest + "</feed>"
    ensures WrapEntryXml(XmlDeclaration + XmlDeclaration + rest) == "<feed>" + XmlDeclaration + rest + "</feed>"
  {
    StripPrefixOfConcat(XmlDeclaration, rest);
    StripPrefixOfConcat(XmlDeclaration, XmlDeclaration + rest);
    assert XmlDeclaration + XmlDeclaration + rest == XmlDeclaration + (XmlDeclaration + rest);
  }

  /** `from_entry_xml`: the wrapped body parsed as a feed; any parse error is `ParseEntry`. */
  function FromEntryXml(body: string, parse: FeedParser): (r: Result<Feed, ParseEntry>)
    ensures r.Success? <==> parse(WrapEntryXml(body)).Some?
    ensures r.Success? ==> r.value == parse(WrapEntryXml(body)).value
  {
    parse(WrapEntryXml(body)).OkOr(ParseEntry)
  }

  /** `from_feed_xml`: the body parsed as a feed as it is. */
  function FromFeedXml(body: string, parse: FeedParser): (r: Result<Feed, ParseEntry>)
    ensures r.Success? <==> parse(body).Some?
    ensures r.Success? ==> r.value == parse(body).value
  {
    parse(body).OkOr(ParseEntry)
  }

  // ---------------------------------------------------------------------
  // A page of a collection (the `next` link of section 3 of RFC 5005)
  // ---------------------------------------------------------------------

  predicate IsNext(link: Link) {
    link.rel == "next"
  }

  predicate IsPage(pair: (string, string)) {
    pair.0 == "page"
  }

  /** The query pairs of the first `next` link, when there is one and its href parses. */
  function NextQuery(feed: Feed, query: QueryParser): Option<seq<(string, string)>> {
    match Find(feed.links, IsNext)
    case None => None
    case Some(link) => query(link.href)
  }

  /**
   * The cursor of `partial_list`: the value of the first `page` pair of the
   * first `next` link. It is absent when there is no such link, when the
   * href does not parse, and when there is no `page` pair.
   */
  function NextPage(feed: Feed, query: QueryParser): (cursor: Option<string>)
    ensures cursor.None? <==>
      || (forall i :: 0 <= i < |feed.links| ==> !IsNext(feed.links[i]))
      || NextQuery(feed, query).None?
      || (forall j :: 0 <= j < |NextQuery(feed, query).value| ==> !IsPage(NextQuery(feed, query).value[j]))
    ensures cursor.Some? ==> exists j :: IsFirst(NextQuery(feed, query).value, IsPage, j)
                                      && cursor.value == NextQuery(feed, query).value[j].1
    ensures NextQuery(feed, query).Some? ==>
      exists i :: IsFirst(feed.links, IsNext, i) && NextQuery(feed, query) == query(feed.links[i].href)
  {
    match NextQuery(feed, query)
    case None => None
    case Some(pairs) =>
      match Find(pairs, IsPage)
      case None => None
      case Some(pair) => Some(pair.1)
  }

  /**
   * `map(get_id).collect::<Result<Vec<_>, _>>()`: the ids of all entries,
   * in order and one per entry, or `ParseEntry` when any entry has none.
   */
  function CollectIds(entries: seq<AtomEntry>): (r: Result<seq<EntryId>, ParseEntry>)
    ensures r.Success? <==> forall i :: 0 <= i < |entries| ==> GetId(entries[i]).Some?
    ensures r.Success? ==> |r.value| == |entries|
    ensures r.Success? ==> forall i :: 0 <= i < |entries| ==> r.value[i] == GetId(entries[i]).value
  {
    CollectAll(entries, GetId).OkOr(ParseEntry)
  }

  /** `partial_list`: the cursor and the ids, failing only when an entry has no id. */
  function PartialList(feed: Feed, query: QueryParser): (r: Result<Clients.PartialList, ParseEntry>)
    ensures r.Success? <==> forall i :: 0 <= i < |feed.entries| ==> GetId(feed.entries[i]).Some?
    ensures r.Success? ==> r.value.0 == NextPage(feed, query)
    ensures r.Success? ==> |r.value.1| == |feed.entries|
    ensures r.Success? ==> forall i :: 0 <= i < |feed.entries| ==> r.value.1[i] == GetId(feed.entries[i]).value
  {
    var cursor := NextPage(feed, query);
    var ids :- CollectIds(feed.entries);
    Success((cursor, ids))
  }

  // ---------------------------------------------------------------------
  // Response wrappers. `From<String>` is the constructor, `From<_> for
  // String` the body (the empty text for `EmptyResponse`).
  // ---------------------------------------------------------------------

  datatype MemberResponse = MemberResponse(body: string)

  datatype CollectionResponse = CollectionResponse(body: string)

  datatype CategoryDocumentResponse = CategoryDocumentResponse(body: string)

  datatype EmptyResponse = EmptyResponse

  /** `From<EmptyResponse> for String`. */
  function EmptyResponseText(r: EmptyResponse): string {
    ""
  }

  /** `TryFrom<MemberResponse> for Entry`: the body read as an entry document. */
  function EntryOfResponse(response: MemberResponse, parse: FeedParser): (r: Result<Entries.Entry, ParseEntry>)
    ensures r.Success? <==> FromEntryXml(response.body, parse).Success? && Complete(FromEntryXml(response.body, parse).value)
    ensures r.Success? ==> r == FirstEntry(parse(WrapEntryXml(response.body)).value)
  {
    var feed :- FromEntryXml(response.body, parse);
    FirstEntry(feed)
  }

  /** `TryFrom<CollectionResponse> for PartialList`: the body read as a feed page. */
  function PartialListOfResponse(response: CollectionResponse, parse: FeedParser, query: QueryParser)
    : (r: Result<Clients.PartialList, ParseEntry>)
    ensures r.Success? <==>
      && parse(response.body).Some?
      && forall i :: 0 <= i < |parse(response.body).value.entries| ==> GetId(parse(response.body).value.entries[i]).Some?
    ensures r.Success? ==> r == PartialList(parse(response.body).value, query)
  {
    var feed :- FromFeedXml(response.body, parse);
    PartialList(feed, query)
  }

  // ---------------------------------------------------------------------
  // The unit test of response.rs: the entry the test's member response
  // parses to, and the `Entry` `first_entry` makes of it.
  // ---------------------------------------------------------------------

  const ExampleEditBase := "https://blog.hatena.ne.jp/{はてなID}/{ブログID}/atom/edit"
  const ExampleContent := "\n    ** 記事本文\n    - リスト1\n    - リスト2\n    内容\n  "

  const ExampleFormatted := "<div class=\"section\">\n    <h4>記事本文</h4>\n\n    <ul>\n    <li>リスト1</li>\n    <li>リスト2</li>\n    </ul><p>内容</p>\n    </div>"

  /** The parsed entry, as the test states the library's result. */
  function ExampleEntry(): AtomEntry {
    AtomEntry(
      "記事タイトル",
      [Person("{はてなID}")],
      [Category("Scala"), Category("Perl")],
      Some(Content(Some(ExampleContent))),
      [Link("edit", ExampleEditBase + "/" + "2500000000"),
       Link("alternate", "http://{ブログID}/entry/2013/09/02/112823")],
      "2013-09-02T11:28:23+09:00",
      map[
        "app" := map[
          "control" := [Extension("app:control", Some(""), map[
            "draft" := [Extension("app:draft", Some("no"), map[])]])],
          "edited" := [Extension("app:edited", Some("2013-09-02T11:28:23+09:00"), map[])]],
        "hatena" := map[
          "formatted-content" := [Extension("hatena:formatted-content", Some(ExampleFormatted), map[])]]])
  }

  /** The test entry's id is its edit link's last segment. */
  lemma ExampleId()
    ensures GetId(ExampleEntry()) == Some(EntryId("2500000000"))
  {
    var e := ExampleEntry();
    LastPieceAfterSeparator(ExampleEditBase, '/', "2500000000");
    assert IsFirst(e.links, IsEdit, 0);
    FindIsFirst(e.links, IsEdit, 0);
  }

  /** The test entry's draft element says `no`. */
  lemma ExampleDraft()
    ensures !GetDraft(ExampleEntry())
  {
    var e := ExampleEntry();
    var control := Controls(e)[0];
    assert IsFirst(Controls(e), IsControl, 0);
    assert IsFirst(control.children["draft"], IsDraftElement, 0);
    FindIsFirst(control.children["draft"], IsDraftElement, 0);
  }

  /** `from_entry_xml_test`: the entry built from the parsed member response. */
  lemma FirstEntryExample()
    ensures FirstEntry(Feed([ExampleEntry()], []))
         == Success(Entries.New(EntryId("2500000000"), "記事タイトル", "{はてなID}", ["Scala", "Perl"],
                                ExampleContent, "2013-09-02T11:28:23+09:00", false))
  {
    ExampleId();
    ExampleDraft();
    assert Map(ExampleEntry().categories, Term) == ["Scala", "Perl"];
  }
}
