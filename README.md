# hatena-blog client core, modelled in Dafny

This project models the core of `hatena-blog`, a Rust client for the Hatena
Blog AtomPub API. It covers:

- the entry value (`Entry`) and its JSON form;
- the entry identifier (`EntryId`), its parsing and its display;
- the parameters of a new or updated entry (`EntryParams`) and the Atom
  entry document rendered from them;
- the client's URIs: the entry collection, with or without a page cursor,
  the member URI of one entry, and the category document;
- the client's error type;
- the three response readers. The first turns a member response into an
  `Entry`. The second turns a collection response into a page of ids and
  the cursor of the next page. The third scans a category document for its
  category terms.

The modules follow the source files:

| module | file |
|---|---|
| `EntryIds` (entry_id.dfy) | src/entry_id.rs |
| `Entries` (entry.dfy) | src/entry.rs |
| `EntryParameters` (entry_params.dfy) | src/client/entry_params.rs |
| `Clients` (client.dfy) | src/client.rs, `Config::new` of src/client/config.rs |
| `Responses` (responses.dfy) | src/client/response.rs: the feed readers and the response wrappers |
| `CategoryDocuments` (category_documents.dfy) | src/client/response.rs: the category document scanner |
| `RoundTrips` (round_trips.dfy) | the places where the request side and the response side meet |

`Wrappers`, `Iterators`, `Text` and `Json` hold the parts of the Rust
standard library and serde_json that the core relies on. These are `Option`,
`Result`, `Iterator::find`, `split('/').last()`, `strip_prefix` and compact
JSON text.

The libraries the core calls into are parameters of the model, not models of
their own:

- the Atom feed parser: `FeedParser`, a function from text to an optional
  parsed feed;
- the URL query parser: `QueryParser`;
- quick_xml's namespaced tokenizer: `tokenize`, a function from text to a
  sequence of events;
- Handlebars' HTML escaping and serde_json's string escaping: `escape`.

The category scanner keeps the source's form. It is a `Reader` class with a
cursor over the event sequence, plus two `while` loops proved equal to the
pure functions `ScanCategories` and `ScanDocument`. The rest of the core is
expression code and is modelled as functions.

Two facts about the code are easy to get wrong, and the model follows the
code:

- `EntryId::from_str` accepts every string, including the empty one and
  strings containing `/`, and never fails: nothing is validated.
- `get_id` is `None` only when the entry has no `edit` link. `split('/')`
  always has a last piece, and parsing an id never fails.

One consequence of the scanner's match arms is easy to miss. An
`<app:categories>` start tag nested inside the first one falls into the
ignore-everything arm of the inner loop. So "too many <app:categories>" is
reported only for a second element that comes after the first one is closed.
`NestedCategoriesExample` shows such a document.

The tokenizer's events may end with an explicit end-of-input event or not:
the reader yields one past the end anyway, and the lemmas take the end of
input to be the first such event or the end of the sequence.

## Model

| member | source | states |
|---|---|---|
| `EntryIds.ToString` | src/entry_id.rs:11-15 | displaying an id gives back the exact string it wraps |
| `EntryIds.FromStr` | src/entry_id.rs:17-23 | parsing never fails, and the parsed id displays as the input |
| `EntryIds.FromStrInjective` | src/entry_id.rs:17-23 | two strings parse to the same id exactly when they are equal |
| `EntryIds.FromStrExample` | src/entry_id.rs:31-41 | the unit test: "2500000000" parses to the id of that string and displays as it |
| `Entries.New` | src/entry.rs:16-35 | each constructor argument lands in the field of the same name, despite the different argument order |
| `Entries.ToJsonValue` | src/entry.rs:5-14 | the JSON object has seven members, keyed in field-declaration order: strings for the text fields, an array of strings for the categories, a boolean for draft, the inner string for the id |
| `Entries.JsonKeysSorted` | src/entry.rs:6-14 | the declaration order of the keys is also their lexicographic order, so a key-sorting JSON map writes the same text |
| `Entries.ToJsonText` | src/entry.rs:37-39 | `to_json` is `{`, the seven `"key":value` members joined by commas, then `}`, with draft written as a bare `true`/`false` and the categories as a bracketed list in order |
| `Entries.NewAndToJsonExample` | src/entry.rs:46-91 | the unit tests: the dummy entry's fields, and its JSON object member by member as in the expected text |
| `EntryParameters.New` | src/client/entry_params.rs:16-32 | each constructor argument lands in the field of the same name |
| `EntryParameters.IntoXml` | src/client/entry_params.rs:34-53 | the rendered document starts with the XML declaration |
| `EntryParameters.DraftElement` | src/client/entry_params.rs:47 | the draft element reads `yes` when draft is set and `no` otherwise, and that text reads back as the flag |
| `EntryParameters.NoCategories` | src/client/entry_params.rs:45 | no categories render as nothing |
| `EntryParameters.OneCategory` | src/client/entry_params.rs:45 | one category renders as `<category term="…" />` around its escaped term |
| `EntryParameters.CategoriesXmlAppend` | src/client/entry_params.rs:45 | the category elements of a concatenated list are the elements of each part, one after the other |
| `EntryParameters.Escaped` | src/client/entry_params.rs:38-50 | the values substituted into the template keep the draft flag and one category per category |
| `EntryParameters.ReadIntoXml` | src/client/entry_params.rs:34-53 | reading the rendered document back gives every parameter in its escaped form, with the categories in order and the draft flag, for any escaper that keeps `<` out of text values and `"` out of terms |
| `EntryParameters.SameDocument` | src/client/entry_params.rs:34-53 | with an escaper that removes markup, two parameter sets that render the same document substitute the same escaped texts and the same flag |
| `EntryParameters.IntoXmlInjective` | src/client/entry_params.rs:34-53 | with an injective escaper that escapes markup, two parameter sets render the same document exactly when they are equal |
| `EntryParameters.IntoXmlExample` | src/client/entry_params.rs:71-89 | the unit test: with an escaper that leaves the test's values alone, each field line of the expected document |
| `Clients.NewConfig` | src/client/config.rs:19-25 | the hatena id, blog id and API key arguments land in the matching fields |
| `Clients.NewClient` | src/client.rs:40-45 | the client keeps the configuration it was given |
| `Clients.MessagesDistinct` | src/client.rs:18-36 | the eight errors have eight distinct messages |
| `Clients.CollectionUri` | src/client.rs:100-109 | the collection URI is the blog root followed by `/atom/entry`, plus `?page=` and the cursor verbatim when a cursor is given |
| `Clients.MemberUri` | src/client.rs:111-117 | the member URI is the collection URI, `/` and the id |
| `Clients.CategoryDocumentUri` | src/client.rs:92-98 | the category document URI is the blog root followed by `/atom/category` |
| `Clients.MemberUriInjective` | src/client.rs:111-117 | different ids have different member URIs |
| `Clients.CollectionUriInjective` | src/client.rs:100-109 | different cursors have different collection URIs, and the URI without a cursor differs from every URI with one |
| `Clients.MemberUriLastSegment` | src/client.rs:111-117 | an id without `/` is the last `/`-separated segment of its member URI |
| `Clients.CategoryDocumentIsNotEntry` | src/client.rs:92-117 | the category document URI is neither a collection URI nor a member URI |
| `Clients.ClientExamples` | src/client.rs:144-170 | the unit tests: the client built from the test configuration, its collection URI and the member URI of `ENTRY_ID` |
| `Responses.DraftOf` | src/client/response.rs:36-38 | a control element says draft exactly when its first `app:draft` child has the text `yes` |
| `Responses.GetDraft` | src/client/response.rs:30-40 | draft exactly when the first `app:control` element says draft; false for a missing element or text and for any other text |
| `Responses.GetId` | src/client/response.rs:42-50 | `None` exactly when no link is an `edit` link; otherwise the id is the text after the last `/` of the first edit link's href |
| `Responses.FirstEntry` | src/client/response.rs:52-72 | fails exactly when the feed has no entry, or its first entry lacks an id, an author, a content or the content's text; otherwise every field comes from the first entry and its first author, with the category terms in order |
| `Responses.FirstEntryOfFirst` | src/client/response.rs:52-53 | the entries after the first and the feed's links do not affect the result |
| `Responses.WrapEntryXml` | src/client/response.rs:74-79 | the body goes inside `<feed>…</feed>`, without its XML declaration when it starts with one and unchanged otherwise |
| `Responses.WrapStripsOnce` | src/client/response.rs:77-78 | only one leading declaration is removed; a second one stays |
| `Responses.FromEntryXml` | src/client/response.rs:74-81 | succeeds exactly when the wrapped body parses, with the parsed feed; every parse error becomes `ParseEntry` |
| `Responses.FromFeedXml` | src/client/response.rs:83-85 | succeeds exactly when the body parses as it is, with the parsed feed |
| `Responses.NextPage` | src/client/response.rs:173-184 | the cursor is the value of the first `page` pair of the first `next` link's query; it is absent exactly when there is no next link, its href does not parse, or it has no `page` pair |
| `Responses.CollectIds` | src/client/response.rs:185-188 | succeeds exactly when every entry has an id, and then gives one id per entry, in order |
| `Responses.PartialList` | src/client/response.rs:173-190 | fails only when an entry has no id; otherwise the next-page cursor and the ids of all entries in order |
| `Responses.EntryOfResponse` | src/client/response.rs:215-222 | a member response yields an entry exactly when its wrapped body parses to a feed with a complete first entry |
| `Responses.PartialListOfResponse` | src/client/response.rs:299-306 | a collection response yields a page exactly when its body parses and every entry has an id |
| `Responses.ExampleId` | src/client/response.rs:373-512 | for the parsed test entry: the id is `2500000000`, the last segment of its edit link |
| `Responses.ExampleDraft` | src/client/response.rs:373-512 | for the parsed test entry: the draft flag is false, its control element saying `no` |
| `Responses.FirstEntryExample` | src/client/response.rs:354-370 | the unit test: the `Entry` built from the parsed member response |
| `CategoryDocuments.Message` | src/client/response.rs:113-170 | the scanners' own four errors have messages; the library's errors keep the library's |
| `CategoryDocuments.Reader.constructor` | src/client/response.rs:124-125 | a new reader is at the start of the document's events |
| `CategoryDocuments.Reader.ReadNamespacedEvent` | src/client/response.rs:95 | each read yields the event under the cursor and advances it; at the end it yields the end of input, again and again |
| `CategoryDocuments.ScanCategories` | src/client/response.rs:87-121 | a successful scan ends further on than where it started, within the events |
| `CategoryDocuments.ScanEndsAtClose` | src/client/response.rs:108-112 | a successful scan ends just after a `</app:categories>` |
| `CategoryDocuments.CategoriesFromReader` | src/client/response.rs:87-121 | the loop returns what `ScanCategories` computes from the reader's position, and on success leaves the reader just after `</app:categories>` |
| `CategoryDocuments.FromCategoryDocumentXml` | src/client/response.rs:123-171 | the loop returns what `ScanDocument` computes for the whole tokenized document |
| `CategoryDocuments.CategoriesOfResponse` | src/client/response.rs:268-274 | a category document response yields the scanned terms, and every scan error becomes `ParseEntry` |
| `CategoryDocuments.TermsOfWellFormed` | src/client/response.rs:100-105 | a category element yields terms exactly when every attribute reads and every `term` value unescapes and decodes; the terms are its `term` values in order |
| `CategoryDocuments.ScanBody` | src/client/response.rs:93-118 | in a well-formed category list, the scan returns the terms of all category elements in document order, with the position after the closing tag |
| `CategoryDocuments.ScanUnclosed` | src/client/response.rs:113 | a category list that is never closed before the end of input (the end of the events or an explicit end-of-input event) ends in the "eof" error |
| `CategoryDocuments.ScanSucceeded` | src/client/response.rs:93-118 | conversely, every event a successful scan passed over before its closing tag is inside the list: no end of input, no tokenizer error, every category element well formed |
| `CategoryDocuments.ScanBadCategory` | src/client/response.rs:100-105 | the first malformed category element makes the scan fail with that element's error |
| `CategoryDocuments.SkipOutside` | src/client/response.rs:131-166 | events outside `<app:categories>` do not change the document scan |
| `CategoryDocuments.NoCategoriesElement` | src/client/response.rs:163-170 | a document without `<app:categories>` before the end of input gives "no <app:categories>" |
| `CategoryDocuments.EmptyCategoriesElement` | src/client/response.rs:149-157 | a self-closing `<app:categories … />` before any other gives "not supported" |
| `CategoryDocuments.LastCategoriesElement` | src/client/response.rs:123-171 | from an opening `<app:categories>` with only events outside any element after its closing tag and up to the end of input, the document scan returns exactly the terms inside it |
| `CategoryDocuments.OneCategoriesElement` | src/client/response.rs:123-171 | a document with one well-formed top-level `<app:categories>` element gives its terms in document order |
| `CategoryDocuments.OneElementUnique` | src/client/response.rs:123-171 | a document has at most one such element: its start, its closing tag and the end of input are determined |
| `CategoryDocuments.FindInputEnd` | src/client/response.rs:131-166 | after the element, a successful scan met only outside events before the end of input |
| `CategoryDocuments.FindElement` | src/client/response.rs:123-171 | a successful scan from a point with only outside events before it finds a one-element document |
| `CategoryDocuments.CategoryDocumentShape` | src/client/response.rs:123-171 | the document scan succeeds exactly when the document has one top-level `<app:categories>` element, well formed, with no other start or self-closing element and no tokenizer error outside it; it then returns that element's terms |
| `CategoryDocuments.SecondCategoriesElement` | src/client/response.rs:133-161 | an `<app:categories>` of either form after a closed first one gives "too many <app:categories>" |
| `CategoryDocuments.UnclosedCategoriesElement` | src/client/response.rs:113 | an `<app:categories>` that is never closed before the end of input gives "eof" |
| `CategoryDocuments.CategoryDocumentExample` | src/client/response.rs:516-536 | the unit test: the test document's events scan to `["Perl", "Scala"]` |
| `CategoryDocuments.NestedCategoriesExample` | src/client/response.rs:93-118 | a start tag nested in the first element is ignored: its closing tag ends the body, the outer one is passed over, and the document scans to `["A"]` |
| `RoundTrips.DeclarationsAgree` | src/client/response.rs:77 | the declaration the renderer writes is the one the entry reader strips |
| `RoundTrips.WrapRenderedEntry` | src/client/response.rs:74-79 | a rendered entry document, wrapped for the feed parser, loses exactly its declaration |
| `RoundTrips.GetIdOfMemberUri` | src/client/response.rs:42-50 | an entry whose first edit link is the member URI of an id without `/` reads back as that id |

## Left out

- HTTP: `request` (src/client.rs:119-137), with its status-code mapping, is not modelled. The response-to-`Response` conversion it relies on is not part of this model. The six request methods (src/client.rs:47-90: `create_entry`, `delete_entry`, `get_entry`, `list_entries_in_page`, `list_categories`, `update_entry`) are left out with it. Each pairs one of the modelled URIs with an HTTP method; only `create_entry` and `update_entry` send a body, the rendered entry document.
- Parsing XML and URLs belongs to atom_syndication, quick_xml and reqwest's `Url`. Each is a function parameter (`FeedParser`, `tokenize`, `QueryParser`), so the model holds for every parser.
- Escaping (Handlebars' HTML escaping in the request template, serde_json's string escaping) is a function parameter `escape`. Lemmas that need a property of the escaper state it as a requirement.
- Timestamps: `fixed_date_time` and `to_rfc3339` are not modelled. An entry's `updated` is an opaque string.
- `Config::new_from_env` is left out: it reads the process environment. So are the command-line tool, `main`, the examples and the integration tests.
- `Responses.Extension`: element attributes are not modelled, since no core function reads them.
- `Clients.ClientError`: the `reqwest::Error` inside `RequestError` is not kept.
- The `Display` and `From` impls of the response wrappers are the wrapper datatypes' constructors and `body` fields. `EmptyResponseText` is the empty text of `From<EmptyResponse> for String`.
- `ParseCategory` and `EntryIdParseError` are declared by the source and never produced; the model declares them likewise.
- `CategoryDocuments.CategoriesFromReader`: the reused byte buffers are not modelled, and neither is the element's attribute argument, which the source ignores.
- `CategoryDocuments.Message`: the library errors' texts, which `anyhow!` wraps, belong to quick_xml and std.
- `EntryParameters.IntoXml`: the `expect("render_template")` panic is not modelled. Rendering this fixed template with string, list and boolean values does not fail.
- `EntryParameters.IntoXmlExample`: it states the unit test's expected document line by line, not as one string.
- `Entries.NewAndToJsonExample`: it states the `to_json` unit test on the JSON value, not on its text. The text follows from `Entries.ToJsonText` for any escaper that leaves these plain values alone.
- `Entries.ToJsonText`: it holds for escapers that leave the seven key names unchanged, as serde_json's does.
