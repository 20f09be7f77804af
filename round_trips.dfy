/**
 * How the pieces meet: the document the client sends is the shape the entry
 * reader unwraps, and the id the reader takes from an edit link is the id of
 * the member URI the client builds.
 */
module RoundTrips {
  import opened Wrappers
  import opened EntryIds
  import opened Iterators
  import Clients
  import EntryParameters
  import Responses

  /** The declaration the request renderer writes is the one the response reader strips. */
  lemma DeclarationsAgree()
    ensures Responses.XmlDeclaration == EntryParameters.Declaration
  {
  }

  /**
   * A rendered entry document, wrapped for the feed parser, loses exactly
   * its declaration: the `<entry>` element, from the line break before it,
   * sits inside `<feed>` and `</feed>`.
   */
  lemma WrapRenderedEntry(p: EntryParameters.EntryParams, escape: string -> string)
    ensures Responses.WrapEntryXml(EntryParameters.IntoXml(p, escape))
         == "<feed>" + ("\n" + EntryParameters.Then(EntryParameters.EntryLine,
                               EntryParameters.Then(EntryParameters.NamespaceLine, EntryParameters.Body(p, escape))))
          + "</feed>"
  {
    var rest := "\n" + EntryParameters.Then(EntryParameters.EntryLine,
                       EntryParameters.Then(EntryParameters.NamespaceLine, EntryParameters.Body(p, escape)));
    assert EntryParameters.IntoXml(p, escape) == Responses.XmlDeclaration + rest;
    Responses.WrapStripsOnce(rest);
  }

  /**
   * An entry whose first edit link is the member URI of `id` reads back as
   * `id`, for every id without a `/`.
   */
  lemma GetIdOfMemberUri(c: Clients.Client, id: EntryId, entry: Responses.AtomEntry, i: nat)
    requires '/' !in id.raw
    requires IsFirst(entry.links, Responses.IsEdit, i)
    requires entry.links[i].href == Clients.MemberUri(c, id)
    ensures Responses.GetId(entry) == Some(id)
  {
    FindIsFirst(entry.links, Responses.IsEdit, i);
    Clients.MemberUriLastSegment(c, id);
  }
}
