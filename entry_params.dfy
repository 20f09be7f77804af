/**
 * `EntryParams`: the fields of an entry to create or update, and the AtomPub
 * entry document (`into_xml`) that is sent as the request body.
 *
 * The Handlebars template is fixed; `{{field}}` substitutes the field after
 * HTML-escaping it. The escaper belongs to Handlebars and is a parameter
 * here. The template is written line by line, each line split at its
 * substitution.
 */
module EntryParameters {
  import opened Wrappers
  import opened Text
  import Iterators

  datatype EntryParams = EntryParams(
    author_name: string,
    title: string,
    content: string,
    updated: string,
    categories: seq<string>,
    draft: bool)

  /** `EntryParams::new`: each argument lands in the field of the same name. */
  function New(author_name: string, title: string, content: string, updated: string,
               categories: seq<string>, draft: bool): (p: EntryParams)
    ensures p.author_name == author_name && p.title == title && p.content == content
    ensures p.updated == updated && p.categories == categories && p.draft == draft
  {
    EntryParams(author_name, title, content, updated, categories, draft)
  }

  /** The template, line by line: the constant lines and the text around each substitution. */
  const Declaration := "<?xml version=\"1.0\" encoding=\"utf-8\"?>"
  const EntryLine := "<entry xmlns=\"http://www.w3.org/2005/Atom\""
  const NamespaceLine := "       xmlns:app=\"http://www.w3.org/2007/app\">"
  const TitleOpen := "  <title>"
  const TitleClose := "</title>"
  const AuthorOpen := "  <author><name>"
  const AuthorClose := "</name></author>"
  const ContentOpen := "  <content type=\"text/plain\">"
  const ContentClose := "</content>"
  const UpdatedOpen := "  <updated>"
  const UpdatedClose := "</updated>"
  const Indent := "  "
  const ControlLine := "  <app:control>"
  const DraftOpen := "    <app:draft>"
  const DraftClose := "</app:draft>"
  const ControlEnd := "  </app:control>"
  const EntryEnd := "</entry>"
  const CategoryOpen := "<category term=\""
  const CategoryClose := "\" />"

  /** `{{#if draft}}yes{{else}}no{{/if}}`. */
  function DraftText(draft: bool): string {
    if draft then "yes" else "no"
  }

  /** `<category term="{{this}}" />` for one category. */
  function CategoryXml(category: string, escape: string -> string): string {
    CategoryOpen + escape(category) + CategoryClose
  }

  /** `{{#each categories}}...{{/each}}`: one element per category, in order, nothing between them. */
  function CategoriesXml(categories: seq<string>, escape: string -> string): string {
    if |categories| == 0 then ""
    else CategoryXml(categories[0], escape) + CategoriesXml(categories[1..], escape)
  }

  /** The lines that hold a substitution. */
  function TitleLine(p: EntryParams, escape: string -> string): string {
    TitleOpen + escape(p.title) + TitleClose
  }

  function AuthorLine(p: EntryParams, escape: string -> string): string {
    AuthorOpen + escape(p.author_name) + AuthorClose
  }

  function ContentLine(p: EntryParams, escape: string -> string): string {
    ContentOpen + escape(p.content) + ContentClose
  }

  function UpdatedLine(p: EntryParams, escape: string -> string): string {
    UpdatedOpen + escape(p.updated) + UpdatedClose
  }

  function CategoriesLine(p: EntryParams, escape: string -> string): string {
    Indent + CategoriesXml(p.categories, escape)
  }

  function DraftLine(p: EntryParams): string {
    DraftOpen + DraftText(p.draft) + DraftClose
  }

  /** `line` followed by a line break and `rest`. */
  function Then(line: string, rest: string): string {
    line + ("\n" + rest)
  }

  /** The `<entry>` element from its title line on. */
  function Body(p: EntryParams, escape: string -> string): string {
    Then(TitleLine(p, escape), Then(AuthorLine(p, escape), Then(ContentLine(p, escape),
    Then(UpdatedLine(p, escape), Then(CategoriesLine(p, escape), Then(ControlLine,
    Then(DraftLine(p), Then(ControlEnd, EntryEnd))))))))
  }

  /**
   * `EntryParams::into_xml`: the template's twelve lines with the texts
   * substituted. The document always starts with the XML declaration, the
   * prefix the entry response reader strips.
   */
  function IntoXml(p: EntryParams, escape: string -> string): (xml: string)
    ensures Declaration <= xml
  {
    Then(Declaration, Then(EntryLine, Then(NamespaceLine, Body(p, escape))))
  }

  /** The draft element holds `yes` for a draft and `no` otherwise. */
  lemma DraftElement(draft: bool)
    ensures draft ==> DraftText(draft) == "yes"
    ensures !draft ==> DraftText(draft) == "no"
    ensures ReadDraft(DraftText(draft)) == Some(draft)
  {
  }

  /** No categories leave the category line as its indent alone. */
  lemma NoCategories(escape: string -> string)
    ensures CategoriesXml([], escape) == ""
  {
  }

  /** The elements of two lists of categories follow one another. */
  lemma {:induction false} CategoriesXmlAppend(xs: seq<string>, ys: seq<string>, escape: string -> string)
    ensures CategoriesXml(xs + ys, escape) == CategoriesXml(xs, escape) + CategoriesXml(ys, escape)
    decreases |xs|
  {
    if |xs| == 0 {
      assert xs + ys == ys;
    } else {
      assert (xs + ys)[1..] == xs[1..] + ys;
      CategoriesXmlAppend(xs[1..], ys, escape);
    }
  }

  /** One category gives exactly one element. */
  lemma OneCategory(category: string, escape: string -> string)
    ensures CategoriesXml([category], escape) == CategoryOpen + escape(category) + CategoryClose
  {
    assert [category][1..] == [];
  }

  // ---------------------------------------------------------------------
  // Reading a rendered document back. The reader is the inverse of the
  // template: it recovers the substituted (escaped) texts and the flag.
  // ---------------------------------------------------------------------

  /** `draft` back from its element text. */
  function ReadDraft(text: string): Option<bool> {
    if text == "yes" then Some(true)
    else if text == "no" then Some(false)
    else None
  }

  /** A substituted text runs up to the next `<`, where the following template piece starts. */
  function ReadText(s: string, next: string): Option<(string, string)> {
    var (text, rest) := SplitAt(s, '<');
    var after :- StripPrefix(rest, next);
    Some((text, after))
  }

  /** The category elements at the start of `s`, and the text after them. */
  function ReadCategories(s: string): (r: (seq<string>, string))
    ensures |r.1| <= |s|
    decreases |s|
  {
    match StripPrefix(s, CategoryOpen)
    case None => ([], s)
    case Some(t) =>
      var (term, rest) := SplitAt(t, '"');
      match StripPrefix(rest, CategoryClose)
      case None => ([], s)
      case Some(u) =>
        var (terms, after) := ReadCategories(u);
        ([term] + terms, after)
  }

  /** A constant line and the line break after it. */
  function ExpectLine(s: string, line: string): Option<string> {
    var rest :- StripPrefix(s, line);
    StripPrefix(rest, "\n")
  }

  /** A line holding one substituted text between `open` and `close`, and the line break after it. */
  function ReadFieldLine(s: string, open: string, close: string): Option<(string, string)> {
    var r0 :- StripPrefix(s, open);
    var (text, r1) :- ReadText(r0, close);
    var r2 :- StripPrefix(r1, "\n");
    Some((text, r2))
  }

  /** The declaration and the two lines of the `<entry>` start tag. */
  function ReadPreamble(xml: string): Option<string> {
    var s1 :- ExpectLine(xml, Declaration);
    var s2 :- ExpectLine(s1, EntryLine);
    ExpectLine(s2, NamespaceLine)
  }

  /** The title, author name, content and updated lines, in that order. */
  function ReadTexts(s: string): Option<(string, string, string, string, string)> {
    var (title, s1) :- ReadFieldLine(s, TitleOpen, TitleClose);
    var (author_name, s2) :- ReadFieldLine(s1, AuthorOpen, AuthorClose);
    var (content, s3) :- ReadFieldLine(s2, ContentOpen, ContentClose);
    var (updated, s4) :- ReadFieldLine(s3, UpdatedOpen, UpdatedClose);
    Some((title, author_name, content, updated, s4))
  }

  /** The categories line, the control block and the end tag, which must end the document. */
  function ReadClosing(s: string): Option<(seq<string>, bool)> {
    var t0 :- StripPrefix(s, Indent);
    var (categories, t1) := ReadCategories(t0);
    var s1 :- StripPrefix(t1, "\n");
    var s2 :- ExpectLine(s1, ControlLine);
    var (flag, s3) :- ReadFieldLine(s2, DraftOpen, DraftClose);
    var draft :- ReadDraft(flag);
    var s4 :- ExpectLine(s3, ControlEnd);
    if s4 == EntryEnd then Some((categories, draft)) else None
  }

  /** The substituted texts of a document the template produced, or `None` for any other text. */
  function ReadEntryXml(xml: string): Option<EntryParams> {
    var s :- ReadPreamble(xml);
    var (title, author_name, content, updated, rest) :- ReadTexts(s);
    var (categories, draft) :- ReadClosing(rest);
    Some(EntryParams(author_name, title, content, updated, categories, draft))
  }

  /** The params as the template substitutes them: every text escaped. */
  function Escaped(p: EntryParams, escape: string -> string): (q: EntryParams)
    ensures q.draft == p.draft && |q.categories| == |p.categories|
  {
    EntryParams(escape(p.author_name), escape(p.title), escape(p.content), escape(p.updated),
                Iterators.Map(p.categories, escape), p.draft)
  }

  /** The substituted texts of `p` hold no `<`, and its categories no `"`. */
  ghost predicate Substitutable(p: EntryParams, escape: string -> string) {
    && '<' !in escape(p.title) && '<' !in escape(p.author_name)
    && '<' !in escape(p.content) && '<' !in escape(p.updated)
    && forall i :: 0 <= i < |p.categories| ==> '"' !in escape(p.categories[i])
  }

  /** An escaper that removes every `<` and `"`, as HTML escaping does. */
  ghost predicate EscapesMarkup(escape: string -> string) {
    forall s :: '<' !in escape(s) && '"' !in escape(s)
  }

  /** An escaper that maps different texts to different texts. */
  ghost predicate Injective(escape: string -> string) {
    forall a, b :: escape(a) == escape(b) ==> a == b
  }

  lemma MarkupEscaped(p: EntryParams, escape: string -> string)
    requires EscapesMarkup(escape)
    ensures Substitutable(p, escape)
  {
  }

  lemma ReadTextOfConcat(text: string, next: string, rest: string)
    requires '<' !in text
    requires |next| > 0 && next[0] == '<'
    ensures ReadText(text + (next + rest), next) == Some((text, rest))
  {
    SplitAtConcat(text, next + rest, '<');
    StripPrefixOfConcat(next, rest);
  }

  lemma ExpectLineOfConcat(line: string, rest: string)
    ensures ExpectLine(line + ("\n" + rest), line) == Some(rest)
  {
    StripPrefixOfConcat(line, "\n" + rest);
    StripPrefixOfConcat("\n", rest);
  }

  lemma ReadFieldLineOfConcat(open: string, text: string, close: string, rest: string)
    requires '<' !in text
    requires |close| > 0 && close[0] == '<'
    ensures ReadFieldLine((open + text + close) + ("\n" + rest), open, close) == Some((text, rest))
  {
    assert (open + text + close) + ("\n" + rest) == open + (text + (close + ("\n" + rest)));
    StripPrefixOfConcat(open, text + (close + ("\n" + rest)));
    ReadTextOfConcat(text, close, "\n" + rest);
    StripPrefixOfConcat("\n", rest);
  }

  lemma {:induction false} ReadCategoriesOfConcat(categories: seq<string>, escape: string -> string, rest: string)
    requires forall i :: 0 <= i < |categories| ==> '"' !in escape(categories[i])
    requires |rest| > 0 && rest[0] != '<'
    ensures ReadCategories(CategoriesXml(categories, escape) + rest) == (Iterators.Map(categories, escape), rest)
    decreases |categories|
  {
    if |categories| == 0 {
      assert CategoriesXml(categories, escape) + rest == rest;
      assert !(CategoryOpen <= rest);
    } else {
      var term := escape(categories[0]);
      var tail := CategoriesXml(categories[1..], escape) + rest;
      assert CategoriesXml(categories, escape) + rest == CategoryOpen + (term + (CategoryClose + tail));
      StripPrefixOfConcat(CategoryOpen, term + (CategoryClose + tail));
      SplitAtConcat(term, CategoryClose + tail, '"');
      StripPrefixOfConcat(CategoryClose, tail);
      ReadCategoriesOfConcat(categories[1..], escape, rest);
      assert Iterators.Map(categories, escape) == [term] + Iterators.Map(categories[1..], escape);
    }
  }

  /** The categories line: the indent, the category elements, the line break. */
  lemma ReadCategoriesLine(categories: seq<string>, escape: string -> string, rest: string)
    requires forall i :: 0 <= i < |categories| ==> '"' !in escape(categories[i])
    requires |rest| > 0 && rest[0] != '<'
    ensures StripPrefix((Indent + CategoriesXml(categories, escape)) + ("\n" + rest), Indent)
         == Some(CategoriesXml(categories, escape) + ("\n" + rest))
    ensures ReadCategories(CategoriesXml(categories, escape) + ("\n" + rest))
         == (Iterators.Map(categories, escape), "\n" + rest)
  {
    var xml := CategoriesXml(categories, escape);
    assert (Indent + xml) + ("\n" + rest) == Indent + (xml + ("\n" + rest));
    StripPrefixOfConcat(Indent, xml + ("\n" + rest));
    ReadCategoriesOfConcat(categories, escape, "\n" + rest);
  }

  /**
   * Round trip: reading the rendered document gives back every substituted
   * text and the draft flag, in their places, whenever the escaped texts
   * leave no markup character that ends their place in the template.
   */
  lemma ReadIntoXml(p: EntryParams, escape: string -> string)
    requires Substitutable(p, escape)
    ensures ReadEntryXml(IntoXml(p, escape)) == Some(Escaped(p, escape))
  {
    var s3 := Body(p, escape);
    var s7 := Then(CategoriesLine(p, escape), Then(ControlLine, Then(DraftLine(p), Then(ControlEnd, EntryEnd))));
    ReadPreambleOfLines(Then(EntryLine, Then(NamespaceLine, s3)), Then(NamespaceLine, s3), s3);
    ReadTextsOfLines(p, escape, s7);
    ReadClosingOfLines(p, escape);
  }

  lemma ReadPreambleOfLines(s1: string, s2: string, s3: string)
    requires s1 == Then(EntryLine, s2) && s2 == Then(NamespaceLine, s3)
    ensures ReadPreamble(Then(Declaration, s1)) == Some(s3)
  {
    ExpectLineOfConcat(Declaration, s1);
    ExpectLineOfConcat(EntryLine, s2);
    ExpectLineOfConcat(NamespaceLine, s3);
  }

  lemma ReadTextsOfLines(p: EntryParams, escape: string -> string, s7: string)
    requires Substitutable(p, escape)
    requires s7 == Then(CategoriesLine(p, escape), Then(ControlLine, Then(DraftLine(p), Then(ControlEnd, EntryEnd))))
    ensures ReadTexts(Body(p, escape)) == Some((escape(p.title), escape(p.author_name), escape(p.content), escape(p.updated), s7))
  {
    var s6 := Then(UpdatedLine(p, escape), s7);
    var s5 := Then(ContentLine(p, escape), s6);
    var s4 := Then(AuthorLine(p, escape), s5);
    ReadFieldLineOfConcat(TitleOpen, escape(p.title), TitleClose, s4);
    ReadFieldLineOfConcat(AuthorOpen, escape(p.author_name), AuthorClose, s5);
    ReadFieldLineOfConcat(ContentOpen, escape(p.content), ContentClose, s6);
    ReadFieldLineOfConcat(UpdatedOpen, escape(p.updated), UpdatedClose, s7);
  }

  lemma ReadClosingOfLines(p: EntryParams, escape: string -> string)
    requires Substitutable(p, escape)
    ensures ReadClosing(Then(CategoriesLine(p, escape), Then(ControlLine, Then(DraftLine(p), Then(ControlEnd, EntryEnd)))))
         == Some((Iterators.Map(p.categories, escape), p.draft))
  {
    var s10 := Then(ControlEnd, EntryEnd);
    var s9 := Then(DraftLine(p), s10);
    var s8 := Then(ControlLine, s9);
    assert |s8| > 0 && s8[0] != '<';
    ReadCategoriesLine(p.categories, escape, s8);
    StripPrefixOfConcat("\n", s8);
    ExpectLineOfConcat(ControlLine, s9);
    ReadFieldLineOfConcat(DraftOpen, DraftText(p.draft), DraftClose, s10);
    ExpectLineOfConcat(ControlEnd, EntryEnd);
  }

  /**
   * The document determines the params: with an escaper that keeps texts
   * apart and removes markup, different params render different documents.
   */
  lemma IntoXmlInjective(p: EntryParams, q: EntryParams, escape: string -> string)
    requires EscapesMarkup(escape) && Injective(escape)
    ensures IntoXml(p, escape) == IntoXml(q, escape) <==> p == q
  {
    if IntoXml(p, escape) == IntoXml(q, escape) {
      SameDocument(p, q, escape);
      EscapedInjective(p, q, escape);
    }
  }

  /** Params with the same document substitute the same texts. */
  lemma SameDocument(p: EntryParams, q: EntryParams, escape: string -> string)
    requires EscapesMarkup(escape)
    requires IntoXml(p, escape) == IntoXml(q, escape)
    ensures Escaped(p, escape) == Escaped(q, escape)
  {
    MarkupEscaped(p, escape);
    MarkupEscaped(q, escape);
    ReadIntoXml(p, escape);
    ReadIntoXml(q, escape);
  }

  /** Escaping with an injective escaper loses nothing. */
  lemma EscapedInjective(p: EntryParams, q: EntryParams, escape: string -> string)
    requires Injective(escape)
    requires Escaped(p, escape) == Escaped(q, escape)
    ensures p == q
  {
    var ep, eq := Escaped(p, escape), Escaped(q, escape);
    assert p.categories == q.categories by {
      forall i | 0 <= i < |p.categories|
        ensures p.categories[i] == q.categories[i]
      {
        assert escape(p.categories[i]) == ep.categories[i] == eq.categories[i] == escape(q.categories[i]);
      }
    }
  }

  /**
   * The unit test of entry_params.rs, for an escaper that keeps the test's
   * texts: each line of the rendered document is the test's line.
   */
  lemma IntoXmlExample(escape: string -> string, p: EntryParams)
    requires p == New("AUTHOR_NAME", "TITLE", "CONTENT", "2020-02-07T00:00:00Z", ["CATEGORY"], true)
    requires escape("TITLE") == "TITLE" && escape("AUTHOR_NAME") == "AUTHOR_NAME"
    requires escape("CONTENT") == "CONTENT" && escape("CATEGORY") == "CATEGORY"
    requires escape("2020-02-07T00:00:00Z") == "2020-02-07T00:00:00Z"
    ensures TitleLine(p, escape) == "  <title>TITLE</title>"
    ensures AuthorLine(p, escape) == "  <author><name>AUTHOR_NAME</name></author>"
    ensures ContentLine(p, escape) == "  <content type=\"text/plain\">CONTENT</content>"
    ensures UpdatedLine(p, escape) == "  <updated>2020-02-07T00:00:00Z</updated>"
    ensures CategoriesLine(p, escape) == "  <category term=\"CATEGORY\" />"
    ensures DraftLine(p) == "    <app:draft>yes</app:draft>"
  {
    ExampleTitleLine(escape, p);
    ExampleAuthorLine(escape, p);
    ExampleContentLine(escape, p);
    ExampleUpdatedLine(escape, p);
    ExampleCategoriesLine(escape, p);
    ExampleDraftLine(p);
  }

  lemma ExampleTitleLine(escape: string -> string, p: EntryParams)
    requires p.title == "TITLE" && escape("TITLE") == "TITLE"
    ensures TitleLine(p, escape) == "  <title>TITLE</title>"
  {
    TitleLineText();
  }

  lemma TitleLineText()
    ensures TitleOpen + "TITLE" + TitleClose == "  <title>TITLE</title>"
  {
  }

  lemma ExampleAuthorLine(escape: string -> string, p: EntryParams)
    requires p.author_name == "AUTHOR_NAME" && escape("AUTHOR_NAME") == "AUTHOR_NAME"
    ensures AuthorLine(p, escape) == "  <author><name>AUTHOR_NAME</name></author>"
  {
    AuthorLineText();
  }

  lemma AuthorLineText()
    ensures AuthorOpen + "AUTHOR_NAME" + AuthorClose == "  <author><name>AUTHOR_NAME</name></author>"
  {
  }

  lemma ExampleContentLine(escape: string -> string, p: EntryParams)
    requires p.content == "CONTENT" && escape("CONTENT") == "CONTENT"
    ensures ContentLine(p, escape) == "  <content type=\"text/plain\">CONTENT</content>"
  {
    ContentLineText();
  }

  lemma ContentLineText()
    ensures ContentOpen + "CONTENT" + ContentClose == "  <content type=\"text/plain\">CONTENT</content>"
  {
  }

  lemma ExampleUpdatedLine(escape: string -> string, p: EntryParams)
    requires p.updated == "2020-02-07T00:00:00Z" && escape("2020-02-07T00:00:00Z") == "2020-02-07T00:00:00Z"
    ensures UpdatedLine(p, escape) == "  <updated>2020-02-07T00:00:00Z</updated>"
  {
    UpdatedLineText();
  }

  lemma UpdatedLineText()
    ensures UpdatedOpen + "2020-02-07T00:00:00Z" + UpdatedClose == "  <updated>2020-02-07T00:00:00Z</updated>"
  {
  }

  lemma ExampleCategoriesLine(escape: string -> string, p: EntryParams)
    requires p.categories == ["CATEGORY"] && escape("CATEGORY") == "CATEGORY"
    ensures CategoriesLine(p, escape) == "  <category term=\"CATEGORY\" />"
  {
    OneCategory("CATEGORY", escape);
  }

  lemma ExampleDraftLine(p: EntryParams)
    requires p.draft
    ensures DraftLine(p) == "    <app:draft>yes</app:draft>"
  {
  }
}
