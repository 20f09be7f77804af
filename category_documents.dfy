/**
 * Reading a category document: the terms of the `<atom:category>` elements
 * inside the one `<app:categories>` element of the document. The XML
 * tokenizer itself belongs to quick_xml; here its output is a sequence of
 * namespace-resolved events, and the reader hands them out one at a time.
 */
module CategoryDocuments {
  import opened Wrappers
  import Responses

  const AtomNs := "http://www.w3.org/2005/Atom"
  const AppNs := "http://www.w3.org/2007/app"

  /** The kinds of event the scanners tell apart; the rest (text, declarations, comments) are `Other`. */
  datatype Kind = Start | Empty | End | Eof | Other

  /** An attribute's value once unescaped and decoded, or the error that step reports. */
  datatype AttrValue = Decoded(text: string) | BadEscape | NotUtf8

  /** An attribute of an element, or one the tokenizer could not read. */
  datatype Attribute = Attribute(key: string, value: AttrValue) | Malformed

  /**
   * A namespace-resolved event: the namespace of the element (if any), its
   * kind, its local name and its attributes; or an error of the tokenizer.
   */
  datatype Event =
    | Event(ns: Option<string>, kind: Kind, localName: string, attributes: seq<Attribute>)
    | ReadError

  /** What the tokenizer yields once the input is used up, and yields again on each later read. */
  const EndOfInput := Event(None, Eof, "", [])

  /**
   * The errors of the two scanners: the library's (a tokenizer error, a
   * malformed attribute, an escape or UTF-8 error in a value) and the four
   * the scanners raise themselves.
   */
  datatype CategoryError =
    | XmlError
    | AttributeError
    | UnescapeError
    | Utf8Error
    | UnexpectedEof
    | TooMany
    | NotSupported
    | Missing

  /** The text of the errors the scanners raise themselves; the library's errors carry the library's text. */
  function Message(e: CategoryError): (m: Option<string>)
    ensures m.Some? <==> (e.UnexpectedEof? || e.TooMany? || e.NotSupported? || e.Missing?)
  {
    match e
    case UnexpectedEof => Some("eof")
    case TooMany => Some("too many <app:categories>")
    case NotSupported => Some("<app:categories href=\"{CATEGORY_DOCUMENT}\" /> is not supported")
    case Missing => Some("no <app:categories>")
    case _ => None
  }

  /** `<atom:category ... />`. */
  predicate IsCategory(e: Event) {
    e.Event? && e.ns == Some(AtomNs) && e.kind == Empty && e.localName == "category"
  }

  /** `<app:categories ...>`. */
  predicate IsCategoriesStart(e: Event) {
    e.Event? && e.ns == Some(AppNs) && e.kind == Start && e.localName == "categories"
  }

  /** `<app:categories ... />`. */
  predicate IsCategoriesEmpty(e: Event) {
    e.Event? && e.ns == Some(AppNs) && e.kind == Empty && e.localName == "categories"
  }

  /** `</app:categories>`. */
  predicate IsCategoriesEnd(e: Event) {
    e.Event? && e.ns == Some(AppNs) && e.kind == End && e.localName == "categories"
  }

  /** The end of input, whatever the namespace. */
  predicate IsEof(e: Event) {
    e.Event? && e.kind == Eof
  }

  /** The event the reader yields at position `i`. */
  function EventAt(events: seq<Event>, i: nat): Event {
    if i < |events| then events[i] else EndOfInput
  }

  /** The reader's position after reading at `i`: it stays put at the end. */
  function Advance(events: seq<Event>, i: nat): nat {
    if i < |events| then i + 1 else i
  }

  /** The reader over a tokenized document. */
  class Reader {
    const events: seq<Event>
    var pos: nat

    ghost predicate Valid()
      reads this
    {
      pos <= |events|
    }

    constructor (events: seq<Event>)
      ensures this.events == events && pos == 0
      ensures Valid()
    {
      this.events := events;
      pos := 0;
    }

    /** `read_namespaced_event`: the next event, or the end of input again and again. */
    method ReadNamespacedEvent() returns (e: Event)
      requires Valid()
      modifies this
      ensures Valid()
      ensures e == EventAt(events, old(pos))
      ensures pos == Advance(events, old(pos))
    {
      if pos < |events| {
        e := events[pos];
        pos := pos + 1;
      } else {
        e := EndOfInput;
      }
    }
  }

  /* ---------------------------------------------------------------------- */
  /* What the scanners compute, as functions of the events                   */
  /* ---------------------------------------------------------------------- */

  /**
   * The terms of one `<atom:category>` element, attribute by attribute in
   * order: a malformed attribute fails, a `term` attribute contributes its
   * value or fails when the value does not unescape or decode, any other
   * attribute is skipped.
   */
  function TermsOf(attrs: seq<Attribute>): Result<seq<string>, CategoryError>
    decreases |attrs|
  {
    if |attrs| == 0 then Success([])
    else match attrs[0]
      case Malformed => Failure(AttributeError)
      case Attribute(key, value) =>
        if key == "term" then
          match value
          case BadEscape => Failure(UnescapeError)
          case NotUtf8 => Failure(Utf8Error)
          case Decoded(s) =>
            var rest :- TermsOf(attrs[1..]);
            Success([s] + rest)
        else TermsOf(attrs[1..])
  }

  /**
   * `categories_from_reader` from position `pos`: the terms of the category
   * elements up to the closing `</app:categories>`, and the position after
   * it. The end of input before the closing tag is an error.
   */
  function ScanCategories(events: seq<Event>, pos: nat): (r: Result<(seq<string>, nat), CategoryError>)
    requires pos <= |events|
    ensures r.Success? ==> pos < r.value.1 <= |events|
    decreases |events| - pos
  {
    var e := EventAt(events, pos);
    if e.ReadError? then Failure(XmlError)
    else if IsCategory(e) then
      var terms :- TermsOf(e.attributes);
      var rest :- ScanCategories(events, pos + 1);
      Success((terms + rest.0, rest.1))
    else if IsCategoriesEnd(e) then Success(([], pos + 1))
    else if IsEof(e) then Failure(UnexpectedEof)
    else ScanCategories(events, pos + 1)
  }

  /**
   * `from_category_document_xml` from position `pos`, with `found` the terms
   * of the `<app:categories>` already read, if any.
   */
  function ScanDocument(events: seq<Event>, pos: nat, found: Option<seq<string>>)
    : Result<seq<string>, CategoryError>
    requires pos <= |events|
    decreases |events| - pos
  {
    var e := EventAt(events, pos);
    if e.ReadError? then Failure(XmlError)
    else if IsCategoriesStart(e) then
      match found
      case Some(_) => Failure(TooMany)
      case None =>
        var inner :- ScanCategories(events, pos + 1);
        ScanDocument(events, inner.1, Some(inner.0))
    else if IsCategoriesEmpty(e) then
      if found.None? then Failure(NotSupported) else Failure(TooMany)
    else if IsEof(e) then found.OkOr(Missing)
    else ScanDocument(events, pos + 1, found)
  }

  /** `r` with `prefix` in front of the terms it found. */
  function PrependTerms(prefix: seq<string>, r: Result<seq<string>, CategoryError>)
    : Result<seq<string>, CategoryError>
  {
    match r
    case Success(ts) => Success(prefix + ts)
    case Failure(e) => Failure(e)
  }

  /** `r` with `prefix` in front of the terms it found, the position left alone. */
  function PrependScan(prefix: seq<string>, r: Result<(seq<string>, nat), CategoryError>)
    : Result<(seq<string>, nat), CategoryError>
  {
    match r
    case Success(v) => Success((prefix + v.0, v.1))
    case Failure(e) => Failure(e)
  }

  /** The terms of a scan, without the position. */
  function TermsOfScan(r: Result<(seq<string>, nat), CategoryError>): Result<seq<string>, CategoryError> {
    match r
    case Success(v) => Success(v.0)
    case Failure(e) => Failure(e)
  }

  /* ---------------------------------------------------------------------- */
  /* The scanners                                                           */
  /* ---------------------------------------------------------------------- */

  /**
   * `categories_from_reader`, called just after `<app:categories>` was read:
   * the terms up to the closing tag, with the reader left just after it.
   * (The element's own attributes, which it ignores, are not passed.)
   */
  method CategoriesFromReader(reader: Reader) returns (r: Result<seq<string>, CategoryError>)
    requires reader.Valid()
    modifies reader
    ensures reader.Valid()
    ensures r == TermsOfScan(ScanCategories(reader.events, old(reader.pos)))
    ensures r.Success? ==> reader.pos == ScanCategories(reader.events, old(reader.pos)).value.1
    ensures r.Success? ==> 0 < reader.pos && IsCategoriesEnd(reader.events[reader.pos - 1])
  {
    ghost var start := reader.pos;
    var categories: seq<string> := [];
    PrependNothing(ScanCategories(reader.events, reader.pos));
    while true
      invariant reader.Valid()
      invariant PrependScan(categories, ScanCategories(reader.events, reader.pos))
             == ScanCategories(reader.events, start)
      decreases |reader.events| - reader.pos
    {
      ghost var here := reader.pos;
      var e := reader.ReadNamespacedEvent();
      if e.ReadError? {
        return Failure(XmlError);
      } else if IsCategory(e) {
        ScanAtCategory(reader.events, here);
        ghost var before := categories;
        ghost var done: seq<string> := [];
        var k := 0;
        assert e.attributes[k..] == e.attributes;
        PrependTermsNothing(TermsOf(e.attributes));
        while k < |e.attributes|
          invariant 0 <= k <= |e.attributes|
          invariant reader.Valid() && reader.pos == here + 1
          invariant categories == before + done
          invariant PrependTerms(done, TermsOf(e.attributes[k..])) == TermsOf(e.attributes)
        {
          assert e.attributes[k..][0] == e.attributes[k];
          assert e.attributes[k..][1..] == e.attributes[k + 1..];
          match e.attributes[k]
          case Malformed =>
            return Failure(AttributeError);
          case Attribute(key, value) =>
            if key == "term" {
              match value
              case BadEscape =>
                return Failure(UnescapeError);
              case NotUtf8 =>
                return Failure(Utf8Error);
              case Decoded(s) =>
                PrependTermsAssoc(done, [s], TermsOf(e.attributes[k + 1..]));
                categories := categories + [s];
                done := done + [s];
            }
          k := k + 1;
        }
        assert e.attributes[k..] == [] && done + [] == done;
        assert TermsOf(e.attributes) == Success(done);
        PrependScanAssoc(before, done, ScanCategories(reader.events, reader.pos));
      } else if IsCategoriesEnd(e) {
        assert ScanCategories(reader.events, here) == Success(([], reader.pos));
        assert categories + [] == categories;
        break;
      } else if IsEof(e) {
        return Failure(UnexpectedEof);
      }
    }
    return Success(categories);
  }

  /**
   * `from_category_document_xml`: the terms of the document's one
   * `<app:categories>` element. `tokenize` stands for quick_xml's reader
   * with namespaces resolved and whitespace-only text trimmed.
   */
  method FromCategoryDocumentXml(xml: string, tokenize: string -> seq<Event>)
    returns (r: Result<seq<string>, CategoryError>)
    ensures r == ScanDocument(tokenize(xml), 0, None)
  {
    var reader := new Reader(tokenize(xml));
    var categories: Option<seq<string>> := None;
    while true
      invariant reader.Valid() && reader.events == tokenize(xml)
      invariant ScanDocument(reader.events, reader.pos, categories) == ScanDocument(reader.events, 0, None)
      decreases |reader.events| - reader.pos
    {
      var e := reader.ReadNamespacedEvent();
      if e.ReadError? {
        return Failure(XmlError);
      } else if IsCategoriesStart(e) {
        match categories
        case None =>
          var inner := CategoriesFromReader(reader);
          if inner.Failure? {
            return Failure(inner.error);
          }
          categories := Some(inner.value);
        case Some(_) =>
          return Failure(TooMany);
      } else if IsCategoriesEmpty(e) {
        match categories
        case None =>
          return Failure(NotSupported);
        case Some(_) =>
          return Failure(TooMany);
      } else if IsEof(e) {
        break;
      }
    }
    r := categories.OkOr(Missing);
  }

  /** `TryFrom<CategoryDocumentResponse> for Vec<String>`: every error becomes `ParseEntry`. */
  method CategoriesOfResponse(response: Responses.CategoryDocumentResponse, tokenize: string -> seq<Event>)
    returns (r: Result<seq<string>, Responses.ParseEntry>)
    ensures r.Success? <==> ScanDocument(tokenize(response.body), 0, None).Success?
    ensures r.Success? ==> r.value == ScanDocument(tokenize(response.body), 0, None).value
  {
    var categories := FromCategoryDocumentXml(response.body, tokenize);
    r := match categories
      case Success(c) => Success(c)
      case Failure(_) => Failure(Responses.ParseEntry);
  }

  /* ---------------------------------------------------------------------- */
  /* Properties of the scans                                                */
  /* ---------------------------------------------------------------------- */

  lemma PrependNothing(r: Result<(seq<string>, nat), CategoryError>)
    ensures PrependScan([], r) == r
  {
    if r.Success? {
      assert [] + r.value.0 == r.value.0;
    }
  }

  lemma PrependTermsNothing(r: Result<seq<string>, CategoryError>)
    ensures PrependTerms([], r) == r
  {
    if r.Success? {
      assert [] + r.value == r.value;
    }
  }

  /** One step of the scan over a category element: its terms, then the rest. */
  lemma ScanAtCategory(events: seq<Event>, here: nat)
    requires here < |events| && IsCategory(events[here])
    ensures TermsOf(events[here].attributes).Failure? ==>
      ScanCategories(events, here) == Failure(TermsOf(events[here].attributes).error)
    ensures TermsOf(events[here].attributes).Success? ==>
      ScanCategories(events, here) == PrependScan(TermsOf(events[here].attributes).value, ScanCategories(events, here + 1))
  {
  }

  lemma PrependTermsAssoc(a: seq<string>, b: seq<string>, r: Result<seq<string>, CategoryError>)
    ensures PrependTerms(a, PrependTerms(b, r)) == PrependTerms(a + b, r)
  {
    if r.Success? {
      assert a + (b + r.value) == (a + b) + r.value;
    }
  }

  lemma PrependScanAssoc(a: seq<string>, b: seq<string>, r: Result<(seq<string>, nat), CategoryError>)
    ensures PrependScan(a, PrependScan(b, r)) == PrependScan(a + b, r)
  {
    if r.Success? {
      assert a + (b + r.value.0) == (a + b) + r.value.0;
    }
  }

  /** Every attribute reads, and every `term` value unescapes and decodes. */
  ghost predicate WellFormedAttributes(attrs: seq<Attribute>) {
    forall i :: 0 <= i < |attrs| ==> attrs[i].Attribute? && (attrs[i].key == "term" ==> attrs[i].value.Decoded?)
  }

  /** The values of the `term` attributes, in order. */
  function TermValues(attrs: seq<Attribute>): seq<string>
    decreases |attrs|
  {
    if |attrs| == 0 then []
    else if attrs[0].Attribute? && attrs[0].key == "term" && attrs[0].value.Decoded? then
      [attrs[0].value.text] + TermValues(attrs[1..])
    else TermValues(attrs[1..])
  }

  /** An element's terms are found exactly when its attributes are well formed, and they are its `term` values. */
  lemma {:induction false} TermsOfWellFormed(attrs: seq<Attribute>)
    ensures TermsOf(attrs).Success? <==> WellFormedAttributes(attrs)
    ensures TermsOf(attrs).Success? ==> TermsOf(attrs).value == TermValues(attrs)
    decreases |attrs|
  {
    if |attrs| > 0 {
      TermsOfWellFormed(attrs[1..]);
      if WellFormedAttributes(attrs) {
        assert WellFormedAttributes(attrs[1..]) by {
          forall i | 0 <= i < |attrs[1..]|
            ensures attrs[1..][i].Attribute? && (attrs[1..][i].key == "term" ==> attrs[1..][i].value.Decoded?)
          {
            assert attrs[1..][i] == attrs[i + 1];
          }
        }
      } else if attrs[0].Attribute? && (attrs[0].key == "term" ==> attrs[0].value.Decoded?) {
        var i :| 0 <= i < |attrs| && !(attrs[i].Attribute? && (attrs[i].key == "term" ==> attrs[i].value.Decoded?));
        assert attrs[1..][i - 1] == attrs[i];
      }
    }
  }

  /**
   * Inside an `<app:categories>` element: no closing tag, no end of input,
   * no tokenizer error, and every category element well formed.
   */
  ghost predicate InsideCategories(e: Event) {
    e.Event? && !IsCategoriesEnd(e) && e.kind != Eof
    && (IsCategory(e) ==> WellFormedAttributes(e.attributes))
  }

  /** Every event of `events[from..to]` is inside the element. */
  ghost predicate AllInside(events: seq<Event>, from: nat, to: nat)
    requires from <= to <= |events|
  {
    forall k :: from <= k < to ==> InsideCategories(events[k])
  }

  /** The terms of the category elements among `events[from..to]`, in document order. */
  function CategoryTerms(events: seq<Event>, from: nat, to: nat): seq<string>
    requires from <= to <= |events|
    decreases |events| - from
  {
    if from == to then []
    else (if IsCategory(events[from]) then TermValues(events[from].attributes) else [])
         + CategoryTerms(events, from + 1, to)
  }

  /**
   * A well-formed `<app:categories>` body closed at `end`: the scan returns
   * the terms of its category elements in order, and the position after the
   * closing tag.
   */
  lemma {:induction false} ScanBody(events: seq<Event>, from: nat, end: nat)
    requires from <= end < |events|
    requires AllInside(events, from, end)
    requires IsCategoriesEnd(events[end])
    ensures ScanCategories(events, from) == Success((CategoryTerms(events, from, end), end + 1))
    decreases end - from
  {
    if from < end {
      ScanBody(events, from + 1, end);
      if IsCategory(events[from]) {
        TermsOfWellFormed(events[from].attributes);
      } else {
        assert [] + CategoryTerms(events, from + 1, end) == CategoryTerms(events, from + 1, end);
      }
    }
  }

  /**
   * The end of input at `stop`: the end of the sequence, or an explicit
   * end-of-input event there (the reader yields one past the end anyway).
   */
  ghost predicate InputEndsAt(events: seq<Event>, stop: nat) {
    stop <= |events| && (stop < |events| ==> IsEof(events[stop]))
  }

  /** A body that is never closed before the end of input: the scan reports the end of input. */
  lemma {:induction false} ScanUnclosed(events: seq<Event>, from: nat, stop: nat)
    requires from <= stop && InputEndsAt(events, stop)
    requires AllInside(events, from, stop)
    ensures ScanCategories(events, from) == Failure(UnexpectedEof)
    decreases stop - from
  {
    if from < stop {
      ScanUnclosed(events, from + 1, stop);
      if IsCategory(events[from]) {
        TermsOfWellFormed(events[from].attributes);
      }
    }
  }

  /** A successful scan stops just after a `</app:categories>`. */
  lemma {:induction false} ScanEndsAtClose(events: seq<Event>, from: nat)
    requires from <= |events|
    requires ScanCategories(events, from).Success?
    ensures IsCategoriesEnd(events[ScanCategories(events, from).value.1 - 1])
    decreases |events| - from
  {
    var e := EventAt(events, from);
    if !IsCategoriesEnd(e) {
      ScanEndsAtClose(events, from + 1);
    }
  }

  /**
   * What a successful scan of a body passed over: every event up to the
   * closing tag it stopped at is inside the element.
   */
  lemma {:induction false} ScanSucceeded(events: seq<Event>, from: nat)
    requires from <= |events|
    requires ScanCategories(events, from).Success?
    ensures AllInside(events, from, ScanCategories(events, from).value.1 - 1)
    decreases |events| - from
  {
    var end := ScanCategories(events, from).value.1 - 1;
    if from < end {
      var e := events[from];
      if IsCategory(e) {
        TermsOfWellFormed(e.attributes);
      }
      ScanSucceeded(events, from + 1);
    }
  }

  /** The first category element whose attributes are not well formed makes the scan fail with its error. */
  lemma {:induction false} ScanBadCategory(events: seq<Event>, from: nat, bad: nat)
    requires from <= bad < |events|
    requires AllInside(events, from, bad)
    requires IsCategory(events[bad]) && !WellFormedAttributes(events[bad].attributes)
    ensures TermsOf(events[bad].attributes).Failure?
    ensures ScanCategories(events, from) == Failure(TermsOf(events[bad].attributes).error)
    decreases bad - from
  {
    if from < bad {
      ScanBadCategory(events, from + 1, bad);
      if IsCategory(events[from]) {
        TermsOfWellFormed(events[from].attributes);
      }
    } else {
      TermsOfWellFormed(events[bad].attributes);
    }
  }

  /** Outside the element: anything but `<app:categories>` (either form), the end of input or a tokenizer error. */
  predicate Outside(e: Event) {
    e.Event? && !IsCategoriesStart(e) && !IsCategoriesEmpty(e) && e.kind != Eof
  }

  /** Every event of `events[from..to]` is outside the element. */
  ghost predicate AllOutside(events: seq<Event>, from: nat, to: nat)
    requires from <= to <= |events|
  {
    forall k :: from <= k < to ==> Outside(events[k])
  }

  /** The document scan passes over events that are outside the element. */
  lemma {:induction false} SkipOutside(events: seq<Event>, from: nat, to: nat, found: Option<seq<string>>)
    requires from <= to <= |events|
    requires AllOutside(events, from, to)
    ensures ScanDocument(events, from, found) == ScanDocument(events, to, found)
    decreases |events| - from
  {
    if from < to {
      SkipOutside(events, from + 1, to, found);
    }
  }

  /** At `<app:categories>`, with none read before: the category list is scanned, then the rest of the document. */
  lemma EnterCategories(events: seq<Event>, start: nat)
    requires start < |events| && IsCategoriesStart(events[start])
    ensures ScanCategories(events, start + 1).Failure? ==>
      ScanDocument(events, start, None) == Failure(ScanCategories(events, start + 1).error)
    ensures ScanCategories(events, start + 1).Success? ==>
      var inner := ScanCategories(events, start + 1).value;
      ScanDocument(events, start, None) == ScanDocument(events, inner.1, Some(inner.0))
  {
  }

  /** At `<app:categories>`, with none read before, and a body scanned to `terms` and `next`: the rest of the document from `next`. */
  lemma EnterCategoriesAfter(events: seq<Event>, start: nat, terms: seq<string>, next: nat)
    requires start < |events| && IsCategoriesStart(events[start])
    requires ScanCategories(events, start + 1) == Success((terms, next))
    ensures next <= |events|
    ensures ScanDocument(events, start, None) == ScanDocument(events, next, Some(terms))
  {
  }

  /** A well-formed `<app:categories>` element at `start`, closed at `end`, read as the first one. */
  lemma ReadCategoriesElement(events: seq<Event>, start: nat, end: nat)
    requires start < end < |events|
    requires IsCategoriesStart(events[start])
    requires AllInside(events, start + 1, end)
    requires IsCategoriesEnd(events[end])
    ensures ScanDocument(events, start, None) == ScanDocument(events, end + 1, Some(CategoryTerms(events, start + 1, end)))
  {
    ScanBody(events, start + 1, end);
    EnterCategories(events, start);
  }

  /** After the element, with its terms found: only events outside any element follow up to the end of input, and the scan returns the terms. */
  lemma FinishDocument(events: seq<Event>, from: nat, stop: nat, found: seq<string>)
    requires from <= stop && InputEndsAt(events, stop)
    requires AllOutside(events, from, stop)
    ensures ScanDocument(events, from, Some(found)) == Success(found)
  {
    SkipOutside(events, from, stop, Some(found));
    DocumentEnd(events, stop, Some(found));
  }

  /** At the end of input the document scan returns what it found, or "no <app:categories>". */
  lemma DocumentEnd(events: seq<Event>, stop: nat, found: Option<seq<string>>)
    requires InputEndsAt(events, stop)
    ensures ScanDocument(events, stop, found) == found.OkOr(Missing)
  {
  }

  /** A document without any `<app:categories>` before the end of input: "no <app:categories>". */
  lemma NoCategoriesElement(events: seq<Event>, stop: nat)
    requires InputEndsAt(events, stop)
    requires AllOutside(events, 0, stop)
    ensures ScanDocument(events, 0, None) == Failure(Missing)
  {
    SkipOutside(events, 0, stop, None);
    DocumentEnd(events, stop, None);
  }

  /** A self-closing `<app:categories ... />` before any other: not supported. */
  lemma EmptyCategoriesElement(events: seq<Event>, at: nat)
    requires at < |events|
    requires AllOutside(events, 0, at)
    requires IsCategoriesEmpty(events[at])
    ensures ScanDocument(events, 0, None) == Failure(NotSupported)
  {
    SkipOutside(events, 0, at, None);
  }

  /**
   * The document holds exactly one top-level `<app:categories>` element, at
   * `start` and closed at `end`, before the end of input at `stop`: nothing
   * before it and nothing after it is either form of the element, no
   * tokenizer error occurs outside it, and its body is well formed. Start
   * tags nested inside the body are allowed: the scan ignores them.
   */
  ghost predicate OneElementDocument(events: seq<Event>, start: nat, end: nat, stop: nat) {
    && start < end < stop && InputEndsAt(events, stop)
    && AllOutside(events, 0, start)
    && IsCategoriesStart(events[start])
    && AllInside(events, start + 1, end)
    && IsCategoriesEnd(events[end])
    && AllOutside(events, end + 1, stop)
  }

  /** The one `<app:categories>` element of the document, at `start` and closed at `end`: the scan returns its terms. */
  lemma LastCategoriesElement(events: seq<Event>, start: nat, end: nat, stop: nat)
    requires start < end < stop && InputEndsAt(events, stop)
    requires IsCategoriesStart(events[start])
    requires AllInside(events, start + 1, end)
    requires IsCategoriesEnd(events[end])
    requires AllOutside(events, end + 1, stop)
    ensures ScanDocument(events, start, None) == Success(CategoryTerms(events, start + 1, end))
  {
    ReadCategoriesElement(events, start, end);
    FinishDocument(events, end + 1, stop, CategoryTerms(events, start + 1, end));
  }

  /** A document with one well-formed `<app:categories>` element: its terms, in document order. */
  lemma OneCategoriesElement(events: seq<Event>, start: nat, end: nat, stop: nat)
    requires OneElementDocument(events, start, end, stop)
    ensures ScanDocument(events, 0, None) == Success(CategoryTerms(events, start + 1, end))
  {
    SkipOutside(events, 0, start, None);
    LastCategoriesElement(events, start, end, stop);
  }

  /** The element, its end and the end of input are determined by the document. */
  lemma OneElementUnique(events: seq<Event>, start: nat, end: nat, stop: nat, start': nat, end': nat, stop': nat)
    requires OneElementDocument(events, start, end, stop)
    requires OneElementDocument(events, start', end', stop')
    ensures start == start' && end == end' && stop == stop'
  {
  }

  /** After the element a successful scan meets nothing but outside events before the end of input. */
  lemma {:induction false} FindInputEnd(events: seq<Event>, from: nat, found: seq<string>) returns (stop: nat)
    requires from <= |events|
    requires ScanDocument(events, from, Some(found)).Success?
    ensures from <= stop && InputEndsAt(events, stop) && AllOutside(events, from, stop)
    decreases |events| - from
  {
    if from == |events| || IsEof(events[from]) {
      stop := from;
    } else {
      stop := FindInputEnd(events, from + 1, found);
    }
  }

  /** Before the element a successful scan meets nothing but outside events, then the element and the rest of a one-element document. */
  lemma {:induction false} FindElement(events: seq<Event>, from: nat) returns (start: nat, end: nat, stop: nat)
    requires from <= |events| && AllOutside(events, 0, from)
    requires ScanDocument(events, from, None).Success?
    ensures OneElementDocument(events, start, end, stop)
    decreases |events| - from
  {
    if from < |events| && IsCategoriesStart(events[from]) {
      start := from;
      var inner := ScanCategories(events, from + 1).value;
      ScanSucceeded(events, from + 1);
      ScanEndsAtClose(events, from + 1);
      end := inner.1 - 1;
      stop := FindInputEnd(events, inner.1, inner.0);
    } else {
      assert AllOutside(events, 0, from + 1) by {
        assert Outside(events[from]);
      }
      start, end, stop := FindElement(events, from + 1);
    }
  }

  /**
   * The document scan succeeds exactly for a document with one top-level
   * `<app:categories>` element, and then returns that element's terms.
   */
  lemma CategoryDocumentShape(events: seq<Event>)
    ensures ScanDocument(events, 0, None).Success? <==>
      exists start: nat, end: nat, stop: nat :: OneElementDocument(events, start, end, stop)
    ensures forall start: nat, end: nat, stop: nat :: OneElementDocument(events, start, end, stop) ==>
      ScanDocument(events, 0, None) == Success(CategoryTerms(events, start + 1, end))
  {
    if ScanDocument(events, 0, None).Success? {
      var start, end, stop := FindElement(events, 0);
    }
    forall start: nat, end: nat, stop: nat | OneElementDocument(events, start, end, stop)
      ensures ScanDocument(events, 0, None) == Success(CategoryTerms(events, start + 1, end))
    {
      OneCategoriesElement(events, start, end, stop);
    }
  }

  /** A second `<app:categories>` after a first, closed one: "too many". */
  lemma SecondCategoriesElement(events: seq<Event>, start: nat, end: nat, second: nat)
    requires start < end < second < |events|
    requires AllOutside(events, 0, start)
    requires IsCategoriesStart(events[start])
    requires AllInside(events, start + 1, end)
    requires IsCategoriesEnd(events[end])
    requires AllOutside(events, end + 1, second)
    requires IsCategoriesStart(events[second]) || IsCategoriesEmpty(events[second])
    ensures ScanDocument(events, 0, None) == Failure(TooMany)
  {
    SkipOutside(events, 0, start, None);
    ScanBody(events, start + 1, end);
    EnterCategories(events, start);
    SkipOutside(events, end + 1, second, Some(CategoryTerms(events, start + 1, end)));
  }

  /** An `<app:categories>` that is never closed before the end of input: "eof". */
  lemma UnclosedCategoriesElement(events: seq<Event>, start: nat, stop: nat)
    requires start < stop && InputEndsAt(events, stop)
    requires AllOutside(events, 0, start)
    requires IsCategoriesStart(events[start])
    requires AllInside(events, start + 1, stop)
    ensures ScanDocument(events, 0, None) == Failure(UnexpectedEof)
  {
    SkipOutside(events, 0, start, None);
    ScanUnclosed(events, start + 1, stop);
    EnterCategories(events, start);
  }

  /** A self-closing `<atom:category term="..." />`. */
  function CategoryElement(term: string): (e: Event)
    ensures IsCategory(e)
  {
    Event(Some(AtomNs), Empty, "category", [Attribute("term", Decoded(term))])
  }

  /**
   * The unit test's document, as the tokenizer yields it: the declaration,
   * `<app:categories>`, the categories Perl and Scala, and the closing tag.
   */
  function ExampleEvents(): seq<Event> {
    [ Event(None, Other, "", []),
      Event(Some(AppNs), Start, "categories", [Attribute("fixed", Decoded("no"))]),
      CategoryElement("Perl"),
      CategoryElement("Scala"),
      Event(Some(AppNs), End, "categories", []) ]
  }

  lemma CategoryDocumentExample()
    ensures ScanDocument(ExampleEvents(), 0, None) == Success(["Perl", "Scala"])
  {
    var events := ExampleEvents();
    assert TermValues([Attribute("term", Decoded("Perl"))]) == ["Perl"];
    assert TermValues([Attribute("term", Decoded("Scala"))]) == ["Scala"];
    assert InsideCategories(events[2]) && InsideCategories(events[3]);
    OneCategoriesElement(events, 1, 4, 5);
    assert CategoryTerms(events, 2, 4) == ["Perl", "Scala"];
  }

  /**
   * A start tag nested in the first element is not a second element: its
   * closing tag ends the scan of the body, the outer closing tag is passed
   * over, and the input here ends with an explicit end-of-input event.
   */
  function NestedEvents(): seq<Event> {
    [ Event(Some(AppNs), Start, "categories", []),
      Event(Some(AppNs), Start, "categories", []),
      CategoryElement("A"),
      Event(Some(AppNs), End, "categories", []),
      Event(Some(AppNs), End, "categories", []),
      EndOfInput ]
  }

  lemma NestedCategoriesExample()
    ensures ScanDocument(NestedEvents(), 0, None) == Success(["A"])
  {
    var events := NestedEvents();
    assert TermValues([Attribute("term", Decoded("A"))]) == ["A"];
    assert InsideCategories(events[1]) && InsideCategories(events[2]);
    assert Outside(events[4]);
    OneCategoriesElement(events, 0, 3, 5);
    assert CategoryTerms(events, 1, 3) == ["A"];
  }
}
