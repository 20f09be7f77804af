/**
 * `Entry`: one blog post as the client returns it, and its JSON form.
 */
module Entries {
  import opened EntryIds
  import opened Json

  /** Fields in the order the struct declares them. */
  datatype Entry = Entry(
    author_name: string,
    categories: seq<string>,
    content: string,
    draft: bool,
    id: EntryId,
    title: string,
    updated: string)

  /**
   * `Entry::new`. Its parameters come in a different order from the fields
   * (id, title, author_name, categories, content, updated, draft); each one
   * lands in the field of the same name.
   */
  function New(id: EntryId, title: string, author_name: string, categories: seq<string>,
               content: string, updated: string, draft: bool): (e: Entry)
    ensures e.id == id && e.title == title && e.author_name == author_name
    ensures e.categories == categories && e.content == content
    ensures e.updated == updated && e.draft == draft
  {
    Entry(author_name, categories, content, draft, id, title, updated)
  }

  /** The JSON keys, in the order the derived serializer writes them. */
  const JsonKeys: seq<string> :=
    ["author_name", "categories", "content", "draft", "id", "title", "updated"]

  /**
   * `json!(self)`: one member per field, in declaration order. `draft` is a
   * JSON boolean, the categories an array of strings, and the id (a newtype)
   * its inner string.
   */
  function ToJsonValue(e: Entry): (v: Value)
    ensures v.Object? && |v.members| == |JsonKeys|
    ensures forall i :: 0 <= i < |JsonKeys| ==> v.members[i].key == JsonKeys[i]
    ensures v.members[0].value == Str(e.author_name)
    ensures v.members[1].value == Strings(e.categories)
    ensures v.members[2].value == Str(e.content)
    ensures v.members[3].value == Bool(e.draft)
    ensures v.members[4].value == Str(ToString(e.id))
    ensures v.members[5].value == Str(e.title)
    ensures v.members[6].value == Str(e.updated)
  {
    Object([
      Member("author_name", Str(e.author_name)),
      Member("categories", Strings(e.categories)),
      Member("content", Str(e.content)),
      Member("draft", Bool(e.draft)),
      Member("id", Str(ToString(e.id))),
      Member("title", Str(e.title)),
      Member("updated", Str(e.updated))
    ])
  }

  /** `Entry::to_json`: `json!(self).to_string()`. */
  function ToJson(e: Entry, escape: string -> string): string {
    Serialize(ToJsonValue(e), escape)
  }

  /** Strict lexicographic order on strings, as a `BTreeMap<String, _>` orders its keys. */
  predicate LexLess(a: string, b: string) {
    if |a| == 0 then |b| > 0
    else if |b| == 0 then false
    else if a[0] != b[0] then a[0] < b[0]
    else LexLess(a[1..], b[1..])
  }

  /**
   * The declaration order of the keys is also their sorted order, so the
   * text is the same whether the JSON object keeps insertion order or sorts
   * its keys.
   */
  lemma JsonKeysSorted()
    ensures forall i :: 0 <= i < |JsonKeys| - 1 ==> LexLess(JsonKeys[i], JsonKeys[i + 1])
  {
    assert LexLess("author_name", "categories");
    assert LexLess("categories", "content") by {
      assert "categories"[1..] == "ategories" && "content"[1..] == "ontent";
    }
    assert LexLess("content", "draft");
    assert LexLess("draft", "id");
    assert LexLess("id", "title");
    assert LexLess("title", "updated");
  }

  /** An escaper that leaves the seven key names alone (every JSON escaper does). */
  ghost predicate KeepsKeys(escape: string -> string) {
    forall i :: 0 <= i < |JsonKeys| ==> escape(JsonKeys[i]) == JsonKeys[i]
  }

  lemma KeptKeys(escape: string -> string)
    requires KeepsKeys(escape)
    ensures escape("author_name") == "author_name" && escape("categories") == "categories"
    ensures escape("content") == "content" && escape("draft") == "draft" && escape("id") == "id"
    ensures escape("title") == "title" && escape("updated") == "updated"
  {
    assert escape(JsonKeys[0]) == JsonKeys[0];
    assert escape(JsonKeys[1]) == JsonKeys[1];
    assert escape(JsonKeys[2]) == JsonKeys[2];
    assert escape(JsonKeys[3]) == JsonKeys[3];
    assert escape(JsonKeys[4]) == JsonKeys[4];
    assert escape(JsonKeys[5]) == JsonKeys[5];
    assert escape(JsonKeys[6]) == JsonKeys[6];
  }

  /**
   * The JSON text: members in declaration order separated by commas, `draft`
   * as a bare `true`/`false`, the id as a plain string, the categories as an
   * array in list order.
   */
  lemma ToJsonText(e: Entry, escape: string -> string)
    requires KeepsKeys(escape)
    ensures ToJson(e, escape) == "{" + Join([
      MemberText("author_name", Quote(e.author_name, escape)),
      MemberText("categories", "[" + Join(Quoted(e.categories, escape), ",") + "]"),
      MemberText("content", Quote(e.content, escape)),
      MemberText("draft", if e.draft then "true" else "false"),
      MemberText("id", Quote(e.id.raw, escape)),
      MemberText("title", Quote(e.title, escape)),
      MemberText("updated", Quote(e.updated, escape))], ",") + "}"
  {
    var ms := ToJsonValue(e).members;
    var texts := [
      MemberText("author_name", Quote(e.author_name, escape)),
      MemberText("categories", "[" + Join(Quoted(e.categories, escape), ",") + "]"),
      MemberText("content", Quote(e.content, escape)),
      MemberText("draft", if e.draft then "true" else "false"),
      MemberText("id", Quote(e.id.raw, escape)),
      MemberText("title", Quote(e.title, escape)),
      MemberText("updated", Quote(e.updated, escape))];
    var mt := MemberTexts(ms, escape);
    KeptKeys(escape);
    assert mt[0] == texts[0] by {
      assert Serialize(ms[0].value, escape) == Quote(e.author_name, escape);
    }
    assert mt[1] == texts[1] by {
      SerializeStrings(e.categories, escape);
    }
    assert mt[2] == texts[2] by {
      assert Serialize(ms[2].value, escape) == Quote(e.content, escape);
    }
    assert mt[3] == texts[3] by {
      assert Serialize(ms[3].value, escape) == if e.draft then "true" else "false";
    }
    assert mt[4] == texts[4] by {
      assert Serialize(ms[4].value, escape) == Quote(e.id.raw, escape);
    }
    assert mt[5] == texts[5] by {
      assert Serialize(ms[5].value, escape) == Quote(e.title, escape);
    }
    assert mt[6] == texts[6] by {
      assert Serialize(ms[6].value, escape) == Quote(e.updated, escape);
    }
    assert MemberTexts(ms, escape) == texts;
    SerializeMembersJoined(ms, escape);
  }

  /**
   * The unit tests of entry.rs: `Entry::new` stores its arguments, and
   * `to_json` yields the object whose members, in this key order, are the
   * fields of the test's expected text.
   */
  lemma NewAndToJsonExample()
    ensures New(EntryId("ID"), "TITLE", "AUTHOR_NAME", ["CATEGORY"], "CONTENT", "2020-02-07T00:00:00Z", true)
         == Entry("AUTHOR_NAME", ["CATEGORY"], "CONTENT", true, EntryId("ID"), "TITLE", "2020-02-07T00:00:00Z")
    ensures ToJsonValue(New(EntryId("ID"), "TITLE", "AUTHOR_NAME", ["CATEGORY"], "CONTENT", "2020-02-07T00:00:00Z", true))
         == Object([
              Member("author_name", Str("AUTHOR_NAME")),
              Member("categories", Array([Str("CATEGORY")])),
              Member("content", Str("CONTENT")),
              Member("draft", Bool(true)),
              Member("id", Str("ID")),
              Member("title", Str("TITLE")),
              Member("updated", Str("2020-02-07T00:00:00Z"))])
  {
    assert Strings(["CATEGORY"]) == Array([Str("CATEGORY")]);
  }
}
