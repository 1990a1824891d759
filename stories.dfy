/** The story catalog and the lookup of a story by its id (src/lib/stories.ts).

    The catalog is a fixed, ordered list of five stories. A lookup searches the
    catalog alone on the server, and on the client the catalog followed by the
    stories uploaded by the reader, which the browser keeps in its storage under
    the key `UploadsKey`; the first story with the requested id wins. */
module Stories {
  import opened Wrappers

  /** A story record. `isHtml` and `keywords` are optional: `None` when the
      record leaves the field out. */
  datatype Story = Story(
    id: string,
    title: string,
    author: string,
    content: string,
    isHtml: Option<bool>,
    keywords: Option<seq<string>>)

  /** Where a lookup runs: on the server, where browser storage does not exist,
      or in a browser whose storage holds the key/value pairs `storage`. */
  datatype Environment = Server | Client(storage: map<string, string>)

  /** Why a lookup fails: the stored uploads cannot be read as a list of
      stories. Either `JSON.parse` throws, or its result cannot be spread into
      the searched list. Nothing catches the error. */
  datatype Error = MalformedUploads

  /** The storage key under which uploaded stories are kept. */
  const UploadsKey: string := "moon-river-stories"

  /** The texts of the five built-in stories, treated as opaque strings. The
      text of "moon-river" is an HTML asset of its own. */
  datatype Contents = Contents(
    moonRiver: string,
    mobyDick: string,
    prideAndPrejudice: string,
    greatGatsby: string,
    toTheLighthouse: string)

  /** The ids of the built-in stories, in catalog order. */
  const CatalogIds: seq<string> :=
    ["moon-river", "moby-dick", "pride-and-prejudice", "the-great-gatsby", "to-the-lighthouse"]

  /** The built-in catalog, in declaration order. */
  function Catalog(texts: Contents): seq<Story>
  {
    [
      Story("moon-river", "Moon River", "Prince Dale Limosnero", texts.moonRiver,
            Some(true), Some(["war", "romance", "germany"])),
      Story("moby-dick", "Moby Dick", "Herman Melville", texts.mobyDick,
            None, Some(["sea", "whale", "adventure"])),
      Story("pride-and-prejudice", "Pride and Prejudice", "Jane Austen", texts.prideAndPrejudice,
            None, Some(["romance", "19th century", "england"])),
      Story("the-great-gatsby", "The Great Gatsby", "F. Scott Fitzgerald", texts.greatGatsby,
            None, Some(["jazz age", "america", "wealth"])),
      Story("to-the-lighthouse", "To the Lighthouse", "Virginia Woolf", texts.toTheLighthouse,
            None, None)
    ]
  }

  /** The ids of `s`, in order. */
  function Ids(s: seq<Story>): (r: seq<string>)
    ensures |r| == |s| && forall i | 0 <= i < |s| :: r[i] == s[i].id
  {
    seq(|s|, i requires 0 <= i < |s| => s[i].id)
  }

  /** No two stories of `s` share an id. */
  predicate IdsDistinct(s: seq<Story>)
  {
    forall i, j | 0 <= i < j < |s| :: s[i].id != s[j].id
  }

  /** `getStories`: the five built-in stories, in declaration order, with
      pairwise distinct ids. */
  function GetStories(texts: Contents): (r: seq<Story>)
    ensures |r| == 5
    ensures Ids(r) == CatalogIds
    ensures IdsDistinct(r)
  {
    Catalog(texts)
  }

  /** `k` is the position of the first story of `s` whose id is `id`. */
  predicate IsFirstMatch(s: seq<Story>, id: string, k: int)
  {
    0 <= k < |s| && s[k].id == id && forall j | 0 <= j < k :: s[j].id != id
  }

  /** A sequence with a story whose id is `id` at position `i` has a first
      such position, at or before `i`. */
  lemma FirstMatchExists(s: seq<Story>, id: string, i: int) returns (k: int)
    requires 0 <= i < |s| && s[i].id == id
    ensures IsFirstMatch(s, id, k) && k <= i
    decreases i
  {
    if j :| 0 <= j < i && s[j].id == id {
      k := FirstMatchExists(s, id, j);
    } else {
      k := i;
    }
  }

  /** `Array.prototype.find` with the predicate `story.id === id`: the first
      story of `s` with that id, or `None` when there is none. */
  function Find(s: seq<Story>, id: string): (r: Option<Story>)
    ensures r.None? <==> forall i | 0 <= i < |s| :: s[i].id != id
    ensures r.Some? ==> r.value.id == id
    ensures forall k | IsFirstMatch(s, id, k) :: r == Some(s[k])
  {
    if s == [] then None
    else if s[0].id == id then Some(s[0])
    else
      assert forall k | IsFirstMatch(s, id, k) :: IsFirstMatch(s[1..], id, k - 1);
      Find(s[1..], id)
  }

  /** Searching a concatenation searches the first part, and the second part
      only when the first holds no match. */
  lemma {:induction false} FindAppend(a: seq<Story>, b: seq<Story>, id: string)
    ensures Find(a + b, id) == if Find(a, id).Some? then Find(a, id) else Find(b, id)
  {
    if a == [] {
      assert a + b == b;
    } else {
      assert (a + b)[0] == a[0];
      assert (a + b)[1..] == a[1..] + b;
      FindAppend(a[1..], b, id);
    }
  }

  /** In a sequence with distinct ids, searching for a story's id finds that story. */
  lemma FindDistinct(s: seq<Story>, k: int)
    requires IdsDistinct(s) && 0 <= k < |s|
    ensures Find(s, s[k].id) == Some(s[k])
  {
    var k' := FirstMatchExists(s, s[k].id, k);
    assert k' == k;
  }

  /** The catalog holds a story with `id` exactly when `id` is one of the
      built-in ids. */
  lemma CatalogHasId(texts: Contents, id: string)
    ensures Find(Catalog(texts), id).Some? <==> id in CatalogIds
  {
    var catalog := GetStories(texts);
    if id in CatalogIds {
      var i :| 0 <= i < |CatalogIds| && CatalogIds[i] == id;
      assert Ids(catalog)[i] == catalog[i].id;
    }
    if Find(catalog, id).Some? {
      var k :| 0 <= k < |catalog| && catalog[k].id == id;
      assert Ids(catalog)[k] == id;
    }
  }

  /** The stored uploads entry: `localStorage.getItem(UploadsKey)`, `None` when absent. */
  function StoredUploads(storage: map<string, string>): (r: Option<string>)
    ensures r.Some? <==> UploadsKey in storage
    ensures r.Some? ==> r.value == storage[UploadsKey]
  {
    if UploadsKey in storage then Some(storage[UploadsKey]) else None
  }

  /** `getItem(...) || "[]"`: an absent entry and an empty string are both
      falsy, so both are replaced by the JSON text of an empty list. */
  function UploadsText(entry: Option<string>): (r: string)
    ensures entry.Some? && entry.value != "" ==> r == entry.value
    ensures entry.None? || entry.value == "" ==> r == "[]"
  {
    match entry
    case Some(text) => if text == "" then "[]" else text
    case None => "[]"
  }

  /** The list that `getStory` searches: the catalog alone on the server, the
      catalog followed by the parsed uploads on the client. `parse` stands for
      `JSON.parse` followed by the spread; it yields `None` where either
      throws, and then there is no list to search. */
  function Candidates(texts: Contents, env: Environment,
                      parse: string -> Option<seq<Story>>): (r: Option<seq<Story>>)
    ensures env.Server? ==> r == Some(Catalog(texts))
    ensures env.Client? ==> (r.None? <==> parse(UploadsText(StoredUploads(env.storage))).None?)
    ensures r.Some? ==> Catalog(texts) <= r.value
    ensures env.Client? && r.Some? ==>
      r.value == Catalog(texts) + parse(UploadsText(StoredUploads(env.storage))).value
  {
    match env
    case Server => Some(Catalog(texts))
    case Client(storage) =>
      match parse(UploadsText(StoredUploads(storage)))
      case None => None
      case Some(uploaded) => Some(Catalog(texts) + uploaded)
  }

  /** `getStory`: the first searched story whose id is `id`, `None` where the
      source returns `undefined`, and a failure where reading the uploads throws. */
  function GetStory(texts: Contents, id: string, env: Environment,
                    parse: string -> Option<seq<Story>>): (r: Result<Option<Story>, Error>)
    ensures r.Failure? <==> Candidates(texts, env, parse).None?
    ensures env.Server? ==> r.Success?
    ensures r.Success? && r.value.Some? ==> r.value.value.id == id
  {
    match Candidates(texts, env, parse)
    case None => Failure(MalformedUploads)
    case Some(searched) => Success(Find(searched, id))
  }

  /** Whenever the uploads parse, `getStory` succeeds: it returns `undefined`
      exactly when no searched story has the id, and otherwise the first
      searched story that has it. */
  lemma GetStoryFound(texts: Contents, id: string, env: Environment,
                      parse: string -> Option<seq<Story>>)
    requires Candidates(texts, env, parse).Some?
    ensures GetStory(texts, id, env, parse).Success?
    ensures GetStory(texts, id, env, parse).value.None? <==>
      forall st | st in Candidates(texts, env, parse).value :: st.id != id
    ensures forall k | IsFirstMatch(Candidates(texts, env, parse).value, id, k) ::
      GetStory(texts, id, env, parse) == Success(Some(Candidates(texts, env, parse).value[k]))
  {
  }

  /** A catalog story shadows any uploaded story with the same id: whenever
      the uploads parse, the client finds what the server finds. */
  lemma CatalogShadowsUploads(texts: Contents, id: string, storage: map<string, string>,
                              parse: string -> Option<seq<Story>>)
    requires id in CatalogIds
    requires parse(UploadsText(StoredUploads(storage))).Some?
    ensures GetStory(texts, id, Client(storage), parse)
         == GetStory(texts, id, Server, parse)
         == Success(Find(Catalog(texts), id))
  {
    CatalogHasId(texts, id);
    FindAppend(Catalog(texts), parse(UploadsText(StoredUploads(storage))).value, id);
  }

  /** An id missing from the catalog is looked up among the uploads, where the
      earliest upload with that id wins. */
  lemma EarliestUploadWins(texts: Contents, id: string, storage: map<string, string>,
                           parse: string -> Option<seq<Story>>)
    requires id !in CatalogIds
    requires parse(UploadsText(StoredUploads(storage))).Some?
    ensures var uploaded := parse(UploadsText(StoredUploads(storage))).value;
            GetStory(texts, id, Client(storage), parse) == Success(Find(uploaded, id))
  {
    CatalogHasId(texts, id);
    FindAppend(Catalog(texts), parse(UploadsText(StoredUploads(storage))).value, id);
  }

  /** On the server the uploads are never consulted: neither the storage nor
      the parser changes the result. */
  lemma ServerIgnoresUploads(texts: Contents, id: string,
                             parse: string -> Option<seq<Story>>, parse': string -> Option<seq<Story>>)
    ensures GetStory(texts, id, Server, parse) == GetStory(texts, id, Server, parse')
    ensures GetStory(texts, id, Server, parse) == Success(Find(Catalog(texts), id))
  {
  }

  /** With no uploads entry (or an empty one) and a parser that reads "[]" as
      the empty list, the client finds exactly what the server finds. */
  lemma AbsentUploadsMatchServer(texts: Contents, id: string, storage: map<string, string>,
                                 parse: string -> Option<seq<Story>>)
    requires parse("[]") == Some([])
    requires UploadsKey !in storage || storage[UploadsKey] == ""
    ensures GetStory(texts, id, Client(storage), parse) == GetStory(texts, id, Server, parse)
  {
    assert Catalog(texts) + [] == Catalog(texts);
  }

  /** Malformed uploads make every client lookup throw, even for a catalog id,
      because the uploads are parsed before the search. */
  lemma MalformedUploadsThrow(texts: Contents, id: string, storage: map<string, string>,
                              parse: string -> Option<seq<Story>>)
    requires parse(UploadsText(StoredUploads(storage))).None?
    ensures GetStory(texts, id, Client(storage), parse) == Failure(MalformedUploads)
  {
  }

  /** Every built-in story is found by its own id, on the server and on any
      client whose uploads parse. */
  lemma CatalogLookup(texts: Contents, k: int, env: Environment,
                      parse: string -> Option<seq<Story>>)
    requires 0 <= k < |CatalogIds|
    requires env.Client? ==> parse(UploadsText(StoredUploads(env.storage))).Some?
    ensures GetStory(texts, Catalog(texts)[k].id, env, parse)
         == Success(Some(Catalog(texts)[k]))
  {
    var catalog := Catalog(texts);
    assert IdsDistinct(GetStories(texts));
    FindDistinct(catalog, k);
    var searched := Candidates(texts, env, parse).value;
    FindAppend(catalog, searched[|catalog|..], catalog[k].id);
    assert catalog + searched[|catalog|..] == searched;
  }

  /** Only "moon-river" is marked as HTML; the other built-in stories leave
      `isHtml` unset. */
  lemma OnlyMoonRiverIsHtml(texts: Contents)
    ensures forall st | st in Catalog(texts) ::
      (st.isHtml == Some(true) <==> st.id == "moon-river") &&
      (st.id != "moon-river" ==> st.isHtml.None?)
  {
  }

  /** Every built-in story carries keywords except "to-the-lighthouse", whose
      record leaves them out. */
  lemma OnlyLighthouseLacksKeywords(texts: Contents)
    ensures forall st | st in Catalog(texts) ::
      st.keywords.None? <==> st.id == "to-the-lighthouse"
  {
  }
}
