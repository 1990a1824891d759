# Moon River story catalog and lookup

This project models the story catalog of the Moon River reader (`src/lib/stories.ts`)
and proves properties of it. The catalog is a fixed, ordered list of five built-in
stories. `getStory(id)` searches a list for the first story whose id equals `id`.
Which list it searches depends on where it runs:

- On the server it searches the catalog alone.
- In the browser it searches the catalog followed by the reader's uploaded stories.
  These are read from browser storage under the key `"moon-river-stories"` and
  decoded with `JSON.parse`. A missing or empty entry counts as `"[]"`.

The model is written in two modules:

- `Wrappers` (`wrappers.dfy`) holds `Option` and `Result`. `None` stands for
  `undefined`, and `Failure` stands for an exception.
- `Stories` (`stories.dfy`) holds the `Story` record, the catalog, the
  first-match search `Find` and `GetStory`.

Browser storage is a parameter `storage: map<string, string>` of the `Client`
environment. `JSON.parse` is a parameter `parse: string -> Option<seq<Story>>`,
where `None` means the stored text cannot be read as a list of stories:
`JSON.parse` throws, or its result cannot be spread. The texts of the five built-in stories are
opaque strings, passed in as a `Contents` record. The text of "moon-river" is a
separate HTML asset. The id, title, author, `isHtml` and keywords of every
built-in story are copied from the catalog literal.

Three details of the code shape the model:
- The uploads are kept under the storage key `"moon-river-stories"` (src/lib/stories.ts:72).
- `isHtml` is an optional field, and only "moon-river" sets it (src/lib/stories.ts:10).
- A malformed uploads entry makes the lookup fail. `JSON.parse` throws and
  nothing catches it (src/lib/stories.ts:72).

## Model

| member | source | states |
|---|---|---|
| `Stories.GetStories` | src/lib/stories.ts:4-66 | the catalog has exactly five stories; their ids are, in order, moon-river, moby-dick, pride-and-prejudice, the-great-gatsby, to-the-lighthouse; and no two share an id. The list it returns is the helper `Stories.Catalog`, whose body is the catalog literal field by field: id, title, author, `isHtml` and keywords as written, with each text taken from the `Contents` parameter |
| `Stories.OnlyMoonRiverIsHtml` | src/lib/stories.ts:4-62 | a built-in story has `isHtml` set to true exactly when it is "moon-river"; every other built-in story leaves `isHtml` unset |
| `Stories.OnlyLighthouseLacksKeywords` | src/lib/stories.ts:54-61 | every built-in story has keywords except "to-the-lighthouse", which leaves them out |
| `Stories.Find` | src/lib/stories.ts:73 | `find` returns nothing exactly when no story has the id; a returned story has the id; and it is the story at the first position whose id matches |
| `Stories.CatalogHasId` | src/lib/stories.ts:4-62 | searching the catalog finds a story exactly when the id is one of the five built-in ids |
| `Stories.FindAppend` | src/lib/stories.ts:73 | searching `a ++ b` returns the match in `a` if there is one, and otherwise the match in `b` |
| `Stories.FindDistinct` | src/lib/stories.ts:76 | in a list with distinct ids, searching for a story's own id returns that story |
| `Stories.StoredUploads` | src/lib/stories.ts:72 | the storage read yields a value exactly when the uploads key is present, and that value is the stored text |
| `Stories.UploadsText` | src/lib/stories.ts:72 | an absent entry and an empty string both fall back to `"[]"`; any other stored text is passed to the parser unchanged |
| `Stories.Candidates` | src/lib/stories.ts:71-76 | the server searches the catalog alone; the client has a list to search exactly when the uploads parse, and that list is the catalog followed by exactly the parsed uploads |
| `Stories.GetStory` | src/lib/stories.ts:68-77 | the lookup fails exactly when the uploads do not parse, and never on the server; a returned story has the requested id |
| `Stories.GetStoryFound` | src/lib/stories.ts:71-76 | when the uploads parse, the lookup succeeds; it returns `undefined` exactly when no searched story has the id, and otherwise the first searched story with that id |
| `Stories.CatalogShadowsUploads` | src/lib/stories.ts:73 | when the catalog holds the id and the uploads parse, the client returns the same catalog story as the server, whatever was uploaded |
| `Stories.EarliestUploadWins` | src/lib/stories.ts:73 | when the catalog lacks the id, the client returns the first uploaded story with that id |
| `Stories.ServerIgnoresUploads` | src/lib/stories.ts:76 | the server result is the catalog search and does not depend on the parser or any uploads |
| `Stories.AbsentUploadsMatchServer` | src/lib/stories.ts:72-73 | with the uploads entry absent or empty, the client result equals the server result for every id |
| `Stories.MalformedUploadsThrow` | src/lib/stories.ts:72 | when the stored uploads do not parse, every client lookup fails, even for a catalog id |
| `Stories.CatalogLookup` | src/lib/stories.ts:68-77 | every built-in story is found by its own id on the server, and on every client whose uploads parse |

## Left out

- Browser storage and `JSON.parse` are parameters. The model does not implement a JSON parser.
- The parser model returns either a list of `Story` values or `None`, meaning the read throws. JSON values that do not spread, such as `null` or a number, fall under `None`. Other shapes are not modelled: a string that spreads into characters, or records missing fields or holding fields of the wrong type.
- Story texts are not part of this model. They are the fields of the `Contents` parameter. The text of the `moonriver.html` asset is not available at all; the other four texts, fixed in the source, are opaque here too. Each appears only as a `content` field and no property depends on it.
- The `Story` type is declared in `@/types`, which is not part of this model. Its fields are inferred from the catalog literal.
- `src/app/page.tsx`, `src/app/story/[id]/page.tsx`, `src/app/story/[id]/story-reader.tsx` and `src/components/header.tsx` are view components, not part of this model. This covers the reader's settings, bookmark storage and debounced scroll saving in `story-reader.tsx`, and the redirect after a story is not found.
- Chapter segmentation and chapter navigation are not part of `src/lib/stories.ts`.
- Comparing ids with `===` is modelled as equality of character sequences.
