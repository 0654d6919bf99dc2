# infokeep core, modelled in Dafny

infokeep is a self-hosted personal store. A user keeps bookmarks, notes, media
files, drawings, recipes, checklists and rated lists in it. Any item can carry
tags. The model covers three parts of the Go code:

- **The item store** (`internal/database/db.go`). Everything goes through one
  SQLite database. Each item is a row of `items` plus, for most types, one row
  in the table of its type. Tags are a vocabulary of names plus (item, tag)
  links. The module `Tables` holds the tables as one value (`Db`) and gives
  every writing operation as a function from the old tables to the new ones.
  The module `Store` holds a class `Store` whose field `tables` the methods
  update, one method per function of the database layer. Each method is
  proved against the corresponding function in `Tables` (for example
  `DeleteItem` against `Delete`, `GetItem` and `Listing` against `ViewOf` and
  `ListedIds`). That includes
  what a failed statement leaves behind: a rolled-back transaction, or a
  single statement that changed nothing. `TableLaws` proves what the
  operations promise: the invariant `Consistent` is preserved, tag
  replacement is exact and idempotent, deletion is owner-only and cascades,
  and so on.
- **Search and tags** (`internal/handlers/handlers.go`). `filterAndSort` scores
  rows against a lower-cased query: 10 for a title, 5 for url, description or
  content, 1 for any other field, and 15 for a tag, each doubled on a prefix.
  It drops the rows that match nothing and sorts the rest by score with an
  in-place exchange sort. `parseTags` splits the comma-separated tag field.
  `getTagColor` picks a colour class from a code-point sum. The suggestion
  handler filters the tag vocabulary. All of this is in module `Search`.
- **The recipe importer** (`internal/handlers/recipe_parser.go`). The importer
  looks for the first JSON-LD `<script>` in a parsed HTML page whose JSON
  holds a schema.org Recipe. The recipe can be a top-level object, an element
  of a top-level array, or an element of an `@graph` array. The importer
  takes the title, the ingredients, the numbered instructions (with
  HowToSection headers) and the image. When no script holds a recipe, it
  falls back to the first `<h1>`/`<title>` text and to `<li>` elements marked
  as ingredients. This is module `RecipeParser`. The JSON values are the
  datatype `Json`; the parsed page is the datatype `Node`.

Helper modules: `Wrappers` (Option and Result), and `Strings` (the Go string
functions the code relies on: ASCII `ToLower`, `TrimSpace` over Go's white
space, `Contains`, `HasPrefix`, `Split`, `Join`, decimal formatting and byte
order on strings). `Sorting` is a verified insertion sort: it stands for the
`ORDER BY` clauses of the readers.

Parameters stand for what the model cannot see:

- `now` is the value of CURRENT_TIMESTAMP.
- `io: Io` names the statement at which the database reports an error.
- `unescape` stands for `html.UnescapeString`.
- `parse` stands for `json.Unmarshal`. It gives `None` when the text is not
  JSON.
- The HTML document arrives already parsed, as a `Node`.

## Model

| member | source | states |
|---|---|---|
| Search.FilterAndSort | internal/handlers/handlers.go:1153-1229 | An empty query returns the rows unchanged. Otherwise the result is a permutation of exactly the rows where some listed field or some tag contains the query, ordered by non-increasing score. |
| Search.ScoreEntry | internal/handlers/handlers.go:1166-1208 | The score of one row is the sum of its field and tag weights; `found` holds iff some field or tag matched. |
| Search.ScoreFields | internal/handlers/handlers.go:1169-1193 | The loop over the fields: the sum of field scores (10/5/1, doubled on a prefix), and whether some field contains the query. |
| Search.ScoreTags | internal/handlers/handlers.go:1196-1208 | The loop over the tags: the sum of tag scores (15, or 30 on a prefix), and whether some tag contains the query. |
| Search.FieldScoreCases | internal/handlers/handlers.go:1176-1191 | A field scores 0 iff it does not match, twice its weight on a prefix, and its weight on a plain match. |
| Search.FieldsScorePositive | internal/handlers/handlers.go:1169-1193 | The field total is positive iff some field matches. |
| Search.TagsScorePositive | internal/handlers/handlers.go:1196-1208 | The tag total is positive iff some tag matches. |
| Search.FoundIffPositive | internal/handlers/handlers.go:1210-1212 | A row is kept iff its score is at least 1. |
| Search.KeptMembers | internal/handlers/handlers.go:1165-1213 | The kept rows are exactly the candidates for which something matched. |
| Search.SortByScoreDescending | internal/handlers/handlers.go:1216-1222 | The nested exchange loops permute the array and leave the scores non-increasing. |
| Search.PlaceLargest | internal/handlers/handlers.go:1217-1221 | One pass of the inner loop moves a largest remaining score to position i and keeps the array a permutation. |
| Search.KeepLarger | internal/handlers/handlers.go:1218-1220 | One comparison-and-swap keeps position i at least as large as every position seen so far. |
| Search.Swap | internal/handlers/handlers.go:1219 | The two entries are exchanged, nothing else moves, and the array stays a permutation. |
| Search.SortedItems | internal/handlers/handlers.go:1215-1228 | Sorting the scored rows and projecting their items gives a permutation of the items in non-increasing Score order. |
| Search.ScoresCarriedOver | internal/handlers/handlers.go:1211-1227 | A permutation sorted by the stored scores is sorted by the real Score, because every stored score is the real one. |
| Search.ItemsOfPermutation | internal/handlers/handlers.go:1225-1227 | Permuting the scored rows permutes their items the same way. |
| Search.ItemsOfIndex | internal/handlers/handlers.go:1225-1227 | The projected items are the rows' items position by position. |
| Search.ParseTags | internal/handlers/handlers.go:48-61 | The result is ParsedTags of the input; every tag is non-empty and trimmed. |
| Search.ParsedTagsClean | internal/handlers/handlers.go:55-58 | Every parsed tag is non-empty and has no surrounding white space. |
| Search.ParsedTagsAppend | internal/handlers/handlers.go:52-59 | Parsing `a,b` is parsing `a` followed by parsing `b`: the order of the input is kept. |
| Search.ParseTagsOfJoin | internal/handlers/handlers.go:48-61 | Round trip: clean tags without commas, joined with commas, parse back to themselves. |
| Search.GetTagColor | internal/handlers/handlers.go:37-46 | The colour is the palette entry at the code-point sum of the lower-cased, trimmed tag modulo 6, and is always a palette entry. |
| Search.ColorIndexCanonical | internal/handlers/handlers.go:38 | Case and surrounding white space do not change the colour. |
| Search.TagSuggestions | internal/handlers/handlers.go:1231-1240 | The suggestions are the vocabulary entries whose lower-cased name contains the lower-cased query, in vocabulary order; an empty query suggests all of them. |
| Search.MatchingTagsMembers | internal/handlers/handlers.go:1236-1240 | A tag is suggested iff it is in the vocabulary and its lower-cased name contains the query. |
| Search.MatchingEmptyQuery | internal/handlers/handlers.go:1237 | The empty query keeps the whole vocabulary in order. |
| Strings.SplitJoin | internal/handlers/handlers.go:52 | Splitting separator-free parts joined with the separator gives the parts back. |
| Strings.JoinSplit | internal/handlers/handlers.go:52 | Joining the pieces of a split with the separator gives the string back. |
| Strings.SplitAppend | internal/handlers/handlers.go:52 | Splitting `a + sep + b` is splitting `a` followed by splitting `b`. |
| Strings.TrimSpaceIsTrimmed | internal/handlers/handlers.go:55 | TrimSpace leaves no white space at either end. |
| Strings.TrimSpaceIdempotent | internal/database/db.go:915 | Trimming twice is trimming once. |
| Strings.ToLowerIdempotent | internal/database/db.go:915 | Lower-casing twice is lower-casing once. |
| Strings.TrimSpaceLower | internal/database/db.go:915 | Trimming and lower-casing commute. |
| Strings.TrimSpaceKeepsOccurrence | internal/handlers/recipe_parser.go:281-282 | Trimming keeps every occurrence of a trimmed, non-empty piece. |
| Strings.JoinOccurs | internal/handlers/recipe_parser.go:281 | Every part occurs in the joined string. |
| Strings.StrLeTotal | internal/database/db.go:944 | The byte order on names used by `ORDER BY name` is total. |
| Strings.StrLeTransitive | internal/database/db.go:944 | That order is transitive. |
| Strings.StrLeAntisymmetric | internal/database/db.go:944 | That order is antisymmetric. |
| Sorting.SortBy | internal/database/db.go:944 | Sorting by a total preorder gives a sorted permutation. |
| Sorting.SortedRows | internal/database/db.go:619 | The rows of a key set are returned exactly once each, sorted by the given order. |
| Sorting.Enumerate | internal/database/db.go:879-899 | A set is listed exactly once per element. |
| Store.OrdersArePreorders | internal/database/db.go:719 | The orders newest-first, open-first, by display order and most-used-first are total and transitive. |
| Store.BestFirstIsPreorder | internal/database/db.go:619 | `ORDER BY score DESC, title ASC` is total and transitive. |
| Store.StrLeIsPreorder | internal/database/db.go:944 | `ORDER BY name ASC` is total and transitive. |
| Store.InsertImages | internal/database/db.go:985-990 | The image insert loop adds one row per path, in path order, and fails iff one of its statements fails. |
| Store.InsertTags | internal/database/db.go:914-938 | The tag loop adds the normalised non-empty names to the vocabulary and links each of them to the item. |
| Store.ListingFacts | internal/database/db.go:368-411 | A listing holds one view per listed item, each built from that item's rows, newest first. |
| Store.Store.constructor | internal/database/db.go:35-145 | A new store has empty tables and is Consistent. |
| Store.Store.CreateBookmark | internal/database/db.go:340-367 | On success the tables are Create(old, NewBookmark) and the new id is returned. It fails iff one of its 4 statements fails, and then nothing changes. Consistent is kept. |
| Store.Store.CreateNote | internal/database/db.go:458-482 | As for bookmarks, with the note row. |
| Store.Store.CreateMedia | internal/database/db.go:765-791 | As for bookmarks, with the media row. |
| Store.Store.CreateDrawing | internal/database/db.go:229-253 | As for bookmarks, with the drawing row. |
| Store.Store.CreateRecipe | internal/database/db.go:963-997 | On success the tables are Create(old, NewRecipe), with one image row per path. It fails iff one of its 4 + \|paths\| statements fails, and then nothing changes. |
| Store.Store.CreateList | internal/database/db.go:666-673 | One insert of an item of type list; a failure changes nothing. |
| Store.Store.CreateRatedList | internal/database/db.go:566-573 | One insert of an item of type rated list; a failure changes nothing. |
| Store.Store.GetItemTags | internal/database/db.go:879-899 | Each tag name of the item exactly once. |
| Store.Store.GetRecipeImages | internal/database/db.go:1103-1123 | The image paths filed under the id, in display order. |
| Store.Store.GetItem | internal/database/db.go:412-435 | GetBookmark, GetNote, GetDrawing and GetRecipe return a view iff the caller owns an item of that type with that id, and NoRows otherwise. A recipe also brings its images in order. |
| Store.Store.Listing | internal/database/db.go:368-411 | GetBookmarks and the other readers return one view per item of that kind that the caller owns and, with a filter, that carries the filter tag, newest first. GetMedia with a filter fails with QueryFailed. |
| Store.Store.UpdateDrawing | internal/database/db.go:316-336 | On success the tables are Tables.UpdateDrawing(old); the file row is replaced only for a non-empty path. A failure changes nothing. |
| Store.Store.UpdateBookmark | internal/database/db.go:436-454 | On success the tables are Tables.UpdateBookmark(old); a failure changes nothing. |
| Store.Store.UpdateNote | internal/database/db.go:545-563 | On success the tables are Tables.UpdateNote(old); a failure changes nothing. |
| Store.Store.UpdateRecipe | internal/database/db.go:1071-1094 | On success the tables are Tables.UpdateRecipe(old); a failure changes nothing. |
| Store.Store.DeleteItem | internal/database/db.go:834-837 | On success the tables are Delete(old, user, id); a failure changes nothing. |
| Store.Store.SetItemTags | internal/database/db.go:901-941 | On success the tables are SetTags(old, id, tags). It fails iff one of its 3 + 2·(named tags) statements fails, and then nothing changes. |
| Store.Store.GetTagsWithCounts | internal/database/db.go:855-878 | One row per tag name used by the user, with the number of the user's items carrying it, most used first. |
| Store.Store.GetAllUniqueTags | internal/database/db.go:943-959 | Every vocabulary name exactly once, in byte order. |
| Store.Store.AddListItem | internal/database/db.go:713-717 | On success the tables are Tables.AddListItem(old); a failure changes nothing. |
| Store.Store.GetListItems | internal/database/db.go:718-741 | The entries of the list, open before completed, then by id. |
| Store.Store.GetListItemById | internal/database/db.go:742-753 | The content of the entry iff it exists, NoRows otherwise. |
| Store.Store.UpdateListItem | internal/database/db.go:754-758 | On success the tables are Tables.UpdateListItem(old); a failure changes nothing. |
| Store.Store.ToggleListItem | internal/database/db.go:759-764 | On success the tables are Tables.ToggleListItem(old); a failure changes nothing. |
| Store.Store.DeleteListItem | internal/database/db.go:839-842 | On success the tables are Tables.DeleteListItem(old); a failure changes nothing. |
| Store.Store.AddRatedListItem | internal/database/db.go:612-617 | It fails iff the statement fails or the score is outside 0..10 (ConstraintFailed); a failure changes nothing. |
| Store.Store.GetRatedListItems | internal/database/db.go:618-643 | The entries of the list, best score first, then by title. |
| Store.Store.GetRatedListItem | internal/database/db.go:644-658 | The entry iff it exists, NoRows otherwise. |
| Store.Store.UpdateRatedListItem | internal/database/db.go:659-665 | It fails iff the statement fails or an existing entry would get a score outside 0..10; a failure changes nothing. |
| Store.Store.DeleteRatedListItem | internal/database/db.go:844-847 | On success the tables are DeleteRatedItem(old); a failure changes nothing. |
| Store.Store.AddRecipeImage | internal/database/db.go:1095-1102 | On success the tables are Tables.AddRecipeImage(old); a failure changes nothing. |
| Store.Store.DeleteRecipeImage | internal/database/db.go:1124-1127 | On success the tables are Tables.DeleteRecipeImage(old); a failure changes nothing. |
| TableLaws.NormalizeIdempotent | internal/database/db.go:915 | Normalising a normalised name changes nothing. |
| TableLaws.NormSetClean | internal/database/db.go:915-918 | Every name SetItemTags stores is non-empty and normalised. |
| TableLaws.LowerWordIsNormal | internal/database/db.go:915 | A name of lower-case letters is its own normal form. |
| TableLaws.SetTagsExact | internal/database/db.go:908-938 | Afterwards the item carries exactly the normalised non-empty names it was given. |
| TableLaws.SetTagsOtherItems | internal/database/db.go:909 | The links of every other item are untouched. |
| TableLaws.SetTagsIdempotent | internal/database/db.go:901-941 | Setting the same tags twice is setting them once. |
| TableLaws.SetTagsVocabulary | internal/database/db.go:921 | The vocabulary only grows, and only by normal forms of the given names. |
| TableLaws.ListedAfterSetTags | internal/database/db.go:377-381 | After tagging, a filtered listing shows the item iff the caller sees it and the filter is one of its normalised names. |
| TableLaws.UnnormalizedFilterFindsNothing | internal/database/db.go:377-381 | A filter not in normal form matches no item, since the filter itself is not normalised. |
| TableLaws.SetTagsConsistent | internal/database/db.go:901-941 | SetItemTags keeps Consistent. |
| TableLaws.AddImagesContents | internal/database/db.go:985-990 | The new image rows get the keys from the counter on, in path order, and the old rows are kept. |
| TableLaws.CreateAddsOneItem | internal/database/db.go:340-367 | Create adds exactly one items row under a fresh id, visible only to its owner, with its extension row. |
| TableLaws.CreateKeepsOthers | internal/database/db.go:340-367 | Create leaves the extension rows of every other item alone. |
| TableLaws.CreateListsNewItem | internal/database/db.go:368-411 | The owner's unfiltered listing shows the new item. |
| TableLaws.CreateRecipeImages | internal/database/db.go:985-990 | A new recipe's images are filed under the new item's id, in order, next to the existing ones. |
| TableLaws.CreateRecipeFreshRowId | internal/database/db.go:977-980 | The new recipe's `recipes` row (an AUTOINCREMENT key) takes a row id no stored recipe has; stored recipes keep their rows. |
| TableLaws.CreateConsistent | internal/database/db.go:340-367 | Every Create keeps Consistent. |
| TableLaws.DeleteOnlyByOwner | internal/database/db.go:834-837 | A non-owner's delete changes nothing. An owner's delete hides the item from everyone and keeps every other item. |
| TableLaws.DeleteCascade | internal/database/db.go:62-135 | With cascading, the item's extension rows, list entries, rated entries and tag links go, other items' tags stay, and exactly the images whose `recipe_id` is the recipe's row id go; without it, extension rows, list entries, rated entries, tag links and images all stay. |
| TableLaws.CascadeKeepsOwnImages | internal/database/db.go:985-987 | Once a new recipe's item id differs from its row id, the cascade on deleting it leaves every image filed under its item id in place. |
| TableLaws.DeleteTagCount | internal/database/db.go:855-878 | Deleting an item lowers the owner's count of each of its tags by one and leaves other users' counts alone. |
| TableLaws.DeleteConsistent | internal/database/db.go:834-837 | DeleteItem keeps Consistent. |
| TableLaws.UpdateDrawingWithoutFile | internal/database/db.go:316-336 | With an empty path only the title and timestamp change, whoever calls. |
| TableLaws.UpdateDrawingWithFile | internal/database/db.go:328-333 | With a path the drawing's file is replaced. |
| TableLaws.UpdateBookmarkOwnerRules | internal/database/db.go:436-454 | The title changes only for the owner. Url and description change for any caller. Favicon and thumbnail are kept. |
| TableLaws.UpdateNoteOwnerRules | internal/database/db.go:545-563 | The title changes only for the owner; the content changes for any caller. |
| TableLaws.UpdateRecipeOwnerRules | internal/database/db.go:1071-1094 | The title changes only for the owner. The recipe keeps its row id and its images. |
| TableLaws.UpdateDrawingConsistent | internal/database/db.go:316-336 | UpdateDrawing keeps Consistent. |
| TableLaws.UpdateBookmarkConsistent | internal/database/db.go:436-454 | UpdateBookmark keeps Consistent. |
| TableLaws.UpdateNoteConsistent | internal/database/db.go:545-563 | UpdateNote keeps Consistent. |
| TableLaws.UpdateRecipeConsistent | internal/database/db.go:1071-1094 | UpdateRecipe keeps Consistent. |
| TableLaws.AddListItemConsistent | internal/database/db.go:713-717 | AddListItem keeps Consistent. |
| TableLaws.UpdateListItemConsistent | internal/database/db.go:754-758 | UpdateListItem keeps Consistent. |
| TableLaws.ToggleListItemConsistent | internal/database/db.go:759-764 | ToggleListItem keeps Consistent. |
| TableLaws.DeleteListItemConsistent | internal/database/db.go:839-842 | DeleteListItem keeps Consistent. |
| TableLaws.AddRatedItemConsistent | internal/database/db.go:612-617 | AddRatedListItem with an allowed score keeps Consistent. |
| TableLaws.UpdateRatedItemConsistent | internal/database/db.go:659-665 | UpdateRatedListItem with an allowed score keeps Consistent. |
| TableLaws.DeleteRatedItemConsistent | internal/database/db.go:844-847 | DeleteRatedListItem keeps Consistent. |
| TableLaws.AddRecipeImageConsistent | internal/database/db.go:1095-1102 | AddRecipeImage keeps Consistent. |
| TableLaws.DeleteRecipeImageConsistent | internal/database/db.go:1124-1127 | DeleteRecipeImage keeps Consistent. |
| TableLaws.StoredScoresAllowed | internal/database/db.go:89 | Every stored rated-list score is within 0..10, as the CHECK constraint demands. |
| TableLaws.UserTagsCounted | internal/database/db.go:855-878 | A name appears in a user's statistics iff one of the user's items carries it. |
| TableLaws.TaggedBookmarkExample | internal/database/db.go:368-411 | A bookmark tagged "tech,news" is listed under "tech" for its owner, not under "cooking", and never for another user. |
| RecipeParser.ExtractImage | internal/handlers/recipe_parser.go:301-319 | The image is empty or a string stored inside the value. |
| RecipeParser.ExtractStepText | internal/handlers/recipe_parser.go:285-298 | It finds text iff the step is a string or an object with a `text` or `name` string. A string is returned raw. `text` wins over `name`, and both are unescaped. No text gives "". |
| RecipeParser.ProcessStep | internal/handlers/recipe_parser.go:232-257 | Appends a string step unescaped, a section's header and items, or a plain step's text, as StepLines says. |
| RecipeParser.ProcessSection | internal/handlers/recipe_parser.go:238-250 | Appends the header of a named section, then one line per item that has text. |
| RecipeParser.ProcessItem | internal/handlers/recipe_parser.go:244-246 | Appends the unescaped text of one item when it has any. |
| RecipeParser.CollectSteps | internal/handlers/recipe_parser.go:259-268 | The lines collected from an array of steps or from one object. |
| RecipeParser.NumberSteps | internal/handlers/recipe_parser.go:271-278 | Headers are kept as they are; line i becomes "i+1. line". |
| RecipeParser.ExtractInstructions | internal/handlers/recipe_parser.go:229-283 | A string is unescaped. Otherwise the numbered lines are joined by newlines and trimmed. |
| RecipeParser.InstructionsTrimmed | internal/handlers/recipe_parser.go:280-282 | Non-string instructions have no surrounding white space. |
| RecipeParser.StepShown | internal/handlers/recipe_parser.go:271-282 | Every non-header line that is non-empty and ends in a non-space shows up as "i+1. line". |
| RecipeParser.HeaderShown | internal/handlers/recipe_parser.go:240-282 | A section header shows up as "**name**", even when it comes first and its newline is trimmed away. |
| RecipeParser.PlainStepLines | internal/handlers/recipe_parser.go:253-255 | A non-section step object with a `text` string adds that text unescaped twice (once in extractStepText, once more here). |
| RecipeParser.CheckRecipeType | internal/handlers/recipe_parser.go:137-148 | The `@type` check holds iff it is a string, or an array with a string, that contains "recipe" in any case. |
| RecipeParser.ExtractIngredients | internal/handlers/recipe_parser.go:164-170 | The string entries of `recipeIngredient`, unescaped, in order. |
| RecipeParser.ExtractRecipeFromMap | internal/handlers/recipe_parser.go:124-183 | A recipe exactly for an object with a Recipe `@type`: title from `name` else `headline`, ingredients, instructions and image. |
| RecipeParser.IngredientsOfContents | internal/handlers/recipe_parser.go:164-170 | A line is an ingredient iff it is the unescape of some string entry; there are never more ingredients than entries. |
| RecipeParser.IngredientsOfStrings | internal/handlers/recipe_parser.go:164-170 | When every entry is a string, the ingredients are the entries unescaped, position by position. |
| RecipeParser.FindRecipe | internal/handlers/recipe_parser.go:101-105 | The recipe of the first element that holds one. |
| RecipeParser.ParseJsonLdContent | internal/handlers/recipe_parser.go:92-122 | Invalid JSON gives nothing. An object with an `@graph` array searches only the graph. Another object is tried itself. An array gives its first recipe. |
| RecipeParser.FirstRecipeIsFirst | internal/handlers/recipe_parser.go:101-118 | There is a recipe iff some element holds one, and then it is that of the first such element. |
| RecipeParser.GraphHidesTopLevel | internal/handlers/recipe_parser.go:99-111 | An object that is itself a Recipe but has an empty `@graph` gives no recipe. |
| RecipeParser.WalkJsonLd | internal/handlers/recipe_parser.go:60-86 | The recursive walk keeps a recipe already found, and otherwise finds the first script recipe in document order. |
| RecipeParser.ExtractJsonLd | internal/handlers/recipe_parser.go:56-90 | The recipe of the first JSON-LD script, in document order, whose first child holds one. |
| RecipeParser.JsonLdFromFirstScript | internal/handlers/recipe_parser.go:56-90 | A found recipe comes from a JSON-LD script and no script before it holds one. Nothing is found iff no script holds a recipe. |
| RecipeParser.TitleText | internal/handlers/recipe_parser.go:196-199 | A title offered by an h1 or title element is non-empty and trimmed. |
| RecipeParser.TitleAfterFirst | internal/handlers/recipe_parser.go:196 | Offering titles node by node keeps the first non-empty one. |
| RecipeParser.VisitHtmlNode | internal/handlers/recipe_parser.go:194-213 | One node sets the title when none is set yet and adds one ingredient line per marking attribute. |
| RecipeParser.WalkHtml | internal/handlers/recipe_parser.go:193-218 | The recursive walk yields the first offered title and every ingredient line in document order. |
| RecipeParser.ExtractFromHtml | internal/handlers/recipe_parser.go:186-226 | The result is HtmlRecipe: an error without title, else the title and the ingredient lines. |
| RecipeParser.HtmlRecipeFacts | internal/handlers/recipe_parser.go:186-226 | It fails iff no node offers a title. The title is the first one offered, and every ingredient is trimmed. |
| RecipeParser.AttrLinesAreText | internal/handlers/recipe_parser.go:204-211 | Every ingredient line from the HTML is trimmed. |
| RecipeParser.AttrLinesCopies | internal/handlers/recipe_parser.go:204-211 | Every line added for one element is that element's text. |
| RecipeParser.ParseRecipeFromDocument | internal/handlers/recipe_parser.go:46-52 | The JSON-LD recipe when there is one, otherwise the HTML fallback. |
| RecipeParser.EntitiesExampleRecipe | internal/handlers/recipe_parser_test.go:9-65 | With an unescape that decodes the entities of the test, the recipe has the expected title, both ingredients, the two numbered steps, and no image. |
| RecipeParser.ExampleInstructions | internal/handlers/recipe_parser_test.go:57-65 | The test's instructions become "1. Season with \"generous\" salt.\n2. Cook for 10-15 minutes.". |
| RecipeParser.ExampleIngredients | internal/handlers/recipe_parser_test.go:43-55 | The test's ingredients become "1 ½ lbs chicken breast" and "Salt & Pepper". |

## Left out

- Users, sessions, passwords and API tokens (`CreateUser`, `GetUserByUsername`, `CreateSession`, `GetSession`, `DeleteSession`, `GetUserByToken`, `GetAPIToken`, `RegenerateAPIToken`) depend on randomness, the clock and authentication. They are outside the model.
- `InitDB`, `createSchema` and `runMigrations` open files and run DDL. The schema appears only through its constraints: the score CHECK, the AUTOINCREMENT counters and the declared cascades.
- HTTP handlers, templates, file uploads, export/import and `models.go` are not part of this model. `filterAndSort` and the tag suggestion loop are modelled on their inputs. The lower-casing of the query in `SearchHandler` is a precondition of use, not part of `FilterAndSort`.
- `ParseRecipeFromURL`'s HTTP fetch and `html.Parse` are network and foreign code. The model starts from the parsed document (`ParseRecipeFromDocument`).
- `html.UnescapeString` and `json.Unmarshal` are parameters (`unescape`, `parse`). Facts about them appear only as the requires of the example lemmas.
- JSON numbers are integers in `Json`; nothing in the importer reads a number.
- Attribute namespaces and the next-sibling links of `html.Node` are not modelled. A node's children are a sequence.
- Go's nil and empty slices are not told apart: `parseTags` of "" is the empty sequence.
- Read errors (`Query`, `Scan`) are not modelled; reads always succeed. Only the failure of a writing statement is, through `io`.
- Foreign-key checks on insert are not modelled. For example, `AddListItem` on a list id that does not exist is accepted.
- Store.Store.DeleteItem: `InitDB` never runs `PRAGMA foreign_keys = ON`, so SQLite does not cascade. The store's `cascade` flag chooses between this as-written behaviour (`false`) and the declared `ON DELETE CASCADE` (`true`). Both are proved about (`TableLaws.DeleteCascade`).
- Store.Store.Listing: `GetMedia` with a tag filter builds SQL with `ON` but no `JOIN`, which does not compile. It is modelled as the error `QueryFailed`.
- TableLaws.DeleteCascade: the declared cascade on `recipe_images` goes by the recipe's row id, but images are filed under the item id. So with the cascade a deleted recipe's own images stay (`TableLaws.CascadeKeepsOwnImages`), and images filed under an item whose id equals the deleted recipe's row id are removed. The model states this as the schema and the inserts give it.
- Store.Store.CreateMedia: when `Commit` fails, Go returns the new item id together with the error (internal/database/db.go:788-789). The model's failure result carries no id; callers do not use the id when there is an error.
- Store.Store.GetItem: `GetRecipe` looks images up by the item id, and `CreateRecipe` files them under the item id. Yet `recipe_images.recipe_id` references `recipes.id`. The model follows the code: images are filed and read under the item id. A cascade from a deleted recipe row goes by its own row id.
- TableLaws.UpdateBookmarkOwnerRules: `UpdateBookmark`, `UpdateNote` and `UpdateRecipe` check the owner only when updating `items`. Their second statement updates the extension row for any caller. The model states this as written.
- Search.Weight: title weighs 10; url, description and content weigh 5; every other field, `ingredients` and `instructions` included, weighs 1 (internal/handlers/handlers.go:1179-1184).
- RecipeParser.PlainStepLines: a step object's `text` or `name` is unescaped twice, once in `extractStepText` and once by its caller. The model does the same. A string step is unescaped once.
- Strings.ToLower: `strings.ToLower` folds every Unicode letter; the model folds ASCII letters only. TrimSpace uses Go's `unicode.IsSpace` set.
- Search.GetTagColor: Go sums runes (code points) and the model sums `char` values, the same thing for text decoded as code points; invalid UTF-8 is not modelled.
- RecipeParser.ExampleInstructions: the test checks only that the instructions contain its two lines. The model proves the whole text, assuming an `unescape` that leaves already-decoded text alone.
