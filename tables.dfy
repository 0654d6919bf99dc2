/**
 * The SQLite tables of the item store, as values, and every store operation
 * as a function from the old tables to the new ones.
 *
 * An item is one row of `items` (owner, title, type, timestamps) plus, for
 * bookmarks, notes, media, drawings and recipes, one row of the table of its
 * type under the same id. Checklists and rated lists have no extension row;
 * their entries live in `list_items` and `rated_list_items`. Tags are a
 * vocabulary of unique names plus the (item, tag) pairs of `item_tags`; tag
 * ids are not observable and the pairs name the tag directly.
 *
 * Every table with an AUTOINCREMENT key has a counter: the next row gets the
 * counter's value and the counter moves on, so a key is never reused.
 */
module Tables {
  import opened Wrappers
  import opened Strings

  /** The `type` column of `items`. */
  datatype Kind = Bookmark | Note | Recipe | List | RatedList | Media | Drawing

  datatype ItemRow = ItemRow(userId: int, title: string, kind: Kind, createdAt: int, updatedAt: int)
  datatype BookmarkRow = BookmarkRow(url: string, description: string, favicon: string, thumbnail: string)
  datatype MediaRow = MediaRow(filePath: string, mimeType: string)
  /** A `recipes` row, filed under its item id; `rowId` is its own AUTOINCREMENT key. */
  datatype RecipeRow = RecipeRow(rowId: int, ingredients: string, instructions: string, notes: string, thumbnail: string, sourceUrl: string)
  datatype ImageRow = ImageRow(recipeId: int, filePath: string, displayOrder: int)
  datatype ListItemRow = ListItemRow(listId: int, content: string, completed: bool)
  datatype RatedItemRow = RatedItemRow(listId: int, title: string, score: int, note: string)

  datatype Db = Db(
    items: map<int, ItemRow>,
    bookmarks: map<int, BookmarkRow>,
    notes: map<int, string>,
    media: map<int, MediaRow>,
    drawings: map<int, string>,
    recipes: map<int, RecipeRow>,
    images: map<int, ImageRow>,
    listItems: map<int, ListItemRow>,
    ratedItems: map<int, RatedItemRow>,
    tags: set<string>,
    itemTags: set<(int, string)>,
    nextItem: int,
    nextRecipe: int,
    nextImage: int,
    nextListItem: int,
    nextRatedItem: int)

  /** A freshly created database: every table empty, every AUTOINCREMENT counter at 1. */
  function Empty(): Db {
    Db(map[], map[], map[], map[], map[], map[], map[], map[], map[], {}, {}, 1, 1, 1, 1, 1)
  }

  /** The `CHECK(score >= 0 AND score <= 10)` constraint of `rated_list_items`. */
  predicate ScoreAllowed(score: int) {
    0 <= score <= 10
  }

  /** The normal form SetItemTags stores a tag name in: lower-cased, then trimmed. */
  function Normalize(t: string): string {
    TrimSpace(ToLower(t))
  }

  /**
   * What every reachable state satisfies: keys lie below their counters,
   * stored scores pass the CHECK, every linked tag is in the vocabulary and
   * every vocabulary name is non-empty and normalised.
   */
  ghost predicate Consistent(db: Db) {
    KeysBelow(db.items, db.nextItem)
    && KeysBelow(db.bookmarks, db.nextItem)
    && KeysBelow(db.notes, db.nextItem)
    && KeysBelow(db.media, db.nextItem)
    && KeysBelow(db.drawings, db.nextItem)
    && KeysBelow(db.recipes, db.nextItem) && RowIdsBelow(db.recipes, db.nextRecipe)
    && KeysBelow(db.images, db.nextImage)
    && KeysBelow(db.listItems, db.nextListItem)
    && KeysBelow(db.ratedItems, db.nextRatedItem) && ScoresAllowed(db.ratedItems)
    && LinksNamed(db.itemTags, db.tags)
    && NamesNormal(db.tags)
  }

  /** Every key of `m` was handed out by a counter that now stands at `next`. */
  ghost predicate KeysBelow<V>(m: map<int, V>, next: int) {
    forall i :: i in m ==> i < next
  }

  ghost predicate RowIdsBelow(recipes: map<int, RecipeRow>, next: int) {
    forall i :: i in recipes ==> recipes[i].rowId < next
  }

  ghost predicate ScoresAllowed(ratedItems: map<int, RatedItemRow>) {
    forall i :: i in ratedItems ==> ScoreAllowed(ratedItems[i].score)
  }

  ghost predicate LinksNamed(itemTags: set<(int, string)>, tags: set<string>) {
    forall p :: p in itemTags ==> p.1 in tags
  }

  ghost predicate NamesNormal(tags: set<string>) {
    forall n :: n in tags ==> n != "" && Normalize(n) == n
  }

  // ---- Reading items ----

  /** The extension row a JOIN on the table of `kind` finds for `id`; checklists and rated lists are selected by type instead. */
  datatype ExtRow =
    | BookmarkExt(bookmark: BookmarkRow)
    | NoteExt(content: string)
    | MediaExt(media: MediaRow)
    | DrawingExt(filePath: string)
    | RecipeExt(recipe: RecipeRow)
    | NoExt

  function ExtOf(db: Db, kind: Kind, id: int): Option<ExtRow> {
    match kind
    case Bookmark => if id in db.bookmarks then Some(BookmarkExt(db.bookmarks[id])) else None
    case Note => if id in db.notes then Some(NoteExt(db.notes[id])) else None
    case Media => if id in db.media then Some(MediaExt(db.media[id])) else None
    case Drawing => if id in db.drawings then Some(DrawingExt(db.drawings[id])) else None
    case Recipe => if id in db.recipes then Some(RecipeExt(db.recipes[id])) else None
    case List => if id in db.items && db.items[id].kind == List then Some(NoExt) else None
    case RatedList => if id in db.items && db.items[id].kind == RatedList then Some(NoExt) else None
  }

  /** `userId` may see item `id` through the reader of `kind`: the item exists, is theirs, and the reader's table has its row. */
  predicate Visible(db: Db, userId: int, kind: Kind, id: int) {
    id in db.items && db.items[id].userId == userId && ExtOf(db, kind, id).Some?
  }

  /** The rows a listing returns: visible, and linked to the tag named exactly `filter` when the filter is not empty. */
  predicate Listed(db: Db, userId: int, kind: Kind, filter: string, id: int) {
    Visible(db, userId, kind, id) && (filter == "" || (id, filter) in db.itemTags)
  }

  function ListedIds(db: Db, userId: int, kind: Kind, filter: string): set<int> {
    set i | i in db.items && Listed(db, userId, kind, filter, i)
  }

  /** The tag names linked to `id`. */
  function ItemTagNames(db: Db, id: int): set<string> {
    set p | p in db.itemTags && p.0 == id :: p.1
  }

  /** The `recipe_images` rows filed under `recipeId`. */
  function ImageIds(db: Db, recipeId: int): set<int> {
    set i | i in db.images && db.images[i].recipeId == recipeId
  }

  /** The entries of checklist `listId`. */
  function ListItemIds(db: Db, listId: int): set<int> {
    set i | i in db.listItems && db.listItems[i].listId == listId
  }

  /** The entries of rated list `listId`. */
  function RatedItemIds(db: Db, listId: int): set<int> {
    set i | i in db.ratedItems && db.ratedItems[i].listId == listId
  }

  // ---- Tag statistics ----

  /** The items of `userId` that carry tag `name`. */
  function TaggedItems(db: Db, userId: int, name: string): set<int> {
    set i | i in db.items && db.items[i].userId == userId && (i, name) in db.itemTags
  }

  /** The count GetTagsWithCounts reports for `name`. */
  function TagCount(db: Db, userId: int, name: string): nat {
    |TaggedItems(db, userId, name)|
  }

  /** The tag names carried by at least one item of `userId`. */
  function UserTags(db: Db, userId: int): set<string> {
    set p | p in db.itemTags && p.0 in db.items && db.items[p.0].userId == userId :: p.1
  }

  // ---- Creating items ----

  /** What a Create* call stores besides the `items` row. */
  datatype NewItem =
    | NewBookmark(url: string, description: string, favicon: string, thumbnail: string)
    | NewNote(content: string)
    | NewMedia(filePath: string, mimeType: string)
    | NewDrawing(filePath: string)
    | NewRecipe(ingredients: string, instructions: string, notes: string, thumbnail: string, sourceUrl: string, imagePaths: seq<string>)
    | NewList
    | NewRatedList

  function KindOf(p: NewItem): Kind {
    match p
    case NewBookmark(_, _, _, _) => Bookmark
    case NewNote(_) => Note
    case NewMedia(_, _) => Media
    case NewDrawing(_) => Drawing
    case NewRecipe(_, _, _, _, _, _) => Recipe
    case NewList => List
    case NewRatedList => RatedList
  }

  /** One `recipe_images` row per path, with keys from `next` on and the default display order 0. */
  function AddImages(images: map<int, ImageRow>, next: int, recipeId: int, paths: seq<string>): map<int, ImageRow>
    decreases |paths|
  {
    if paths == [] then images
    else AddImages(images, next, recipeId, paths[..|paths| - 1])[next + |paths| - 1 := ImageRow(recipeId, paths[|paths| - 1], 0)]
  }

  /** The state after a successful Create*: the new item takes the next id, and recipe images are filed under that item id. */
  function Create(db: Db, userId: int, title: string, p: NewItem, now: int): Db {
    var id := db.nextItem;
    var d := db.(items := db.items[id := ItemRow(userId, title, KindOf(p), now, now)], nextItem := id + 1);
    match p
    case NewBookmark(url, description, favicon, thumbnail) =>
      d.(bookmarks := d.bookmarks[id := BookmarkRow(url, description, favicon, thumbnail)])
    case NewNote(content) => d.(notes := d.notes[id := content])
    case NewMedia(filePath, mimeType) => d.(media := d.media[id := MediaRow(filePath, mimeType)])
    case NewDrawing(filePath) => d.(drawings := d.drawings[id := filePath])
    case NewRecipe(ingredients, instructions, notes, thumbnail, sourceUrl, paths) =>
      d.(recipes := d.recipes[id := RecipeRow(d.nextRecipe, ingredients, instructions, notes, thumbnail, sourceUrl)],
         nextRecipe := d.nextRecipe + 1,
         images := AddImages(d.images, d.nextImage, id, paths),
         nextImage := d.nextImage + |paths|)
    case NewList => d
    case NewRatedList => d
  }

  /** The extension row the new item gets. */
  function ExtFor(db: Db, p: NewItem): ExtRow {
    match p
    case NewBookmark(url, description, favicon, thumbnail) => BookmarkExt(BookmarkRow(url, description, favicon, thumbnail))
    case NewNote(content) => NoteExt(content)
    case NewMedia(filePath, mimeType) => MediaExt(MediaRow(filePath, mimeType))
    case NewDrawing(filePath) => DrawingExt(filePath)
    case NewRecipe(ingredients, instructions, notes, thumbnail, sourceUrl, _) =>
      RecipeExt(RecipeRow(db.nextRecipe, ingredients, instructions, notes, thumbnail, sourceUrl))
    case NewList => NoExt
    case NewRatedList => NoExt
  }

  // ---- Updating items ----

  /** `UPDATE items SET title, updated_at WHERE id = ?`, with `AND user_id = ?` when an owner is given. */
  function Retitle(items: map<int, ItemRow>, id: int, owner: Option<int>, title: string, now: int): map<int, ItemRow> {
    if id in items && (owner.None? || items[id].userId == owner.value)
    then items[id := items[id].(title := title, updatedAt := now)]
    else items
  }

  /** UpdateDrawing: no owner condition, and the file path only when a new one is given. */
  function UpdateDrawing(db: Db, id: int, title: string, filePath: string, now: int): Db {
    db.(items := Retitle(db.items, id, None, title, now),
        drawings := if filePath != "" && id in db.drawings then db.drawings[id := filePath] else db.drawings)
  }

  /** UpdateBookmark: the title only for the owner, url and description whoever asks. */
  function UpdateBookmark(db: Db, userId: int, id: int, title: string, url: string, description: string, now: int): Db {
    db.(items := Retitle(db.items, id, Some(userId), title, now),
        bookmarks := if id in db.bookmarks then db.bookmarks[id := db.bookmarks[id].(url := url, description := description)] else db.bookmarks)
  }

  /** UpdateNote: the title only for the owner, the content whoever asks. */
  function UpdateNote(db: Db, userId: int, id: int, title: string, content: string, now: int): Db {
    db.(items := Retitle(db.items, id, Some(userId), title, now),
        notes := if id in db.notes then db.notes[id := content] else db.notes)
  }

  /** UpdateRecipe: the title only for the owner, the recipe columns whoever asks; the recipe keeps its row id. */
  function UpdateRecipe(db: Db, userId: int, id: int, title: string, ingredients: string, instructions: string,
                        notes: string, thumbnail: string, sourceUrl: string, now: int): Db {
    db.(items := Retitle(db.items, id, Some(userId), title, now),
        recipes := if id in db.recipes
                   then db.recipes[id := RecipeRow(db.recipes[id].rowId, ingredients, instructions, notes, thumbnail, sourceUrl)]
                   else db.recipes)
  }

  // ---- Deleting items ----

  predicate Owns(db: Db, userId: int, id: int) {
    id in db.items && db.items[id].userId == userId
  }

  /**
   * DeleteItem: the `items` row goes only when both id and owner match. With
   * `cascade` the schema's ON DELETE CASCADE clauses fire too: the extension
   * rows, the recipe's images (by recipe row id), checklist and rated-list
   * entries and the item's tag links go with it; tag names stay.
   */
  function Delete(db: Db, userId: int, id: int, cascade: bool): Db {
    if !Owns(db, userId, id) then db
    else if !cascade then db.(items := db.items - {id})
    else
      var rowIds := if id in db.recipes then {db.recipes[id].rowId} else {};
      db.(items := db.items - {id},
          bookmarks := db.bookmarks - {id},
          notes := db.notes - {id},
          media := db.media - {id},
          drawings := db.drawings - {id},
          recipes := db.recipes - {id},
          images := map i | i in db.images && db.images[i].recipeId !in rowIds :: db.images[i],
          listItems := map i | i in db.listItems && db.listItems[i].listId != id :: db.listItems[i],
          ratedItems := map i | i in db.ratedItems && db.ratedItems[i].listId != id :: db.ratedItems[i],
          itemTags := set p | p in db.itemTags && p.0 != id)
  }

  // ---- Tags ----

  /** The normalised, non-empty names of `ts`. */
  function NormSet(ts: seq<string>): set<string> {
    set t | t in ts && Normalize(t) != "" :: Normalize(t)
  }

  /** The `item_tags` rows linking `id` to each of `names`. */
  function LinksTo(id: int, names: set<string>): set<(int, string)> {
    set n | n in names :: (id, n)
  }

  /** SetItemTags: the item's links are replaced by links to the normalised names, which join the vocabulary. */
  function SetTags(db: Db, id: int, ts: seq<string>): Db {
    db.(tags := db.tags + NormSet(ts),
        itemTags := (set p | p in db.itemTags && p.0 != id) + LinksTo(id, NormSet(ts)))
  }

  // ---- Checklist and rated-list entries ----

  function AddListItem(db: Db, listId: int, content: string): Db {
    db.(listItems := db.listItems[db.nextListItem := ListItemRow(listId, content, false)],
        nextListItem := db.nextListItem + 1)
  }

  function UpdateListItem(db: Db, id: int, content: string): Db {
    if id in db.listItems then db.(listItems := db.listItems[id := db.listItems[id].(content := content)]) else db
  }

  function ToggleListItem(db: Db, id: int, completed: bool): Db {
    if id in db.listItems then db.(listItems := db.listItems[id := db.listItems[id].(completed := completed)]) else db
  }

  function DeleteListItem(db: Db, id: int): Db {
    db.(listItems := db.listItems - {id})
  }

  function AddRatedItem(db: Db, listId: int, title: string, score: int, note: string): Db {
    db.(ratedItems := db.ratedItems[db.nextRatedItem := RatedItemRow(listId, title, score, note)],
        nextRatedItem := db.nextRatedItem + 1)
  }

  function UpdateRatedItem(db: Db, id: int, title: string, score: int, note: string): Db {
    if id in db.ratedItems
    then db.(ratedItems := db.ratedItems[id := RatedItemRow(db.ratedItems[id].listId, title, score, note)])
    else db
  }

  function DeleteRatedItem(db: Db, id: int): Db {
    db.(ratedItems := db.ratedItems - {id})
  }

  // ---- Recipe images ----

  function AddRecipeImage(db: Db, recipeId: int, filePath: string, order: int): Db {
    db.(images := db.images[db.nextImage := ImageRow(recipeId, filePath, order)], nextImage := db.nextImage + 1)
  }

  function DeleteRecipeImage(db: Db, recipeId: int, filePath: string): Db {
    db.(images := map i | i in db.images && !(db.images[i].recipeId == recipeId && db.images[i].filePath == filePath) :: db.images[i])
  }
}
