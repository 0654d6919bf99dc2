/**
 * The item store: one object whose fields are the tables, and one method per
 * exported function of the database layer. Every method that writes is
 * specified by the corresponding table function in Tables, every reader
 * by the rows it must return.
 *
 * Storage failures are a parameter: `io` names the statement, counted from 0
 * in execution order with Begin and Commit included, at which the database
 * reports an error. A transaction that fails is rolled back, a single
 * statement that fails changes nothing, so a failing call always leaves the
 * tables as they were. The clock is a parameter too (`now`, the value
 * CURRENT_TIMESTAMP takes).
 */
module Store {
  import opened Wrappers
  import opened Strings
  import opened Sorting
  import opened Tables
  import opened TableLaws

  datatype DbError =
    | NoRows            // sql.ErrNoRows from a single-row query
    | ConstraintFailed  // a CHECK constraint rejected the row
    | QueryFailed       // the statement does not compile
    | StorageFailed     // the database reported an error while executing

  datatype Io = Reliable | FailsAt(step: nat) {
    predicate Fails(k: nat) {
      FailsAt? && step == k
    }

    /** One of the first `n` statements fails. */
    predicate FailsWithin(n: nat) {
      FailsAt? && step < n
    }
  }

  /** One row as the readers hand it out: the `items` row, the joined extension row, its tag names and, for a recipe, its image paths. */
  datatype View = View(id: int, item: ItemRow, ext: ExtRow, tags: seq<string>, images: seq<string>)

  datatype TagCountRow = TagCountRow(name: string, count: int)

  // ---- The ORDER BY clauses of the readers ----

  /** `ORDER BY i.created_at DESC` */
  function NewestFirst(a: (int, ItemRow), b: (int, ItemRow)): bool {
    a.1.createdAt >= b.1.createdAt
  }

  /** `ORDER BY completed ASC, id ASC` */
  function OpenFirst(a: (int, ListItemRow), b: (int, ListItemRow)): bool {
    (!a.1.completed && b.1.completed) || (a.1.completed == b.1.completed && a.0 <= b.0)
  }

  /** `ORDER BY score DESC, title ASC` */
  function BestFirst(a: (int, RatedItemRow), b: (int, RatedItemRow)): bool {
    a.1.score > b.1.score || (a.1.score == b.1.score && StrLe(a.1.title, b.1.title))
  }

  /** `ORDER BY display_order` */
  function ByDisplayOrder(a: (int, ImageRow), b: (int, ImageRow)): bool {
    a.1.displayOrder <= b.1.displayOrder
  }

  /** `ORDER BY count DESC` */
  function MostUsedFirst(a: TagCountRow, b: TagCountRow): bool {
    a.count >= b.count
  }

  lemma OrdersArePreorders()
    ensures Total(NewestFirst) && Transitive(NewestFirst)
    ensures Total(OpenFirst) && Transitive(OpenFirst)
    ensures Total(ByDisplayOrder) && Transitive(ByDisplayOrder)
    ensures Total(MostUsedFirst) && Transitive(MostUsedFirst)
  {
  }

  lemma BestFirstIsPreorder()
    ensures Total(BestFirst) && Transitive(BestFirst)
  {
    forall a: (int, RatedItemRow), b: (int, RatedItemRow)
      ensures BestFirst(a, b) || BestFirst(b, a)
    {
      StrLeTotal(a.1.title, b.1.title);
    }
    forall a: (int, RatedItemRow), b: (int, RatedItemRow), c: (int, RatedItemRow) | BestFirst(a, b) && BestFirst(b, c)
      ensures BestFirst(a, c)
    {
      if a.1.score == b.1.score && b.1.score == c.1.score {
        StrLeTransitive(a.1.title, b.1.title, c.1.title);
      }
    }
  }

  lemma StrLeIsPreorder()
    ensures Total(StrLe) && Transitive(StrLe)
  {
    forall a: string, b: string
      ensures StrLe(a, b) || StrLe(b, a)
    {
      StrLeTotal(a, b);
    }
    forall a: string, b: string, c: string | StrLe(a, b) && StrLe(b, c)
      ensures StrLe(a, c)
    {
      StrLeTransitive(a, b, c);
    }
  }

  /** The image paths of `recipeId` in display order: the paths of its image rows, sorted. */
  ghost predicate ImagesInOrder(db: Db, recipeId: int, paths: seq<string>) {
    exists rows: seq<(int, ImageRow)> ::
      RowsOf(rows, ImageIds(db, recipeId), db.images) && SortedBy(rows, ByDisplayOrder)
      && |paths| == |rows| && (forall k :: 0 <= k < |rows| ==> paths[k] == rows[k].1.filePath)
  }

  /** A view of item `v.id` as the reader of `kind` builds it. */
  ghost predicate ViewOf(db: Db, kind: Kind, v: View) {
    v.id in db.items && v.item == db.items[v.id] && ExtOf(db, kind, v.id) == Some(v.ext)
    && Enumerates(v.tags, ItemTagNames(db, v.id))
  }

  /** `views` are the views of `rows`, position by position. */
  ghost predicate ViewsOf(db: Db, kind: Kind, rows: seq<(int, ItemRow)>, views: seq<View>) {
    |views| == |rows|
    && forall j :: 0 <= j < |rows| ==>
         views[j].id == rows[j].0 && views[j].item == rows[j].1 && ViewOf(db, kind, views[j]) && views[j].images == []
  }

  /** Row `k` of a listing is an item with a row in the reader's table. */
  lemma ListedRow(db: Db, userId: int, kind: Kind, filter: string, rows: seq<(int, ItemRow)>, k: int)
    requires RowsOf(rows, ListedIds(db, userId, kind, filter), db.items) && 0 <= k < |rows|
    ensures rows[k].0 in db.items && rows[k].1 == db.items[rows[k].0] && ExtOf(db, kind, rows[k].0).Some?
  {
    assert rows[k] in rows;
  }

  lemma ViewsSnoc(db: Db, kind: Kind, rows: seq<(int, ItemRow)>, k: int, views: seq<View>, v: View)
    requires 0 <= k < |rows| && ViewsOf(db, kind, rows[..k], views)
    requires v.id == rows[k].0 && v.item == rows[k].1 && ViewOf(db, kind, v) && v.images == []
    ensures ViewsOf(db, kind, rows[..k + 1], views + [v])
  {
  }

  /** Views of the listed rows, newest first, are what a listing promises. */
  lemma ListingFacts(db: Db, userId: int, kind: Kind, filter: string, rows: seq<(int, ItemRow)>, views: seq<View>)
    requires RowsOf(rows, ListedIds(db, userId, kind, filter), db.items) && SortedBy(rows, NewestFirst)
    requires ViewsOf(db, kind, rows, views)
    ensures |views| == |ListedIds(db, userId, kind, filter)|
    ensures forall v :: v in views ==> v.id in ListedIds(db, userId, kind, filter) && ViewOf(db, kind, v) && v.images == []
    ensures forall i :: i in ListedIds(db, userId, kind, filter) ==> exists k :: 0 <= k < |views| && views[k].id == i
    ensures forall a, b :: 0 <= a < b < |views| ==> views[a].item.createdAt >= views[b].item.createdAt
  {
    forall a, b | 0 <= a < b < |views|
      ensures views[a].item.createdAt >= views[b].item.createdAt
    {
      assert NewestFirst(rows[a], rows[b]);
    }
    forall v | v in views
      ensures v.id in ListedIds(db, userId, kind, filter) && ViewOf(db, kind, v) && v.images == []
    {
      var j :| 0 <= j < |views| && views[j] == v;
      assert rows[j] in rows;
    }
    forall i | i in ListedIds(db, userId, kind, filter)
      ensures exists k :: 0 <= k < |views| && views[k].id == i
    {
      var k :| 0 <= k < |rows| && rows[k].0 == i;
      assert views[k].id == i;
    }
  }

  /** The number of names SetItemTags writes: those that are not empty once normalised, duplicates included. */
  function NamedCount(ts: seq<string>): nat {
    if ts == [] then 0 else NamedCount(ts[..|ts| - 1]) + (if Normalize(ts[|ts| - 1]) != "" then 1 else 0)
  }

  lemma NormSetSnoc(ts: seq<string>, k: int)
    requires 0 <= k < |ts|
    ensures NormSet(ts[..k + 1]) == NormSet(ts[..k]) + (if Normalize(ts[k]) != "" then {Normalize(ts[k])} else {})
  {
    assert ts[..k + 1] == ts[..k] + [ts[k]];
  }

  lemma LinksToAdd(id: int, names: set<string>, n: string)
    ensures LinksTo(id, names + {n}) == LinksTo(id, names) + {(id, n)}
  {
  }

  /**
   * The image INSERTs of CreateRecipe, statements `first` to
   * `first + |paths| - 1` of its transaction: `failed` when one of them fails.
   */
  method InsertImages(images: map<int, ImageRow>, next: int, recipeId: int, paths: seq<string>, io: Io, first: nat)
    returns (images': map<int, ImageRow>, failed: bool)
    requires !io.FailsWithin(first)
    ensures failed <==> io.FailsWithin(first + |paths|)
    ensures !failed ==> images' == AddImages(images, next, recipeId, paths)
  {
    images' := images;
    for k := 0 to |paths|
      invariant images' == AddImages(images, next, recipeId, paths[..k])
      invariant !io.FailsWithin(first + k)
    {
      assert paths[..k + 1][..k] == paths[..k];
      images' := images'[next + k := ImageRow(recipeId, paths[k], 0)];
      if io.Fails(first + k) { return images', true; }
    }
    assert paths[..|paths|] == paths;
    failed := false;
  }

  /**
   * The tag loop of SetItemTags: for each name that is not empty once
   * lower-cased and trimmed, an INSERT OR IGNORE into the vocabulary and one
   * into the item's links.
   */
  method InsertTags(tags: set<string>, links: set<(int, string)>, itemId: int, ts: seq<string>)
    returns (tags': set<string>, links': set<(int, string)>)
    ensures tags' == tags + NormSet(ts) && links' == links + LinksTo(itemId, NormSet(ts))
  {
    tags', links' := tags, links;
    for k := 0 to |ts|
      invariant TagsWritten(tags, links, itemId, ts[..k], tags', links')
    {
      var tagName := Normalize(ts[k]);
      TagStep(tags, links, itemId, ts, k, tags', links');
      if tagName != "" {
        tags', links' := tags' + {tagName}, links' + {(itemId, tagName)};
      }
    }
    assert ts[..|ts|] == ts;
  }

  /** After the names `done`, the vocabulary and the links hold their normalised forms. */
  ghost predicate TagsWritten(tags: set<string>, links: set<(int, string)>, itemId: int, done: seq<string>,
                              tags': set<string>, links': set<(int, string)>) {
    tags' == tags + NormSet(done) && links' == links + LinksTo(itemId, NormSet(done))
  }

  lemma TagStep(tags: set<string>, links: set<(int, string)>, itemId: int, ts: seq<string>, k: int,
                tags': set<string>, links': set<(int, string)>)
    requires 0 <= k < |ts| && TagsWritten(tags, links, itemId, ts[..k], tags', links')
    ensures Normalize(ts[k]) != "" ==>
      TagsWritten(tags, links, itemId, ts[..k + 1], tags' + {Normalize(ts[k])}, links' + {(itemId, Normalize(ts[k]))})
    ensures Normalize(ts[k]) == "" ==> TagsWritten(tags, links, itemId, ts[..k + 1], tags', links')
  {
    NormSetSnoc(ts, k);
    LinksToAdd(itemId, NormSet(ts[..k]), Normalize(ts[k]));
  }

  /**
   * The store. The tables are one value, `tables`; every method that writes
   * keeps them `Consistent` and states the new value through the table
   * function it implements.
   */
  class Store {
    var tables: Db

    /**
     * Whether the schema's ON DELETE CASCADE clauses fire. SQLite enforces
     * foreign keys only when asked to, and the store never asks, so a real
     * store has `cascade == false`; `true` describes the schema as declared.
     */
    const cascade: bool

    constructor(cascade: bool)
      ensures Consistent(tables)
      ensures tables == Empty() && this.cascade == cascade
    {
      tables := Empty();
      this.cascade := cascade;
    }

    // ---- Creating items ----

    method CreateBookmark(userId: int, title: string, url: string, description: string, favicon: string, thumbnail: string,
                          now: int, io: Io) returns (r: Result<int, DbError>)
      requires Consistent(tables)
      modifies this
      ensures Consistent(tables)
      ensures r.Ok? ==> (r.value == old(tables.nextItem)
        && tables == Create(old(tables), userId, title, NewBookmark(url, description, favicon, thumbnail), now))
      ensures r.Err? ==> r.error == StorageFailed && tables == old(tables)
      ensures r.Err? <==> io.FailsWithin(4)
    {
      if io.Fails(0) { return Err(StorageFailed); }
      CreateConsistent(tables, userId, title, NewBookmark(url, description, favicon, thumbnail), now);
      var itemId := tables.nextItem;
      var items' := tables.items[itemId := ItemRow(userId, title, Bookmark, now, now)];
      if io.Fails(1) { return Err(StorageFailed); }
      var bookmarks' := tables.bookmarks[itemId := BookmarkRow(url, description, favicon, thumbnail)];
      if io.Fails(2) { return Err(StorageFailed); }
      if io.Fails(3) { return Err(StorageFailed); }
      tables := tables.(items := items', bookmarks := bookmarks', nextItem := itemId + 1);
      return Ok(itemId);
    }

    method CreateNote(userId: int, title: string, content: string, now: int, io: Io) returns (r: Result<int, DbError>)
      requires Consistent(tables)
      modifies this
      ensures Consistent(tables)
      ensures r.Ok? ==> r.value == old(tables.nextItem) && tables == Create(old(tables), userId, title, NewNote(content), now)
      ensures r.Err? ==> r.error == StorageFailed && tables == old(tables)
      ensures r.Err? <==> io.FailsWithin(4)
    {
      if io.Fails(0) { return Err(StorageFailed); }
      CreateConsistent(tables, userId, title, NewNote(content), now);
      var itemId := tables.nextItem;
      var items' := tables.items[itemId := ItemRow(userId, title, Note, now, now)];
      if io.Fails(1) { return Err(StorageFailed); }
      var notes' := tables.notes[itemId := content];
      if io.Fails(2) { return Err(StorageFailed); }
      if io.Fails(3) { return Err(StorageFailed); }
      tables := tables.(items := items', notes := notes', nextItem := itemId + 1);
      return Ok(itemId);
    }

    method CreateMedia(userId: int, title: string, filePath: string, mimeType: string, now: int, io: Io)
      returns (r: Result<int, DbError>)
      requires Consistent(tables)
      modifies this
      ensures Consistent(tables)
      ensures r.Ok? ==> r.value == old(tables.nextItem) && tables == Create(old(tables), userId, title, NewMedia(filePath, mimeType), now)
      ensures r.Err? ==> r.error == StorageFailed && tables == old(tables)
      ensures r.Err? <==> io.FailsWithin(4)
    {
      if io.Fails(0) { return Err(StorageFailed); }
      CreateConsistent(tables, userId, title, NewMedia(filePath, mimeType), now);
      var itemId := tables.nextItem;
      var items' := tables.items[itemId := ItemRow(userId, title, Media, now, now)];
      if io.Fails(1) { return Err(StorageFailed); }
      var media' := tables.media[itemId := MediaRow(filePath, mimeType)];
      if io.Fails(2) { return Err(StorageFailed); }
      if io.Fails(3) { return Err(StorageFailed); }
      tables := tables.(items := items', media := media', nextItem := itemId + 1);
      return Ok(itemId);
    }

    method CreateDrawing(userId: int, title: string, filePath: string, now: int, io: Io) returns (r: Result<int, DbError>)
      requires Consistent(tables)
      modifies this
      ensures Consistent(tables)
      ensures r.Ok? ==> r.value == old(tables.nextItem) && tables == Create(old(tables), userId, title, NewDrawing(filePath), now)
      ensures r.Err? ==> r.error == StorageFailed && tables == old(tables)
      ensures r.Err? <==> io.FailsWithin(4)
    {
      if io.Fails(0) { return Err(StorageFailed); }
      CreateConsistent(tables, userId, title, NewDrawing(filePath), now);
      var itemId := tables.nextItem;
      var items' := tables.items[itemId := ItemRow(userId, title, Drawing, now, now)];
      if io.Fails(1) { return Err(StorageFailed); }
      var drawings' := tables.drawings[itemId := filePath];
      if io.Fails(2) { return Err(StorageFailed); }
      if io.Fails(3) { return Err(StorageFailed); }
      tables := tables.(items := items', drawings := drawings', nextItem := itemId + 1);
      return Ok(itemId);
    }

    /** The item row, the recipe row and one image row per path, in one transaction; the images are filed under the item id. */
    method CreateRecipe(userId: int, title: string, ingredients: string, instructions: string, notes: string,
                        thumbnail: string, sourceUrl: string, imagePaths: seq<string>, now: int, io: Io)
      returns (r: Result<int, DbError>)
      requires Consistent(tables)
      modifies this
      ensures Consistent(tables)
      ensures r.Ok? ==> (r.value == old(tables.nextItem)
        && tables == Create(old(tables), userId, title, NewRecipe(ingredients, instructions, notes, thumbnail, sourceUrl, imagePaths), now))
      ensures r.Err? ==> r.error == StorageFailed && tables == old(tables)
      ensures r.Err? <==> io.FailsWithin(4 + |imagePaths|)
    {
      if io.Fails(0) { return Err(StorageFailed); }
      CreateConsistent(tables, userId, title, NewRecipe(ingredients, instructions, notes, thumbnail, sourceUrl, imagePaths), now);
      CreateRecipeRows(tables, userId, title, NewRecipe(ingredients, instructions, notes, thumbnail, sourceUrl, imagePaths), now);
      var itemId := tables.nextItem;
      var items' := tables.items[itemId := ItemRow(userId, title, Recipe, now, now)];
      if io.Fails(1) { return Err(StorageFailed); }
      var recipes' := tables.recipes[itemId := RecipeRow(tables.nextRecipe, ingredients, instructions, notes, thumbnail, sourceUrl)];
      if io.Fails(2) { return Err(StorageFailed); }
      var images', failed := InsertImages(tables.images, tables.nextImage, itemId, imagePaths, io, 3);
      if failed { return Err(StorageFailed); }
      if io.Fails(3 + |imagePaths|) { return Err(StorageFailed); }
      tables := tables.(items := items', recipes := recipes', nextRecipe := tables.nextRecipe + 1,
                        images := images', nextImage := tables.nextImage + |imagePaths|, nextItem := itemId + 1);
      return Ok(itemId);
    }

    /** A checklist is only its `items` row, written by one statement. */
    method CreateList(userId: int, title: string, now: int, io: Io) returns (r: Result<int, DbError>)
      requires Consistent(tables)
      modifies this
      ensures Consistent(tables)
      ensures r.Ok? ==> r.value == old(tables.nextItem) && tables == Create(old(tables), userId, title, NewList, now)
      ensures r.Err? ==> r.error == StorageFailed && tables == old(tables)
      ensures r.Err? <==> io.FailsWithin(1)
    {
      if io.Fails(0) { return Err(StorageFailed); }
      CreateConsistent(tables, userId, title, NewList, now);
      var itemId := tables.nextItem;
      tables := tables.(items := tables.items[itemId := ItemRow(userId, title, List, now, now)], nextItem := itemId + 1);
      return Ok(itemId);
    }

    method CreateRatedList(userId: int, title: string, now: int, io: Io) returns (r: Result<int, DbError>)
      requires Consistent(tables)
      modifies this
      ensures Consistent(tables)
      ensures r.Ok? ==> r.value == old(tables.nextItem) && tables == Create(old(tables), userId, title, NewRatedList, now)
      ensures r.Err? ==> r.error == StorageFailed && tables == old(tables)
      ensures r.Err? <==> io.FailsWithin(1)
    {
      if io.Fails(0) { return Err(StorageFailed); }
      CreateConsistent(tables, userId, title, NewRatedList, now);
      var itemId := tables.nextItem;
      tables := tables.(items := tables.items[itemId := ItemRow(userId, title, RatedList, now, now)], nextItem := itemId + 1);
      return Ok(itemId);
    }

    // ---- Reading items ----

    /** GetItemTags: each tag name of the item once, in no promised order. */
    method GetItemTags(itemId: int) returns (names: seq<string>)
      ensures Enumerates(names, ItemTagNames(tables, itemId))
    {
      names := Enumerate(ItemTagNames(tables, itemId));
    }

    /** GetRecipeImages: the paths filed under `recipeId`, by display order. */
    method GetRecipeImages(recipeId: int) returns (paths: seq<string>)
      ensures ImagesInOrder(tables, recipeId, paths)
    {
      OrdersArePreorders();
      var rows := SortedRows(tables.images, ImageIds(tables, recipeId), ByDisplayOrder);
      paths := [];
      for k := 0 to |rows|
        invariant |paths| == k
        invariant forall j :: 0 <= j < k ==> paths[j] == rows[j].1.filePath
      {
        paths := paths + [rows[k].1.filePath];
      }
    }

    /**
     * GetBookmark, GetNote, GetDrawing and GetRecipe: the row when it exists
     * and belongs to the caller, sql.ErrNoRows otherwise. A recipe comes with
     * the images filed under its item id.
     */
    method GetItem(userId: int, kind: Kind, id: int) returns (r: Result<View, DbError>)
      requires kind == Bookmark || kind == Note || kind == Drawing || kind == Recipe
      ensures r.Ok? <==> Visible(tables, userId, kind, id)
      ensures r.Err? ==> r.error == NoRows
      ensures r.Ok? ==> r.value.id == id && ViewOf(tables, kind, r.value)
      ensures r.Ok? && kind == Recipe ==> ImagesInOrder(tables, id, r.value.images)
      ensures r.Ok? && kind != Recipe ==> r.value.images == []
    {
      if !Visible(tables, userId, kind, id) {
        return Err(NoRows);
      }
      var names := GetItemTags(id);
      var paths := [];
      if kind == Recipe {
        paths := GetRecipeImages(id);
      }
      r := Ok(View(id, tables.items[id], ExtOf(tables, kind, id).value, names, paths));
    }

    /**
     * GetBookmarks, GetNotes, GetMedia, GetDrawings, GetRecipes, GetLists and
     * GetRatedLists: the caller's rows of that kind, only those tagged
     * `filter` when it is not empty, newest first. The media reader's tag
     * subquery does not compile, so it fails whenever a filter is given.
     */
    method Listing(userId: int, kind: Kind, filter: string) returns (r: Result<seq<View>, DbError>)
      ensures r.Err? <==> kind == Media && filter != ""
      ensures r.Err? ==> r.error == QueryFailed
      ensures r.Ok? ==> |r.value| == |ListedIds(tables, userId, kind, filter)|
      ensures r.Ok? ==> forall v :: v in r.value ==>
                          v.id in ListedIds(tables, userId, kind, filter) && ViewOf(tables, kind, v) && v.images == []
      ensures r.Ok? ==> forall i :: i in ListedIds(tables, userId, kind, filter) ==>
                          exists k :: 0 <= k < |r.value| && r.value[k].id == i
      ensures r.Ok? ==> forall a, b :: 0 <= a < b < |r.value| ==> r.value[a].item.createdAt >= r.value[b].item.createdAt
    {
      if kind == Media && filter != "" {
        return Err(QueryFailed);
      }
      var db := tables;
      OrdersArePreorders();
      var rows := SortedRows(db.items, ListedIds(db, userId, kind, filter), NewestFirst);
      var views: seq<View> := [];
      for k := 0 to |rows|
        invariant ViewsOf(db, kind, rows[..k], views)
      {
        var (id, item) := rows[k];
        ListedRow(db, userId, kind, filter, rows, k);
        var names := GetItemTags(id);
        var v := View(id, item, ExtOf(db, kind, id).value, names, []);
        ViewsSnoc(db, kind, rows, k, views, v);
        views := views + [v];
      }
      assert rows[..|rows|] == rows;
      ListingFacts(db, userId, kind, filter, rows, views);
      return Ok(views);
    }

    // ---- Updating items ----

    method UpdateDrawing(id: int, title: string, filePath: string, now: int, io: Io) returns (r: Result<(), DbError>)
      requires Consistent(tables)
      modifies this
      ensures Consistent(tables)
      ensures r.Ok? ==> tables == Tables.UpdateDrawing(old(tables), id, title, filePath, now)
      ensures r.Err? ==> r.error == StorageFailed && tables == old(tables)
      ensures r.Err? <==> io.FailsWithin(if filePath != "" then 4 else 3)
    {
      if io.Fails(0) { return Err(StorageFailed); }
      UpdateDrawingConsistent(tables, id, title, filePath, now);
      var items := tables.items;
      if id in items {
        items := items[id := items[id].(title := title, updatedAt := now)];
      }
      if io.Fails(1) { return Err(StorageFailed); }
      var drawings := tables.drawings;
      var step := 2;
      if filePath != "" {
        if id in drawings {
          drawings := drawings[id := filePath];
        }
        if io.Fails(2) { return Err(StorageFailed); }
        step := 3;
      }
      if io.Fails(step) { return Err(StorageFailed); }
      tables := tables.(items := items, drawings := drawings);
      return Ok(());
    }

    method UpdateBookmark(userId: int, id: int, title: string, url: string, description: string, now: int, io: Io)
      returns (r: Result<(), DbError>)
      requires Consistent(tables)
      modifies this
      ensures Consistent(tables)
      ensures r.Ok? ==> tables == Tables.UpdateBookmark(old(tables), userId, id, title, url, description, now)
      ensures r.Err? ==> r.error == StorageFailed && tables == old(tables)
      ensures r.Err? <==> io.FailsWithin(4)
    {
      if io.Fails(0) { return Err(StorageFailed); }
      UpdateBookmarkConsistent(tables, userId, id, title, url, description, now);
      var items := tables.items;
      if id in items && items[id].userId == userId {
        items := items[id := items[id].(title := title, updatedAt := now)];
      }
      if io.Fails(1) { return Err(StorageFailed); }
      var bookmarks := tables.bookmarks;
      if id in bookmarks {
        bookmarks := bookmarks[id := bookmarks[id].(url := url, description := description)];
      }
      if io.Fails(2) { return Err(StorageFailed); }
      if io.Fails(3) { return Err(StorageFailed); }
      tables := tables.(items := items, bookmarks := bookmarks);
      return Ok(());
    }

    method UpdateNote(userId: int, id: int, title: string, content: string, now: int, io: Io) returns (r: Result<(), DbError>)
      requires Consistent(tables)
      modifies this
      ensures Consistent(tables)
      ensures r.Ok? ==> tables == Tables.UpdateNote(old(tables), userId, id, title, content, now)
      ensures r.Err? ==> r.error == StorageFailed && tables == old(tables)
      ensures r.Err? <==> io.FailsWithin(4)
    {
      if io.Fails(0) { return Err(StorageFailed); }
      UpdateNoteConsistent(tables, userId, id, title, content, now);
      var items := tables.items;
      if id in items && items[id].userId == userId {
        items := items[id := items[id].(title := title, updatedAt := now)];
      }
      if io.Fails(1) { return Err(StorageFailed); }
      var notes := tables.notes;
      if id in notes {
        notes := notes[id := content];
      }
      if io.Fails(2) { return Err(StorageFailed); }
      if io.Fails(3) { return Err(StorageFailed); }
      tables := tables.(items := items, notes := notes);
      return Ok(());
    }

    method UpdateRecipe(userId: int, id: int, title: string, ingredients: string, instructions: string, notes: string,
                        thumbnail: string, sourceUrl: string, now: int, io: Io) returns (r: Result<(), DbError>)
      requires Consistent(tables)
      modifies this
      ensures Consistent(tables)
      ensures r.Ok? ==> tables == Tables.UpdateRecipe(old(tables), userId, id, title, ingredients, instructions, notes, thumbnail, sourceUrl, now)
      ensures r.Err? ==> r.error == StorageFailed && tables == old(tables)
      ensures r.Err? <==> io.FailsWithin(4)
    {
      if io.Fails(0) { return Err(StorageFailed); }
      UpdateRecipeConsistent(tables, userId, id, title, ingredients, instructions, notes, thumbnail, sourceUrl, now);
      var items := tables.items;
      if id in items && items[id].userId == userId {
        items := items[id := items[id].(title := title, updatedAt := now)];
      }
      if io.Fails(1) { return Err(StorageFailed); }
      var recipes := tables.recipes;
      if id in recipes {
        recipes := recipes[id := RecipeRow(recipes[id].rowId, ingredients, instructions, notes, thumbnail, sourceUrl)];
      }
      if io.Fails(2) { return Err(StorageFailed); }
      if io.Fails(3) { return Err(StorageFailed); }
      tables := tables.(items := items, recipes := recipes);
      return Ok(());
    }

    // ---- Deleting items ----

    /** One DELETE on `items` matching both id and owner; with `cascade` the dependent rows go as well. */
    method DeleteItem(userId: int, id: int, io: Io) returns (r: Result<(), DbError>)
      requires Consistent(tables)
      modifies this
      ensures Consistent(tables)
      ensures r.Ok? ==> tables == Delete(old(tables), userId, id, cascade)
      ensures r.Err? ==> r.error == StorageFailed && tables == old(tables)
      ensures r.Err? <==> io.FailsWithin(1)
    {
      if io.Fails(0) { return Err(StorageFailed); }
      DeleteConsistent(tables, userId, id, cascade);
      var db := tables;
      if !(id in db.items && db.items[id].userId == userId) {
        return Ok(());
      }
      if cascade {
        var rowIds := if id in db.recipes then {db.recipes[id].rowId} else {};
        db := db.(bookmarks := db.bookmarks - {id}, notes := db.notes - {id}, media := db.media - {id},
                  drawings := db.drawings - {id}, recipes := db.recipes - {id},
                  images := map i | i in db.images && db.images[i].recipeId !in rowIds :: db.images[i],
                  listItems := map i | i in db.listItems && db.listItems[i].listId != id :: db.listItems[i],
                  ratedItems := map i | i in db.ratedItems && db.ratedItems[i].listId != id :: db.ratedItems[i],
                  itemTags := set p | p in db.itemTags && p.0 != id);
      }
      tables := db.(items := db.items - {id});
      return Ok(());
    }

    // ---- Tags ----

    /**
     * Deletes the item's links, then for every name that is not empty once
     * lower-cased and trimmed inserts the name (if new) and the link, all in
     * one transaction.
     */
    method SetItemTags(itemId: int, ts: seq<string>, io: Io) returns (r: Result<(), DbError>)
      requires Consistent(tables)
      modifies this
      ensures Consistent(tables)
      ensures r.Ok? ==> tables == SetTags(old(tables), itemId, ts)
      ensures r.Err? ==> r.error == StorageFailed && tables == old(tables)
      ensures r.Err? <==> io.FailsWithin(3 + 2 * NamedCount(ts))
    {
      if io.Fails(0) { return Err(StorageFailed); }
      SetTagsConsistent(tables, itemId, ts);
      var kept := set p | p in tables.itemTags && p.0 != itemId;
      if io.Fails(1) { return Err(StorageFailed); }
      var tags', links' := InsertTags(tables.tags, kept, itemId, ts);
      // statements 2 to 1 + 2 * NamedCount(ts) are the INSERTs, then the commit
      if io.FailsWithin(3 + 2 * NamedCount(ts)) { return Err(StorageFailed); }
      tables := tables.(tags := tags', itemTags := links');
      return Ok(());
    }

    /** GetTagsWithCounts: each tag on at least one of the user's items, with the number of such items, most used first. */
    method GetTagsWithCounts(userId: int) returns (counts: seq<TagCountRow>)
      ensures |counts| == |UserTags(tables, userId)|
      ensures forall c :: c in counts ==> c.name in UserTags(tables, userId) && c.count == TagCount(tables, userId, c.name)
      ensures forall n :: n in UserTags(tables, userId) ==> exists k :: 0 <= k < |counts| && counts[k].name == n
      ensures SortedBy(counts, MostUsedFirst)
    {
      var db := tables;
      var names := Enumerate(UserTags(db, userId));
      var rows: seq<TagCountRow> := [];
      for k := 0 to |names|
        invariant |rows| == k
        invariant forall j :: 0 <= j < k ==> rows[j] == TagCountRow(names[j], TagCount(db, userId, names[j]))
      {
        rows := rows + [TagCountRow(names[k], TagCount(db, userId, names[k]))];
      }
      OrdersArePreorders();
      counts := SortBy(rows, MostUsedFirst);
      assert |counts| == |multiset(counts)| == |multiset(rows)| == |rows|;
      forall c | c in counts
        ensures c.name in UserTags(db, userId) && c.count == TagCount(db, userId, c.name)
      {
        assert c in multiset(rows);
        var j :| 0 <= j < |rows| && rows[j] == c;
        assert names[j] in names;
      }
      forall n | n in UserTags(db, userId)
        ensures exists k :: 0 <= k < |counts| && counts[k].name == n
      {
        var j :| 0 <= j < |names| && names[j] == n;
        assert rows[j] in multiset(counts);
        var k :| 0 <= k < |counts| && counts[k] == rows[j];
      }
    }

    /** GetAllUniqueTags: the whole vocabulary, each name once, in ascending order. */
    method GetAllUniqueTags() returns (names: seq<string>)
      ensures Enumerates(names, tables.tags)
      ensures SortedBy(names, StrLe)
    {
      var unordered := Enumerate(tables.tags);
      StrLeIsPreorder();
      names := SortBy(unordered, StrLe);
      assert |names| == |multiset(names)| == |multiset(unordered)| == |unordered|;
      forall x
        ensures x in names <==> x in tables.tags
      {
        assert x in names <==> x in multiset(names);
        assert x in unordered <==> x in multiset(unordered);
      }
    }

    // ---- Checklist entries ----

    method AddListItem(listId: int, content: string, io: Io) returns (r: Result<(), DbError>)
      requires Consistent(tables)
      modifies this
      ensures Consistent(tables)
      ensures r.Ok? ==> tables == Tables.AddListItem(old(tables), listId, content)
      ensures r.Err? ==> r.error == StorageFailed && tables == old(tables)
      ensures r.Err? <==> io.FailsWithin(1)
    {
      if io.Fails(0) { return Err(StorageFailed); }
      AddListItemConsistent(tables, listId, content);
      var id := tables.nextListItem;
      tables := tables.(listItems := tables.listItems[id := ListItemRow(listId, content, false)], nextListItem := id + 1);
      return Ok(());
    }

    /** GetListItems: the entries of the list, open ones first, each group by id. */
    method GetListItems(listId: int) returns (entries: seq<(int, ListItemRow)>)
      ensures RowsOf(entries, ListItemIds(tables, listId), tables.listItems)
      ensures SortedBy(entries, OpenFirst)
    {
      OrdersArePreorders();
      entries := SortedRows(tables.listItems, ListItemIds(tables, listId), OpenFirst);
    }

    method GetListItemById(id: int) returns (r: Result<string, DbError>)
      ensures r.Ok? <==> id in tables.listItems
      ensures r.Ok? ==> r.value == tables.listItems[id].content
      ensures r.Err? ==> r.error == NoRows
    {
      if id !in tables.listItems {
        return Err(NoRows);
      }
      return Ok(tables.listItems[id].content);
    }

    method UpdateListItem(id: int, content: string, io: Io) returns (r: Result<(), DbError>)
      requires Consistent(tables)
      modifies this
      ensures Consistent(tables)
      ensures r.Ok? ==> tables == Tables.UpdateListItem(old(tables), id, content)
      ensures r.Err? ==> r.error == StorageFailed && tables == old(tables)
      ensures r.Err? <==> io.FailsWithin(1)
    {
      if io.Fails(0) { return Err(StorageFailed); }
      UpdateListItemConsistent(tables, id, content);
      if id in tables.listItems {
        tables := tables.(listItems := tables.listItems[id := tables.listItems[id].(content := content)]);
      }
      return Ok(());
    }

    method ToggleListItem(id: int, completed: bool, io: Io) returns (r: Result<(), DbError>)
      requires Consistent(tables)
      modifies this
      ensures Consistent(tables)
      ensures r.Ok? ==> tables == Tables.ToggleListItem(old(tables), id, completed)
      ensures r.Err? ==> r.error == StorageFailed && tables == old(tables)
      ensures r.Err? <==> io.FailsWithin(1)
    {
      if io.Fails(0) { return Err(StorageFailed); }
      ToggleListItemConsistent(tables, id, completed);
      if id in tables.listItems {
        tables := tables.(listItems := tables.listItems[id := tables.listItems[id].(completed := completed)]);
      }
      return Ok(());
    }

    method DeleteListItem(id: int, io: Io) returns (r: Result<(), DbError>)
      requires Consistent(tables)
      modifies this
      ensures Consistent(tables)
      ensures r.Ok? ==> tables == Tables.DeleteListItem(old(tables), id)
      ensures r.Err? ==> r.error == StorageFailed && tables == old(tables)
      ensures r.Err? <==> io.FailsWithin(1)
    {
      if io.Fails(0) { return Err(StorageFailed); }
      DeleteListItemConsistent(tables, id);
      tables := tables.(listItems := tables.listItems - {id});
      return Ok(());
    }

    // ---- Rated-list entries ----

    /** The CHECK constraint rejects a score outside 0..10 and the statement then changes nothing. */
    method AddRatedListItem(listId: int, title: string, score: int, note: string, io: Io) returns (r: Result<(), DbError>)
      requires Consistent(tables)
      modifies this
      ensures Consistent(tables)
      ensures r.Ok? ==> tables == AddRatedItem(old(tables), listId, title, score, note)
      ensures r.Err? ==> tables == old(tables)
      ensures r.Err? <==> io.FailsWithin(1) || !ScoreAllowed(score)
      ensures r.Err? && !io.FailsWithin(1) ==> r.error == ConstraintFailed
    {
      if io.Fails(0) { return Err(StorageFailed); }
      if !(0 <= score && score <= 10) { return Err(ConstraintFailed); }
      AddRatedItemConsistent(tables, listId, title, score, note);
      var id := tables.nextRatedItem;
      tables := tables.(ratedItems := tables.ratedItems[id := RatedItemRow(listId, title, score, note)], nextRatedItem := id + 1);
      return Ok(());
    }

    /** GetRatedListItems: the entries of the list, best score first, equal scores by title. */
    method GetRatedListItems(listId: int) returns (entries: seq<(int, RatedItemRow)>)
      ensures RowsOf(entries, RatedItemIds(tables, listId), tables.ratedItems)
      ensures SortedBy(entries, BestFirst)
    {
      BestFirstIsPreorder();
      entries := SortedRows(tables.ratedItems, RatedItemIds(tables, listId), BestFirst);
    }

    method GetRatedListItem(id: int) returns (r: Result<RatedItemRow, DbError>)
      ensures r.Ok? <==> id in tables.ratedItems
      ensures r.Ok? ==> r.value == tables.ratedItems[id]
      ensures r.Err? ==> r.error == NoRows
    {
      if id !in tables.ratedItems {
        return Err(NoRows);
      }
      return Ok(tables.ratedItems[id]);
    }

    /** The CHECK constraint applies only to a row the UPDATE touches: updating a missing entry succeeds whatever the score. */
    method UpdateRatedListItem(id: int, title: string, score: int, note: string, io: Io) returns (r: Result<(), DbError>)
      requires Consistent(tables)
      modifies this
      ensures Consistent(tables)
      ensures r.Ok? ==> tables == UpdateRatedItem(old(tables), id, title, score, note)
      ensures r.Err? ==> tables == old(tables)
      ensures r.Err? <==> io.FailsWithin(1) || (id in old(tables.ratedItems) && !ScoreAllowed(score))
      ensures r.Err? && !io.FailsWithin(1) ==> r.error == ConstraintFailed
    {
      if io.Fails(0) { return Err(StorageFailed); }
      if id in tables.ratedItems {
        if !(0 <= score && score <= 10) { return Err(ConstraintFailed); }
        UpdateRatedItemConsistent(tables, id, title, score, note);
        tables := tables.(ratedItems := tables.ratedItems[id := RatedItemRow(tables.ratedItems[id].listId, title, score, note)]);
      }
      return Ok(());
    }

    method DeleteRatedListItem(id: int, io: Io) returns (r: Result<(), DbError>)
      requires Consistent(tables)
      modifies this
      ensures Consistent(tables)
      ensures r.Ok? ==> tables == DeleteRatedItem(old(tables), id)
      ensures r.Err? ==> r.error == StorageFailed && tables == old(tables)
      ensures r.Err? <==> io.FailsWithin(1)
    {
      if io.Fails(0) { return Err(StorageFailed); }
      DeleteRatedItemConsistent(tables, id);
      tables := tables.(ratedItems := tables.ratedItems - {id});
      return Ok(());
    }

    // ---- Recipe images ----

    method AddRecipeImage(recipeId: int, filePath: string, order: int, io: Io) returns (r: Result<(), DbError>)
      requires Consistent(tables)
      modifies this
      ensures Consistent(tables)
      ensures r.Ok? ==> tables == Tables.AddRecipeImage(old(tables), recipeId, filePath, order)
      ensures r.Err? ==> r.error == StorageFailed && tables == old(tables)
      ensures r.Err? <==> io.FailsWithin(1)
    {
      if io.Fails(0) { return Err(StorageFailed); }
      AddRecipeImageConsistent(tables, recipeId, filePath, order);
      var id := tables.nextImage;
      tables := tables.(images := tables.images[id := ImageRow(recipeId, filePath, order)], nextImage := id + 1);
      return Ok(());
    }

    method DeleteRecipeImage(recipeId: int, filePath: string, io: Io) returns (r: Result<(), DbError>)
      requires Consistent(tables)
      modifies this
      ensures Consistent(tables)
      ensures r.Ok? ==> tables == Tables.DeleteRecipeImage(old(tables), recipeId, filePath)
      ensures r.Err? ==> r.error == StorageFailed && tables == old(tables)
      ensures r.Err? <==> io.FailsWithin(1)
    {
      if io.Fails(0) { return Err(StorageFailed); }
      DeleteRecipeImageConsistent(tables, recipeId, filePath);
      var images := tables.images;
      tables := tables.(images := map i | i in images && !(images[i].recipeId == recipeId && images[i].filePath == filePath) :: images[i]);
      return Ok(());
    }
  }
}
