/**
 * What the store's operations guarantee, stated over the table values:
 * tag replacement, all-or-nothing creation, owner-only deletion and its
 * cascade, the partial-update rules and the tag statistics.
 */
module TableLaws {
  import opened Wrappers
  import opened Strings
  import opened Tables

  // ---- Tag names ----

  lemma NormalizeIdempotent(t: string)
    ensures Normalize(Normalize(t)) == Normalize(t)
  {
    TrimSpaceLower(ToLower(t));
    ToLowerIdempotent(t);
    TrimSpaceIdempotent(ToLower(t));
  }

  /** Every name SetItemTags derives is non-empty and already in normal form. */
  lemma NormSetClean(ts: seq<string>)
    ensures forall n :: n in NormSet(ts) ==> n != "" && Normalize(n) == n
  {
    forall n | n in NormSet(ts)
      ensures n != "" && Normalize(n) == n
    {
      var t :| t in ts && Normalize(t) != "" && Normalize(t) == n;
      NormalizeIdempotent(t);
    }
  }

  /** A name made of lower-case ASCII letters is its own normal form. */
  lemma LowerWordIsNormal(t: string)
    requires forall i :: 0 <= i < |t| ==> 'a' <= t[i] <= 'z'
    ensures Normalize(t) == t
  {
    assert ToLower(t) == t;
    if t != [] {
      assert IsTrimmed(t);
      TrimmedIsFixed(t);
    }
  }

  // ---- SetItemTags ----

  /** Afterwards the item carries exactly the normalised, non-empty names it was given, whatever it carried before. */
  lemma SetTagsExact(db: Db, id: int, ts: seq<string>)
    ensures ItemTagNames(SetTags(db, id, ts), id) == NormSet(ts)
  {
    var d := SetTags(db, id, ts);
    forall n | n in NormSet(ts)
      ensures n in ItemTagNames(d, id)
    {
      assert (id, n) in d.itemTags;
    }
  }

  /** The links of every other item are left alone. */
  lemma SetTagsOtherItems(db: Db, id: int, ts: seq<string>, j: int)
    requires j != id
    ensures ItemTagNames(SetTags(db, id, ts), j) == ItemTagNames(db, j)
  {
    var d := SetTags(db, id, ts);
    forall n | n in ItemTagNames(db, j)
      ensures n in ItemTagNames(d, j)
    {
      assert (j, n) in db.itemTags;
      assert (j, n) in d.itemTags;
    }
  }

  /** Replacing an item's tags twice with the same list is the same as doing it once. */
  lemma SetTagsIdempotent(db: Db, id: int, ts: seq<string>)
    ensures SetTags(SetTags(db, id, ts), id, ts) == SetTags(db, id, ts)
  {
    var d := SetTags(db, id, ts);
    var d2 := SetTags(d, id, ts);
    assert d2.tags == d.tags;
    forall p | p in d2.itemTags
      ensures p in d.itemTags
    {
    }
    forall p | p in d.itemTags
      ensures p in d2.itemTags
    {
      if p.0 == id {
        assert p.1 in NormSet(ts);
      }
    }
  }

  /** The vocabulary only grows, and only by the normal forms of the given names. */
  lemma SetTagsVocabulary(db: Db, id: int, ts: seq<string>)
    ensures db.tags <= SetTags(db, id, ts).tags
    ensures forall n :: n in SetTags(db, id, ts).tags && n !in db.tags ==> exists t :: t in ts && Normalize(t) == n
  {
  }

  /** Once tagged, an item is found by a listing filter exactly when the filter is one of the normalised names. */
  lemma ListedAfterSetTags(db: Db, userId: int, kind: Kind, id: int, ts: seq<string>, filter: string)
    requires filter != ""
    ensures id in ListedIds(SetTags(db, id, ts), userId, kind, filter) <==> Visible(db, userId, kind, id) && filter in NormSet(ts)
  {
    SetTagsExact(db, id, ts);
    var d := SetTags(db, id, ts);
    assert ExtOf(d, kind, id) == ExtOf(db, kind, id);
    if filter in NormSet(ts) {
      assert (id, filter) in d.itemTags;
    }
  }

  /** Stored names are normalised, so a filter that is not in normal form matches nothing: the filter itself is never normalised. */
  lemma UnnormalizedFilterFindsNothing(db: Db, userId: int, kind: Kind, filter: string)
    requires Consistent(db)
    requires filter != "" && Normalize(filter) != filter
    ensures ListedIds(db, userId, kind, filter) == {}
  {
  }

  lemma SetTagsConsistent(db: Db, id: int, ts: seq<string>)
    requires Consistent(db)
    ensures Consistent(SetTags(db, id, ts))
  {
    NormSetClean(ts);
  }

  // ---- Creating items ----

  /** The images of a new recipe get the keys from `next` on, in path order, and existing rows are kept. */
  lemma {:induction false} AddImagesContents(images: map<int, ImageRow>, next: int, recipeId: int, paths: seq<string>)
    requires forall i :: i in images ==> i < next
    ensures forall i :: i in AddImages(images, next, recipeId, paths) <==> i in images || next <= i < next + |paths|
    ensures forall i :: i in images ==> AddImages(images, next, recipeId, paths)[i] == images[i]
    ensures forall k :: 0 <= k < |paths| ==> AddImages(images, next, recipeId, paths)[next + k] == ImageRow(recipeId, paths[k], 0)
    ensures |AddImages(images, next, recipeId, paths)| == |images| + |paths|
  {
    if paths != [] {
      var init := paths[..|paths| - 1];
      AddImagesContents(images, next, recipeId, init);
      forall k | 0 <= k < |init|
        ensures init[k] == paths[k]
      {
      }
    }
  }

  /**
   * A Create* that commits adds one item under a fresh id: its `items` row
   * and its extension row are there and visible to its owner only, and no
   * other item's rows change.
   */
  lemma CreateAddsOneItem(db: Db, userId: int, title: string, p: NewItem, now: int)
    requires Consistent(db)
    ensures db.nextItem !in db.items
    ensures ExtOf(db, KindOf(p), db.nextItem).None?
    ensures Create(db, userId, title, p, now).items == db.items[db.nextItem := ItemRow(userId, title, KindOf(p), now, now)]
    ensures ExtOf(Create(db, userId, title, p, now), KindOf(p), db.nextItem) == Some(ExtFor(db, p))
    ensures forall v :: Visible(Create(db, userId, title, p, now), v, KindOf(p), db.nextItem) <==> v == userId
  {
    var d := Create(db, userId, title, p, now);
    assert Visible(d, userId, KindOf(p), db.nextItem);
  }

  /** Creating an item leaves every other item's extension rows alone, and the owner's unfiltered listing shows the new one. */
  lemma CreateKeepsOthers(db: Db, userId: int, title: string, p: NewItem, now: int)
    requires Consistent(db)
    ensures forall k, j :: j != db.nextItem ==> ExtOf(Create(db, userId, title, p, now), k, j) == ExtOf(db, k, j)
  {
    var d := Create(db, userId, title, p, now);
    forall k, j | j != db.nextItem
      ensures ExtOf(d, k, j) == ExtOf(db, k, j)
    {
      match k
      case Bookmark => assert j in d.bookmarks <==> j in db.bookmarks;
      case Note => assert j in d.notes <==> j in db.notes;
      case Media => assert j in d.media <==> j in db.media;
      case Drawing => assert j in d.drawings <==> j in db.drawings;
      case Recipe => assert j in d.recipes <==> j in db.recipes;
      case List => assert j in d.items <==> j in db.items;
      case RatedList => assert j in d.items <==> j in db.items;
    }
  }

  /** The owner's unfiltered listing of the new item's kind shows it. */
  lemma CreateListsNewItem(db: Db, userId: int, title: string, p: NewItem, now: int)
    requires Consistent(db)
    ensures db.nextItem in ListedIds(Create(db, userId, title, p, now), userId, KindOf(p), "")
  {
    var d := Create(db, userId, title, p, now);
    assert Visible(d, userId, KindOf(p), db.nextItem) by {
      CreateAddsOneItem(db, userId, title, p, now);
    }
  }

  /** A new recipe's images are filed, in order, under the new item's id, next to the images already stored. */
  lemma CreateRecipeImages(db: Db, userId: int, title: string, p: NewItem, now: int)
    requires Consistent(db) && p.NewRecipe?
    ensures forall i :: i in db.images ==> i in Create(db, userId, title, p, now).images && Create(db, userId, title, p, now).images[i] == db.images[i]
    ensures forall k :: 0 <= k < |p.imagePaths| ==>
      db.nextImage + k in Create(db, userId, title, p, now).images
      && Create(db, userId, title, p, now).images[db.nextImage + k] == ImageRow(db.nextItem, p.imagePaths[k], 0)
    ensures |Create(db, userId, title, p, now).images| == |db.images| + |p.imagePaths|
  {
    assert Create(db, userId, title, p, now).images == AddImages(db.images, db.nextImage, db.nextItem, p.imagePaths);
    AddImagesContents(db.images, db.nextImage, db.nextItem, p.imagePaths);
  }

  /**
   * A new recipe's `recipes` row takes a row id no stored recipe has, and
   * the stored recipes keep their rows.
   */
  lemma CreateRecipeFreshRowId(db: Db, userId: int, title: string, p: NewItem, now: int)
    requires Consistent(db) && p.NewRecipe?
    ensures db.nextItem in Create(db, userId, title, p, now).recipes
    ensures Create(db, userId, title, p, now).recipes[db.nextItem].rowId == db.nextRecipe
    ensures forall j :: j in db.recipes ==>
      j in Create(db, userId, title, p, now).recipes
      && Create(db, userId, title, p, now).recipes[j] == db.recipes[j]
      && db.recipes[j].rowId != db.nextRecipe
  {
    CreateRecipeRows(db, userId, title, p, now);
    forall j | j in db.recipes
      ensures db.recipes[j].rowId != db.nextRecipe
    {
      assert db.recipes[j].rowId < db.nextRecipe;
    }
  }

  /** The rows CreateRecipe writes, spelled out table by table. */
  lemma CreateRecipeRows(db: Db, userId: int, title: string, p: NewItem, now: int)
    requires p.NewRecipe?
    ensures Create(db, userId, title, p, now)
      == db.(items := db.items[db.nextItem := ItemRow(userId, title, Recipe, now, now)],
             recipes := db.recipes[db.nextItem := RecipeRow(db.nextRecipe, p.ingredients, p.instructions, p.notes, p.thumbnail, p.sourceUrl)],
             images := AddImages(db.images, db.nextImage, db.nextItem, p.imagePaths),
             nextItem := db.nextItem + 1, nextRecipe := db.nextRecipe + 1, nextImage := db.nextImage + |p.imagePaths|)
  {
  }

  lemma CreateConsistent(db: Db, userId: int, title: string, p: NewItem, now: int)
    requires Consistent(db)
    ensures Consistent(Create(db, userId, title, p, now))
  {
    var id := db.nextItem;
    var c := Create(db, userId, title, p, now);
    KeysBelowPut(db.items, id, ItemRow(userId, title, KindOf(p), now, now));
    KeysBelowGrow(db.bookmarks, id);
    KeysBelowGrow(db.notes, id);
    KeysBelowGrow(db.media, id);
    KeysBelowGrow(db.drawings, id);
    KeysBelowGrow(db.recipes, id);
    match p
    case NewBookmark(url, description, favicon, thumbnail) =>
      KeysBelowPut(db.bookmarks, id, BookmarkRow(url, description, favicon, thumbnail));
    case NewNote(content) =>
      KeysBelowPut(db.notes, id, content);
    case NewMedia(filePath, mimeType) =>
      KeysBelowPut(db.media, id, MediaRow(filePath, mimeType));
    case NewDrawing(filePath) =>
      KeysBelowPut(db.drawings, id, filePath);
    case NewRecipe(ingredients, instructions, notes, thumbnail, sourceUrl, paths) =>
      KeysBelowPut(db.recipes, id, RecipeRow(db.nextRecipe, ingredients, instructions, notes, thumbnail, sourceUrl));
      assert RowIdsBelow(c.recipes, c.nextRecipe);
      AddImagesContents(db.images, db.nextImage, id, paths);
      assert KeysBelow(c.images, c.nextImage);
    case NewList =>
    case NewRatedList =>
  }

  /** A counter at `next` still bounds a table after it hands out `next` and moves on. */
  lemma KeysBelowPut<V>(m: map<int, V>, next: int, v: V)
    requires KeysBelow(m, next)
    ensures KeysBelow(m[next := v], next + 1)
  {
  }

  lemma KeysBelowGrow<V>(m: map<int, V>, next: int)
    requires KeysBelow(m, next)
    ensures KeysBelow(m, next + 1)
  {
  }

  // ---- DeleteItem ----

  /**
   * Nothing changes unless `userId` owns the item; afterwards nobody sees
   * it, and every other item keeps its `items` row.
   */
  lemma DeleteOnlyByOwner(db: Db, userId: int, id: int, cascade: bool)
    ensures !Owns(db, userId, id) ==> Delete(db, userId, id, cascade) == db
    ensures Owns(db, userId, id) ==> forall v, k :: !Visible(Delete(db, userId, id, cascade), v, k, id)
    ensures forall j :: j != id ==> (j in Delete(db, userId, id, cascade).items <==> j in db.items)
    ensures forall j :: j != id && j in db.items ==> Delete(db, userId, id, cascade).items[j] == db.items[j]
  {
  }

  /**
   * With the cascade, the item's extension rows, checklist and rated-list
   * entries and tag links go, and so do the images whose `recipe_id` is
   * the recipe's row id (the key the schema's foreign key names); images
   * filed under any other id stay. Without it, every row that hangs off
   * the item stays behind.
   */
  lemma DeleteCascade(db: Db, userId: int, id: int, cascade: bool)
    requires Owns(db, userId, id)
    ensures cascade ==> forall k :: ExtOf(Delete(db, userId, id, cascade), k, id).None?
    ensures cascade ==> ListItemIds(Delete(db, userId, id, cascade), id) == {}
    ensures cascade ==> RatedItemIds(Delete(db, userId, id, cascade), id) == {}
    ensures cascade ==> ItemTagNames(Delete(db, userId, id, cascade), id) == {}
    ensures cascade ==> forall j :: j != id ==> ItemTagNames(Delete(db, userId, id, cascade), j) == ItemTagNames(db, j)
    ensures cascade && id in db.recipes ==> forall i ::
      i in Delete(db, userId, id, cascade).images <==> i in db.images && db.images[i].recipeId != db.recipes[id].rowId
    ensures cascade && id !in db.recipes ==> Delete(db, userId, id, cascade).images == db.images
    ensures !cascade ==> var d := Delete(db, userId, id, cascade);
      d.bookmarks == db.bookmarks && d.notes == db.notes && d.media == db.media
      && d.drawings == db.drawings && d.recipes == db.recipes
    ensures !cascade ==> ListItemIds(Delete(db, userId, id, cascade), id) == ListItemIds(db, id)
    ensures !cascade ==> RatedItemIds(Delete(db, userId, id, cascade), id) == RatedItemIds(db, id)
    ensures !cascade ==> ItemTagNames(Delete(db, userId, id, cascade), id) == ItemTagNames(db, id)
    ensures !cascade ==> Delete(db, userId, id, cascade).images == db.images
  {
    var d := Delete(db, userId, id, cascade);
    if cascade {
      forall j | j != id
        ensures ItemTagNames(d, j) == ItemTagNames(db, j)
      {
        forall n | n in ItemTagNames(db, j)
          ensures n in ItemTagNames(d, j)
        {
          assert (j, n) in d.itemTags;
        }
      }
    }
  }

  /**
   * The cascade misses a recipe's own images: CreateRecipe files them under
   * the item id (CreateRecipeImages), while the foreign key points at the
   * recipe's row id, so as soon as the two differ every image filed under
   * the new item survives its deletion.
   */
  lemma CascadeKeepsOwnImages(db: Db, userId: int, title: string, p: NewItem, now: int)
    requires Consistent(db) && p.NewRecipe? && db.nextItem != db.nextRecipe
    ensures var c := Create(db, userId, title, p, now);
      forall i :: i in c.images && c.images[i].recipeId == db.nextItem ==>
        i in Delete(c, userId, db.nextItem, true).images
  {
    var c := Create(db, userId, title, p, now);
    CreateRecipeFreshRowId(db, userId, title, p, now);
    assert Owns(c, userId, db.nextItem);
    DeleteCascade(c, userId, db.nextItem, true);
  }

  /** Deleting an item lowers the owner's count of each of its tags by one and leaves every other count alone, with or without the cascade. */
  lemma DeleteTagCount(db: Db, userId: int, id: int, cascade: bool, name: string)
    requires Owns(db, userId, id)
    ensures (id, name) in db.itemTags ==> TagCount(Delete(db, userId, id, cascade), userId, name) == TagCount(db, userId, name) - 1
    ensures (id, name) !in db.itemTags ==> TagCount(Delete(db, userId, id, cascade), userId, name) == TagCount(db, userId, name)
    ensures forall v :: v != userId ==> TaggedItems(Delete(db, userId, id, cascade), v, name) == TaggedItems(db, v, name)
  {
    var d := Delete(db, userId, id, cascade);
    assert TaggedItems(d, userId, name) == TaggedItems(db, userId, name) - {id};
    forall v | v != userId
      ensures TaggedItems(d, v, name) == TaggedItems(db, v, name)
    {
      assert id !in TaggedItems(db, v, name);
    }
  }

  lemma DeleteConsistent(db: Db, userId: int, id: int, cascade: bool)
    requires Consistent(db)
    ensures Consistent(Delete(db, userId, id, cascade))
  {
  }

  // ---- Partial updates ----

  /** UpdateDrawing with an empty path changes only the title and timestamp of the item, and does so for any caller. */
  lemma UpdateDrawingWithoutFile(db: Db, id: int, title: string, now: int)
    ensures UpdateDrawing(db, id, title, "", now).drawings == db.drawings
    ensures UpdateDrawing(db, id, title, "", now).items.Keys == db.items.Keys
    ensures forall j :: j in db.items && j != id ==> UpdateDrawing(db, id, title, "", now).items[j] == db.items[j]
    ensures id in db.items ==> UpdateDrawing(db, id, title, "", now).items[id] == db.items[id].(title := title, updatedAt := now)
  {
  }

  /** With a path, the drawing's file is replaced when the drawing row exists. */
  lemma UpdateDrawingWithFile(db: Db, id: int, title: string, filePath: string, now: int)
    requires filePath != "" && id in db.drawings
    ensures UpdateDrawing(db, id, title, filePath, now).drawings == db.drawings[id := filePath]
  {
  }

  /**
   * UpdateBookmark retitles only the owner's item, but rewrites url and
   * description of the bookmark row whoever calls it; favicon and thumbnail
   * are kept.
   */
  lemma UpdateBookmarkOwnerRules(db: Db, userId: int, id: int, title: string, url: string, description: string, now: int)
    ensures Owns(db, userId, id) ==> UpdateBookmark(db, userId, id, title, url, description, now).items[id].title == title
    ensures !Owns(db, userId, id) ==> UpdateBookmark(db, userId, id, title, url, description, now).items == db.items
    ensures id in db.bookmarks ==>
      UpdateBookmark(db, userId, id, title, url, description, now).bookmarks[id]
        == BookmarkRow(url, description, db.bookmarks[id].favicon, db.bookmarks[id].thumbnail)
    ensures forall j :: j != id && j in db.bookmarks ==> UpdateBookmark(db, userId, id, title, url, description, now).bookmarks[j] == db.bookmarks[j]
  {
  }

  /** UpdateNote follows the same rule: owner-only title, content for anyone. */
  lemma UpdateNoteOwnerRules(db: Db, userId: int, id: int, title: string, content: string, now: int)
    ensures !Owns(db, userId, id) ==> UpdateNote(db, userId, id, title, content, now).items == db.items
    ensures id in db.notes ==> UpdateNote(db, userId, id, title, content, now).notes[id] == content
  {
  }

  /** UpdateRecipe follows the same rule, and the recipe keeps its row id and therefore its images. */
  lemma UpdateRecipeOwnerRules(db: Db, userId: int, id: int, title: string, ingredients: string, instructions: string,
                               notes: string, thumbnail: string, sourceUrl: string, now: int)
    ensures !Owns(db, userId, id) ==> UpdateRecipe(db, userId, id, title, ingredients, instructions, notes, thumbnail, sourceUrl, now).items == db.items
    ensures id in db.recipes ==>
      UpdateRecipe(db, userId, id, title, ingredients, instructions, notes, thumbnail, sourceUrl, now).recipes[id].rowId == db.recipes[id].rowId
    ensures UpdateRecipe(db, userId, id, title, ingredients, instructions, notes, thumbnail, sourceUrl, now).images == db.images
  {
  }

  lemma UpdateDrawingConsistent(db: Db, id: int, title: string, filePath: string, now: int)
    requires Consistent(db)
    ensures Consistent(UpdateDrawing(db, id, title, filePath, now))
  {
    assert UpdateDrawing(db, id, title, filePath, now).drawings.Keys <= db.drawings.Keys;
  }

  lemma UpdateBookmarkConsistent(db: Db, userId: int, id: int, title: string, url: string, description: string, now: int)
    requires Consistent(db)
    ensures Consistent(UpdateBookmark(db, userId, id, title, url, description, now))
  {
    assert UpdateBookmark(db, userId, id, title, url, description, now).bookmarks.Keys == db.bookmarks.Keys;
  }

  lemma UpdateNoteConsistent(db: Db, userId: int, id: int, title: string, content: string, now: int)
    requires Consistent(db)
    ensures Consistent(UpdateNote(db, userId, id, title, content, now))
  {
    assert UpdateNote(db, userId, id, title, content, now).notes.Keys == db.notes.Keys;
  }

  lemma UpdateRecipeConsistent(db: Db, userId: int, id: int, title: string, ingredients: string, instructions: string,
                               notes: string, thumbnail: string, sourceUrl: string, now: int)
    requires Consistent(db)
    ensures Consistent(UpdateRecipe(db, userId, id, title, ingredients, instructions, notes, thumbnail, sourceUrl, now))
  {
    assert UpdateRecipe(db, userId, id, title, ingredients, instructions, notes, thumbnail, sourceUrl, now).recipes.Keys == db.recipes.Keys;
  }

  // ---- Entries ----

  lemma AddListItemConsistent(db: Db, listId: int, content: string)
    requires Consistent(db)
    ensures Consistent(AddListItem(db, listId, content))
  {
    var d := AddListItem(db, listId, content);
    assert d.listItems.Keys == db.listItems.Keys + {db.nextListItem};
  }

  lemma UpdateListItemConsistent(db: Db, id: int, content: string)
    requires Consistent(db)
    ensures Consistent(UpdateListItem(db, id, content))
  {
    assert UpdateListItem(db, id, content).listItems.Keys == db.listItems.Keys;
  }

  lemma ToggleListItemConsistent(db: Db, id: int, completed: bool)
    requires Consistent(db)
    ensures Consistent(ToggleListItem(db, id, completed))
  {
    assert ToggleListItem(db, id, completed).listItems.Keys == db.listItems.Keys;
  }

  lemma DeleteListItemConsistent(db: Db, id: int)
    requires Consistent(db)
    ensures Consistent(DeleteListItem(db, id))
  {
  }

  /** The CHECK constraint is what keeps every stored score within 0..10. */
  lemma AddRatedItemConsistent(db: Db, listId: int, title: string, score: int, note: string)
    requires Consistent(db) && ScoreAllowed(score)
    ensures Consistent(AddRatedItem(db, listId, title, score, note))
  {
    var d := AddRatedItem(db, listId, title, score, note);
    assert d.ratedItems.Keys == db.ratedItems.Keys + {db.nextRatedItem};
  }

  lemma UpdateRatedItemConsistent(db: Db, id: int, title: string, score: int, note: string)
    requires Consistent(db) && ScoreAllowed(score)
    ensures Consistent(UpdateRatedItem(db, id, title, score, note))
  {
    assert UpdateRatedItem(db, id, title, score, note).ratedItems.Keys == db.ratedItems.Keys;
  }

  lemma DeleteRatedItemConsistent(db: Db, id: int)
    requires Consistent(db)
    ensures Consistent(DeleteRatedItem(db, id))
  {
  }

  lemma AddRecipeImageConsistent(db: Db, recipeId: int, filePath: string, order: int)
    requires Consistent(db)
    ensures Consistent(AddRecipeImage(db, recipeId, filePath, order))
  {
  }

  lemma DeleteRecipeImageConsistent(db: Db, recipeId: int, filePath: string)
    requires Consistent(db)
    ensures Consistent(DeleteRecipeImage(db, recipeId, filePath))
  {
  }

  /** The CHECK constraint holds for every stored entry of every rated list. */
  lemma StoredScoresAllowed(db: Db, listId: int)
    requires Consistent(db)
    ensures forall i :: i in RatedItemIds(db, listId) ==> ScoreAllowed(db.ratedItems[i].score)
  {
  }

  // ---- Tag statistics ----

  /** A name appears in a user's statistics exactly when one of their items carries it. */
  lemma UserTagsCounted(db: Db, userId: int, name: string)
    ensures name in UserTags(db, userId) <==> TagCount(db, userId, name) >= 1
  {
    if name in UserTags(db, userId) {
      var p :| p in db.itemTags && p.0 in db.items && db.items[p.0].userId == userId && p.1 == name;
      assert p.0 in TaggedItems(db, userId, name);
    }
    if name !in UserTags(db, userId) {
      assert TaggedItems(db, userId, name) == {};
    }
  }

  // ---- An example: tagging a bookmark and filtering by tag ----

  /** A bookmark tagged "tech,news" is listed under "tech" for its owner, not under "cooking", and never for anyone else. */
  lemma TaggedBookmarkExample(db: Db, u: int, other: int, now: int)
    requires Consistent(db) && other != u
    ensures var id := db.nextItem;
      var d := SetTags(Create(db, u, "Go blog", NewBookmark("https://go.dev/blog", "", "", ""), now), id, ["tech", "news"]);
      id in ListedIds(d, u, Bookmark, "tech")
      && id !in ListedIds(d, u, Bookmark, "cooking")
      && id !in ListedIds(d, other, Bookmark, "")
  {
    var id := db.nextItem;
    var p := NewBookmark("https://go.dev/blog", "", "", "");
    var c := Create(db, u, "Go blog", p, now);
    CreateAddsOneItem(db, u, "Go blog", p, now);
    LowerWordIsNormal("tech");
    LowerWordIsNormal("news");
    assert "tech" in NormSet(["tech", "news"]);
    assert NormSet(["tech", "news"]) == {"tech", "news"};
    ListedAfterSetTags(c, u, Bookmark, id, ["tech", "news"], "tech");
    ListedAfterSetTags(c, u, Bookmark, id, ["tech", "news"], "cooking");
    var d := SetTags(c, id, ["tech", "news"]);
    assert ExtOf(d, Bookmark, id) == ExtOf(c, Bookmark, id);
  }
}
