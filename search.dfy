/**
 * The relevance search and tag-string helpers of the HTTP layer: ranking a
 * category's rows against a lower-cased query, splitting a comma-separated
 * tag field, choosing a tag's colour class and filtering the tag vocabulary
 * for autocomplete.
 */
module Search {
  import opened Wrappers
  import opened Strings

  /** The row fields a search may look at; each category passes a fixed list of them. */
  datatype Field = Title | Url | Description | Content | Ingredients | Instructions

  /**
   * One candidate row as the store's listings hand it over: the string
   * fields it carries (a field of another category is absent) and its tag
   * names.
   */
  datatype Entry = Entry(
    id: int,
    title: Option<string>,
    url: Option<string>,
    description: Option<string>,
    content: Option<string>,
    ingredients: Option<string>,
    instructions: Option<string>,
    tags: seq<string>)

  function FieldValue(e: Entry, f: Field): Option<string> {
    match f
    case Title => e.title
    case Url => e.url
    case Description => e.description
    case Content => e.content
    case Ingredients => e.ingredients
    case Instructions => e.instructions
  }

  // ---- The score of one row ----

  /** 10 for the title, 5 for url, description and content, 1 for every other field. */
  function Weight(f: Field): nat {
    match f
    case Title => 10
    case Url => 5
    case Description => 5
    case Content => 5
    case Ingredients => 1
    case Instructions => 1
  }

  predicate FieldMatches(e: Entry, f: Field, q: string) {
    FieldValue(e, f).Some? && Contains(ToLower(FieldValue(e, f).value), q)
  }

  predicate FieldHasPrefix(e: Entry, f: Field, q: string) {
    FieldValue(e, f).Some? && HasPrefix(ToLower(FieldValue(e, f).value), q)
  }

  /** A matching field contributes its weight, doubled when the lower-cased value starts with the query. */
  function FieldScore(e: Entry, f: Field, q: string): nat {
    if !FieldMatches(e, f, q) then 0
    else if FieldHasPrefix(e, f, q) then 2 * Weight(f)
    else Weight(f)
  }

  predicate TagMatches(t: string, q: string) {
    Contains(ToLower(t), q)
  }

  /** A matching tag contributes 15, or 30 when the lower-cased tag starts with the query. */
  function TagScore(t: string, q: string): nat {
    if !TagMatches(t, q) then 0
    else if HasPrefix(ToLower(t), q) then 30
    else 15
  }

  function FieldsScore(e: Entry, fs: seq<Field>, q: string): nat {
    if fs == [] then 0 else FieldsScore(e, fs[..|fs| - 1], q) + FieldScore(e, fs[|fs| - 1], q)
  }

  function TagsScore(ts: seq<string>, q: string): nat {
    if ts == [] then 0 else TagsScore(ts[..|ts| - 1], q) + TagScore(ts[|ts| - 1], q)
  }

  /** The relevance of a row: the sum over all matching fields and all matching tags. */
  function Score(e: Entry, fs: seq<Field>, q: string): nat {
    FieldsScore(e, fs, q) + TagsScore(e.tags, q)
  }

  /** Some listed field or some tag contains the query once lower-cased. */
  predicate Found(e: Entry, fs: seq<Field>, q: string) {
    (exists f :: f in fs && FieldMatches(e, f, q)) || (exists t :: t in e.tags && TagMatches(t, q))
  }

  /** The rows that survive the search, in candidate order. */
  function Kept(items: seq<Entry>, q: string, fs: seq<Field>): seq<Entry> {
    if items == [] then []
    else
      var last := items[|items| - 1];
      Kept(items[..|items| - 1], q, fs) + (if Found(last, fs, q) then [last] else [])
  }

  // ---- Properties of the score ----

  /** A field scores 0 when it does not match, its weight when it merely contains the query, and twice that on a prefix. */
  lemma FieldScoreCases(e: Entry, f: Field, q: string)
    ensures FieldScore(e, f, q) == 0 <==> !FieldMatches(e, f, q)
    ensures FieldHasPrefix(e, f, q) ==> FieldScore(e, f, q) == 2 * Weight(f)
    ensures FieldMatches(e, f, q) && !FieldHasPrefix(e, f, q) ==> FieldScore(e, f, q) == Weight(f)
  {
    if FieldHasPrefix(e, f, q) {
      PrefixIsContained(ToLower(FieldValue(e, f).value), q);
    }
  }

  lemma {:induction false} FieldsScorePositive(e: Entry, fs: seq<Field>, q: string)
    ensures FieldsScore(e, fs, q) >= 1 <==> exists f :: f in fs && FieldMatches(e, f, q)
  {
    if fs != [] {
      var init, last := fs[..|fs| - 1], fs[|fs| - 1];
      FieldsScorePositive(e, init, q);
      FieldScoreCases(e, last, q);
      assert fs == init + [last];
      if exists f :: f in fs && FieldMatches(e, f, q) {
        var f :| f in fs && FieldMatches(e, f, q);
        if f != last {
          assert f in init;
        }
      }
    }
  }

  lemma {:induction false} TagsScorePositive(ts: seq<string>, q: string)
    ensures TagsScore(ts, q) >= 1 <==> exists t :: t in ts && TagMatches(t, q)
  {
    if ts != [] {
      var init, last := ts[..|ts| - 1], ts[|ts| - 1];
      TagsScorePositive(init, q);
      assert ts == init + [last];
      if exists t :: t in ts && TagMatches(t, q) {
        var t :| t in ts && TagMatches(t, q);
        if t != last {
          assert t in init;
        }
      }
    }
  }

  /** A row is kept exactly when its score is positive: every kept row scores at least 1, every dropped row 0. */
  lemma FoundIffPositive(e: Entry, fs: seq<Field>, q: string)
    ensures Found(e, fs, q) <==> Score(e, fs, q) >= 1
  {
    FieldsScorePositive(e, fs, q);
    TagsScorePositive(e.tags, q);
  }

  /** The kept rows are exactly the candidates for which some field or tag matches. */
  lemma {:induction false} KeptMembers(items: seq<Entry>, q: string, fs: seq<Field>)
    ensures forall e :: e in Kept(items, q, fs) <==> e in items && Found(e, fs, q)
  {
    if items != [] {
      var init := items[..|items| - 1];
      KeptMembers(init, q, fs);
      assert items == init + [items[|items| - 1]];
    }
  }

  // ---- filterAndSort ----

  datatype Scored = Scored(item: Entry, score: int)

  function ItemsOf(s: seq<Scored>): seq<Entry> {
    if s == [] then [] else [s[0].item] + ItemsOf(s[1..])
  }

  lemma {:induction false} ItemsOfConcat(a: seq<Scored>, b: seq<Scored>)
    ensures ItemsOf(a + b) == ItemsOf(a) + ItemsOf(b)
  {
    if a == [] {
      assert a + b == b;
    } else {
      assert (a + b)[1..] == a[1..] + b;
      ItemsOfConcat(a[1..], b);
    }
  }

  /** Matching the head of `s` with position k of a permutation `t` leaves permutations behind. */
  lemma RemoveFirstMatch<T>(s: seq<T>, t: seq<T>, k: int)
    requires multiset(s) == multiset(t)
    requires s != [] && 0 <= k < |t| && t[k] == s[0]
    ensures multiset(s[1..]) == multiset(t[..k] + t[k + 1..])
  {
    assert t == t[..k] + [t[k]] + t[k + 1..];
    assert multiset(t[..k] + t[k + 1..]) == multiset(t) - multiset{t[k]};
    assert s == [s[0]] + s[1..];
    assert multiset(s[1..]) == multiset(s) - multiset{s[0]};
  }

  /** Reordering scored rows reorders their items the same way. */
  lemma {:induction false} ItemsOfPermutation(s: seq<Scored>, t: seq<Scored>)
    requires multiset(s) == multiset(t)
    ensures multiset(ItemsOf(s)) == multiset(ItemsOf(t))
  {
    if s == [] {
      assert t == [] by { assert |multiset(t)| == 0; }
    } else {
      assert s[0] in multiset(t);
      var k :| 0 <= k < |t| && t[k] == s[0];
      RemoveFirstMatch(s, t, k);
      ItemsOfPermutation(s[1..], t[..k] + t[k + 1..]);
      ItemsOfRemove(t, k);
      assert ItemsOf(s) == [s[0].item] + ItemsOf(s[1..]);
    }
  }

  /** Taking row k out of `t` takes its item out of the items. */
  lemma ItemsOfRemove(t: seq<Scored>, k: int)
    requires 0 <= k < |t|
    ensures multiset(ItemsOf(t)) == multiset(ItemsOf(t[..k] + t[k + 1..])) + multiset{t[k].item}
  {
    ItemsOfAround(t, k);
    ItemsOfConcat(t[..k], t[k + 1..]);
    MultisetMiddle(ItemsOf(t[..k]), t[k].item, ItemsOf(t[k + 1..]));
  }

  lemma ItemsOfAround(t: seq<Scored>, k: int)
    requires 0 <= k < |t|
    ensures ItemsOf(t) == ItemsOf(t[..k]) + ([t[k].item] + ItemsOf(t[k + 1..]))
  {
    var a, b := t[..k], t[k + 1..];
    var x := [t[k]];
    assert t == a + (x + b);
    assert ItemsOf(x) == [t[k].item] by { assert x[1..] == []; }
    ItemsOfConcat(x, b);
    ItemsOfConcat(a, x + b);
  }

  lemma MultisetMiddle<T>(p: seq<T>, e: T, q: seq<T>)
    ensures multiset(p + ([e] + q)) == multiset(p + q) + multiset{e}
  {
    calc {
      multiset(p + ([e] + q));
      multiset(p) + (multiset{e} + multiset(q));
      multiset(p + q) + multiset{e};
    }
  }

  /** Exchanges two entries of the array and leaves the rest alone. */
  method Swap(a: array<Scored>, i: int, j: int)
    requires 0 <= i < j < a.Length
    modifies a
    ensures a[i] == old(a[j]) && a[j] == old(a[i])
    ensures forall m :: 0 <= m < a.Length && m != i && m != j ==> a[m] == old(a[m])
    ensures multiset(a[..]) == multiset(old(a[..]))
  {
    a[i], a[j] := a[j], a[i];
  }

  /** The swap loop of filterAndSort: afterwards the scores never increase along the array. */
  method SortByScoreDescending(a: array<Scored>)
    modifies a
    ensures multiset(a[..]) == multiset(old(a[..]))
    ensures forall i, j :: 0 <= i < j < a.Length ==> a[i].score >= a[j].score
  {
    for i := 0 to a.Length
      invariant multiset(a[..]) == multiset(old(a[..]))
      invariant forall p, q :: 0 <= p < q < i ==> a[p].score >= a[q].score
      invariant forall p, q :: 0 <= p < i <= q < a.Length ==> a[p].score >= a[q].score
    {
      PlaceLargest(a, i);
    }
  }

  /** One pass of the outer loop: brings a largest score of `a[i..]` to position `i`, swapping as it goes. */
  method PlaceLargest(a: array<Scored>, i: int)
    requires 0 <= i < a.Length
    requires forall p, q :: 0 <= p < q < i ==> a[p].score >= a[q].score
    requires forall p, q :: 0 <= p < i <= q < a.Length ==> a[p].score >= a[q].score
    modifies a
    ensures multiset(a[..]) == multiset(old(a[..]))
    ensures forall p, q :: 0 <= p < q <= i ==> a[p].score >= a[q].score
    ensures forall p, q :: 0 <= p <= i < q < a.Length ==> a[p].score >= a[q].score
  {
    for j := i + 1 to a.Length
      invariant multiset(a[..]) == multiset(old(a[..]))
      invariant forall p, q :: 0 <= p < q < i ==> a[p].score >= a[q].score
      invariant forall p, q :: 0 <= p < i <= q < a.Length ==> a[p].score >= a[q].score
      invariant forall q :: i < q < j ==> a[i].score >= a[q].score
    {
      KeepLarger(a, i, j);
    }
  }

  /** One step of the inner loop: position `i` takes the larger score of positions `i` and `j`. */
  method KeepLarger(a: array<Scored>, i: int, j: int)
    requires 0 <= i < j < a.Length
    requires forall p, q :: 0 <= p < q < i ==> a[p].score >= a[q].score
    requires forall p, q :: 0 <= p < i <= q < a.Length ==> a[p].score >= a[q].score
    requires forall q :: i < q < j ==> a[i].score >= a[q].score
    modifies a
    ensures multiset(a[..]) == multiset(old(a[..]))
    ensures forall p, q :: 0 <= p < q < i ==> a[p].score >= a[q].score
    ensures forall p, q :: 0 <= p < i <= q < a.Length ==> a[p].score >= a[q].score
    ensures forall q :: i < q <= j ==> a[i].score >= a[q].score
  {
    if a[j].score > a[i].score {
      Swap(a, i, j);
    }
  }

  /** The scoring pass of filterAndSort over one row: its score, and whether anything matched. */
  method ScoreEntry(item: Entry, query: string, fields: seq<Field>) returns (score: int, found: bool)
    ensures score == Score(item, fields, query)
    ensures found <==> Found(item, fields, query)
  {
    var fieldScore, inFields := ScoreFields(item, query, fields);
    var tagScore, inTags := ScoreTags(item.tags, query);
    score := fieldScore + tagScore;
    found := inFields || inTags;
  }

  /** The loop over the category's fields. */
  method ScoreFields(item: Entry, query: string, fields: seq<Field>) returns (score: int, found: bool)
    ensures score == FieldsScore(item, fields, query)
    ensures found <==> exists f :: f in fields && FieldMatches(item, f, query)
  {
    score := 0;
    found := false;
    for k := 0 to |fields|
      invariant score == FieldsScore(item, fields[..k], query)
      invariant found <==> exists f :: f in fields[..k] && FieldMatches(item, f, query)
    {
      var field := fields[k];
      assert fields[..k + 1] == fields[..k] + [field];
      var val := FieldValue(item, field);
      if val.Some? {
        var valLower := ToLower(val.value);
        if Contains(valLower, query) {
          found := true;
          var weight := 1;
          if field == Title {
            weight := 10;
          } else if field == Url || field == Description || field == Content {
            weight := 5;
          }
          assert weight == Weight(field);
          if HasPrefix(valLower, query) {
            weight := weight * 2;
          }
          assert weight == FieldScore(item, field, query);
          score := score + weight;
        }
      }
    }
    assert fields[..|fields|] == fields;
  }

  /** The loop over the row's tags. */
  method ScoreTags(tags: seq<string>, query: string) returns (score: int, found: bool)
    ensures score == TagsScore(tags, query)
    ensures found <==> exists t :: t in tags && TagMatches(t, query)
  {
    score := 0;
    found := false;
    for k := 0 to |tags|
      invariant score == TagsScore(tags[..k], query)
      invariant found <==> exists t :: t in tags[..k] && TagMatches(t, query)
    {
      var tag := tags[k];
      assert tags[..k + 1] == tags[..k] + [tag];
      var tagLower := ToLower(tag);
      if Contains(tagLower, query) {
        found := true;
        var weight := 15;
        if HasPrefix(tagLower, query) {
          weight := weight * 2;
        }
        score := score + weight;
      }
    }
    assert tags[..|tags|] == tags;
  }

  /**
   * filterAndSort: with an empty query the candidates come back untouched;
   * otherwise the result is a permutation of the kept rows, by non-increasing
   * score. The query is expected lower-cased (the caller does that).
   */
  method FilterAndSort(items: seq<Entry>, query: string, fields: seq<Field>) returns (results: seq<Entry>)
    ensures query == "" ==> results == items
    ensures query != "" ==> multiset(results) == multiset(Kept(items, query, fields))
    ensures query != "" ==>
      forall i, j :: 0 <= i < j < |results| ==> Score(results[i], fields, query) >= Score(results[j], fields, query)
  {
    if query == "" {
      return items;
    }
    var scored: seq<Scored> := [];
    for n := 0 to |items|
      invariant ItemsOf(scored) == Kept(items[..n], query, fields)
      invariant forall s :: s in scored ==> s.score == Score(s.item, fields, query)
    {
      var item := items[n];
      var score, found := ScoreEntry(item, query, fields);
      assert items[..n + 1] == items[..n] + [item];
      ItemsOfConcat(scored, [Scored(item, score)]);
      if found {
        scored := scored + [Scored(item, score)];
      }
    }
    assert items[..|items|] == items;
    results := SortedItems(scored, query, fields);
  }

  /** The second half of filterAndSort: order the scored rows by score and keep their items. */
  method SortedItems(scored: seq<Scored>, query: string, fields: seq<Field>) returns (results: seq<Entry>)
    requires forall s :: s in scored ==> s.score == Score(s.item, fields, query)
    ensures multiset(results) == multiset(ItemsOf(scored))
    ensures forall i, j :: 0 <= i < j < |results| ==> Score(results[i], fields, query) >= Score(results[j], fields, query)
  {
    var a := new Scored[|scored|](i requires 0 <= i < |scored| => scored[i]);
    assert a[..] == scored;
    SortByScoreDescending(a);
    var sorted := a[..];
    results := [];
    for k := 0 to |sorted|
      invariant |results| == k
      invariant forall j :: 0 <= j < k ==> results[j] == sorted[j].item
    {
      results := results + [sorted[k].item];
    }
    ItemsOfIndex(sorted);
    assert results == ItemsOf(sorted);
    ItemsOfPermutation(sorted, scored);
    ScoresCarriedOver(sorted, scored, query, fields);
  }

  /** A permutation of correctly scored rows, by non-increasing score, orders its items by non-increasing Score. */
  lemma ScoresCarriedOver(sorted: seq<Scored>, scored: seq<Scored>, query: string, fields: seq<Field>)
    requires multiset(sorted) == multiset(scored)
    requires forall s :: s in scored ==> s.score == Score(s.item, fields, query)
    requires forall i, j :: 0 <= i < j < |sorted| ==> sorted[i].score >= sorted[j].score
    ensures forall i, j :: 0 <= i < j < |sorted| ==> Score(sorted[i].item, fields, query) >= Score(sorted[j].item, fields, query)
  {
    forall i | 0 <= i < |sorted|
      ensures sorted[i].score == Score(sorted[i].item, fields, query)
    {
      assert sorted[i] in multiset(scored);
    }
  }

  lemma {:induction false} ItemsOfIndex(s: seq<Scored>)
    ensures |ItemsOf(s)| == |s|
    ensures forall i :: 0 <= i < |s| ==> ItemsOf(s)[i] == s[i].item
  {
    if s != [] {
      ItemsOfIndex(s[1..]);
    }
  }

  // ---- parseTags ----

  /** The trimmed, non-empty pieces, in order. */
  function NonEmptyTrimmed(parts: seq<string>): seq<string> {
    if parts == [] then []
    else
      var t := TrimSpace(parts[|parts| - 1]);
      NonEmptyTrimmed(parts[..|parts| - 1]) + (if t != "" then [t] else [])
  }

  /** What parseTags returns for a comma-separated tag field. */
  function ParsedTags(s: string): seq<string> {
    if s == "" then [] else NonEmptyTrimmed(Split(s, ','))
  }

  method ParseTags(tagsStr: string) returns (tags: seq<string>)
    ensures tags == ParsedTags(tagsStr)
    ensures forall t :: t in tags ==> t != "" && TrimSpace(t) == t
  {
    if tagsStr == "" {
      return [];
    }
    var parts := Split(tagsStr, ',');
    tags := [];
    for i := 0 to |parts|
      invariant tags == NonEmptyTrimmed(parts[..i])
    {
      var t := TrimSpace(parts[i]);
      assert parts[..i + 1] == parts[..i] + [parts[i]];
      if t != "" {
        tags := tags + [t];
      }
    }
    assert parts[..|parts|] == parts;
    ParsedTagsClean(tagsStr);
  }

  lemma {:induction false} NonEmptyTrimmedClean(parts: seq<string>)
    ensures forall t :: t in NonEmptyTrimmed(parts) ==> t != "" && TrimSpace(t) == t
  {
    if parts != [] {
      NonEmptyTrimmedClean(parts[..|parts| - 1]);
      TrimSpaceIdempotent(parts[|parts| - 1]);
    }
  }

  /** Every parsed tag is non-empty and already trimmed. */
  lemma ParsedTagsClean(s: string)
    ensures forall t :: t in ParsedTags(s) ==> t != "" && TrimSpace(t) == t
  {
    if s != "" {
      NonEmptyTrimmedClean(Split(s, ','));
    }
  }

  lemma {:induction false} NonEmptyTrimmedAppend(a: seq<string>, b: seq<string>)
    ensures NonEmptyTrimmed(a + b) == NonEmptyTrimmed(a) + NonEmptyTrimmed(b)
  {
    if b != [] {
      assert (a + b)[..|a + b| - 1] == a + b[..|b| - 1];
      NonEmptyTrimmedAppend(a, b[..|b| - 1]);
    } else {
      assert a + b == a;
    }
  }

  /** Parsing keeps input order: the pieces on either side of a comma are parsed independently. */
  lemma ParsedTagsAppend(a: string, b: string)
    ensures ParsedTags(a + "," + b) == ParsedTags(a) + ParsedTags(b)
  {
    SplitAppend(a, b, ',');
    NonEmptyTrimmedAppend(Split(a, ','), Split(b, ','));
    assert Split("", ',') == [""];
    assert TrimSpace("") == "";
    assert NonEmptyTrimmed([""]) == [];
  }

  lemma {:induction false} NonEmptyTrimmedOfClean(parts: seq<string>)
    requires forall t :: t in parts ==> t != "" && TrimSpace(t) == t
    ensures NonEmptyTrimmed(parts) == parts
  {
    if parts != [] {
      var init, last := parts[..|parts| - 1], parts[|parts| - 1];
      forall t | t in init
        ensures t != "" && TrimSpace(t) == t
      {
        assert t in parts;
      }
      NonEmptyTrimmedOfClean(init);
      assert last in parts;
      assert NonEmptyTrimmed(parts) == NonEmptyTrimmed(init) + [last];
      assert parts == init + [last];
    }
  }

  /** Round trip: joining clean, comma-free tags with commas and parsing gives them back. */
  lemma ParseTagsOfJoin(ts: seq<string>)
    requires forall t :: t in ts ==> t != "" && TrimSpace(t) == t && ',' !in t
    ensures ParsedTags(Join(ts, ",")) == ts
  {
    if ts != [] {
      var joined := Join(ts, ",");
      JoinCoversHead(ts, ",");
      assert ts[0] in ts;
      assert joined != "";
      SplitJoin(ts, ',');
      NonEmptyTrimmedOfClean(ts);
      assert ParsedTags(joined) == NonEmptyTrimmed(Split(joined, ','));
    }
  }

  // ---- getTagColor ----

  const Colors: seq<string> := ["is-info", "is-success", "is-warning", "is-danger", "is-primary", "is-link"]

  function CodePointSum(s: string): nat {
    if s == [] then 0 else CodePointSum(s[..|s| - 1]) + s[|s| - 1] as int
  }

  /** The position in Colors that getTagColor picks for `tag`. */
  function ColorIndex(tag: string): nat {
    CodePointSum(ToLower(TrimSpace(tag))) % |Colors|
  }

  method GetTagColor(tag: string) returns (color: string)
    ensures color == Colors[ColorIndex(tag)]
    ensures color in Colors
  {
    var t := ToLower(TrimSpace(tag));
    var colors := Colors;
    var sum := 0;
    for i := 0 to |t|
      invariant sum == CodePointSum(t[..i])
    {
      assert t[..i + 1] == t[..i] + [t[i]];
      sum := sum + t[i] as int;
    }
    assert t[..|t|] == t;
    color := colors[sum % |colors|];
  }

  /** The colour ignores letter case and surrounding white space. */
  lemma ColorIndexCanonical(tag: string)
    ensures ColorIndex(ToLower(tag)) == ColorIndex(tag)
    ensures ColorIndex(TrimSpace(tag)) == ColorIndex(tag)
  {
    TrimSpaceLower(tag);
    ToLowerIdempotent(TrimSpace(tag));
    TrimSpaceIdempotent(tag);
  }

  // ---- Tag suggestions ----

  /** The vocabulary entries whose lower-cased name contains `q`, in vocabulary order. */
  function MatchingTags(tags: seq<string>, q: string): seq<string> {
    if tags == [] then []
    else
      var t := tags[|tags| - 1];
      MatchingTags(tags[..|tags| - 1], q) + (if Contains(ToLower(t), q) then [t] else [])
  }

  /** The suggestion loop of TagSuggestionsHandler, over the vocabulary GetAllUniqueTags returns. */
  method TagSuggestions(q: string, allTags: seq<string>) returns (suggestions: seq<string>)
    ensures suggestions == MatchingTags(allTags, ToLower(q))
    ensures q == "" ==> suggestions == allTags
  {
    var query := ToLower(q);
    suggestions := [];
    for i := 0 to |allTags|
      invariant suggestions == MatchingTags(allTags[..i], query)
    {
      var tag := allTags[i];
      assert allTags[..i + 1] == allTags[..i] + [tag];
      if Contains(ToLower(tag), query) {
        suggestions := suggestions + [tag];
      }
    }
    assert allTags[..|allTags|] == allTags;
    if q == "" {
      MatchingEmptyQuery(allTags);
    }
  }

  /** A tag is suggested exactly when its lower-cased name contains the query. */
  lemma {:induction false} MatchingTagsMembers(tags: seq<string>, q: string)
    ensures forall t :: t in MatchingTags(tags, q) <==> t in tags && Contains(ToLower(t), q)
  {
    if tags != [] {
      MatchingTagsMembers(tags[..|tags| - 1], q);
      assert tags == tags[..|tags| - 1] + [tags[|tags| - 1]];
    }
  }

  /** The empty query keeps the whole vocabulary, in order. */
  lemma {:induction false} MatchingEmptyQuery(tags: seq<string>)
    ensures MatchingTags(tags, "") == tags
  {
    if tags != [] {
      MatchingEmptyQuery(tags[..|tags| - 1]);
      EverythingContainsEmpty(ToLower(tags[|tags| - 1]));
      assert tags == tags[..|tags| - 1] + [tags[|tags| - 1]];
    }
  }
}
