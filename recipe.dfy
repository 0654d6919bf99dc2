/**
 * The recipe importer of internal/handlers/recipe_parser.go: reading
 * schema.org Recipe, HowToStep and HowToSection objects out of decoded
 * JSON-LD, finding the JSON-LD scripts of an HTML document, and the
 * heuristic fallback over the document's headings and list items.
 *
 * The decoders are parameters: `unescape` stands for html.UnescapeString and
 * `parse` for json.Unmarshal into an interface{} (None when it reports an
 * error). The document is the tree html.Parse builds.
 */
module RecipeParser {
  import opened Wrappers
  import opened Strings

  // ---- Decoded JSON ----

  /** A value as encoding/json decodes it into an interface{}; the value of a number is never read. */
  datatype Json =
    | JNull
    | JBool(b: bool)
    | JNumber(n: int)
    | JString(s: string)
    | JArray(elems: seq<Json>)
    | JObject(fields: map<string, Json>)

  datatype RecipeData = RecipeData(title: string, ingredients: seq<string>, instructions: string, image: string)

  /** `obj[key].(string)`: the string stored under `key`, when a string is stored there. */
  function StringAt(o: map<string, Json>, key: string): Option<string> {
    if key in o && o[key].JString? then Some(o[key].s) else None
  }

  /** The string `s` is stored somewhere inside `j`. */
  ghost predicate StringIn(j: Json, s: string) {
    match j
    case JString(t) => t == s
    case JArray(a) => exists k :: 0 <= k < |a| && StringIn(a[k], s)
    case JObject(o) => exists key :: key in o && StringIn(o[key], s)
    case _ => false
  }

  // ---- First match and concatenation over a sequence ----

  /** The first `f(x)` that is not None, scanning `xs` from the front: a loop that stops at its first hit. */
  function FirstOf<T, R>(xs: seq<T>, f: T -> Option<R>): Option<R> {
    if xs == [] then None
    else if f(xs[0]).Some? then f(xs[0])
    else FirstOf(xs[1..], f)
  }

  lemma {:induction false} FirstOfIsFirst<T, R>(xs: seq<T>, f: T -> Option<R>)
    ensures FirstOf(xs, f).Some? <==> exists k :: 0 <= k < |xs| && f(xs[k]).Some?
    ensures FirstOf(xs, f).Some? ==>
              exists k :: 0 <= k < |xs| && f(xs[k]) == FirstOf(xs, f) && forall m :: 0 <= m < k ==> f(xs[m]).None?
  {
    if xs != [] && f(xs[0]).None? {
      FirstOfIsFirst(xs[1..], f);
      if FirstOf(xs, f).Some? {
        var k :| 0 <= k < |xs[1..]| && f(xs[1..][k]) == FirstOf(xs[1..], f)
                 && forall m :: 0 <= m < k ==> f(xs[1..][m]).None?;
        assert f(xs[k + 1]) == FirstOf(xs, f);
        forall m | 0 <= m < k + 1
          ensures f(xs[m]).None?
        {
          if m > 0 {
            assert xs[m] == xs[1..][m - 1];
          }
        }
      }
      if exists k :: 0 <= k < |xs| && f(xs[k]).Some? {
        var k :| 0 <= k < |xs| && f(xs[k]).Some?;
        assert xs[1..][k - 1] == xs[k];
      }
    } else if xs != [] {
      assert f(xs[0]) == FirstOf(xs, f);
    }
  }

  lemma {:induction false} FirstOfConcat<T, R>(a: seq<T>, b: seq<T>, f: T -> Option<R>)
    ensures FirstOf(a + b, f) == if FirstOf(a, f).Some? then FirstOf(a, f) else FirstOf(b, f)
  {
    if a == [] {
      assert a + b == b;
    } else {
      assert (a + b)[0] == a[0];
      assert (a + b)[1..] == a[1..] + b;
      FirstOfConcat(a[1..], b, f);
    }
  }

  /** The concatenation of `f(x)` over `xs`, in order: a loop that appends what each element gives. */
  function FlatMap<T, R>(xs: seq<T>, f: T -> seq<R>): seq<R> {
    if xs == [] then [] else FlatMap(xs[..|xs| - 1], f) + f(xs[|xs| - 1])
  }

  lemma {:induction false} FlatMapConcat<T, R>(a: seq<T>, b: seq<T>, f: T -> seq<R>)
    ensures FlatMap(a + b, f) == FlatMap(a, f) + FlatMap(b, f)
    decreases |b|
  {
    if b == [] {
      assert a + b == a;
    } else {
      assert (a + b)[..|a + b| - 1] == a + b[..|b| - 1];
      FlatMapConcat(a, b[..|b| - 1], f);
    }
  }

  lemma {:induction false} FlatMapMembers<T, R>(xs: seq<T>, f: T -> seq<R>, y: R)
    ensures y in FlatMap(xs, f) <==> exists k :: 0 <= k < |xs| && y in f(xs[k])
  {
    if xs != [] {
      var init := xs[..|xs| - 1];
      FlatMapMembers(init, f, y);
      assert y in FlatMap(xs, f) <==> y in FlatMap(init, f) || y in f(xs[|xs| - 1]);
      if exists k :: 0 <= k < |xs| && y in f(xs[k]) {
        var k :| 0 <= k < |xs| && y in f(xs[k]);
        if k < |init| {
          assert init[k] == xs[k];
        }
      }
      if exists k :: 0 <= k < |init| && y in f(init[k]) {
        var k :| 0 <= k < |init| && y in f(init[k]);
        assert xs[k] == init[k];
      }
    }
  }

  // ---- extractImage and extractStepText ----

  /**
   * extractImage: a string is the image; an array stands for its first
   * element; an object gives its `url` string, or else whatever its nested
   * `image` gives. What comes back is empty or a string stored in the value.
   */
  function ExtractImage(image: Json): (url: string)
    ensures url == "" || StringIn(image, url)
  {
    match image
    case JString(s) => s
    case JArray(a) =>
      if |a| > 0 then
        var u := ExtractImage(a[0]);
        assert u == "" || StringIn(a[0], u);
        u
      else ""
    case JObject(o) =>
      if StringAt(o, "url").Some? then
        assert StringIn(o["url"], o["url"].s);
        o["url"].s
      else if "image" in o then
        var u := ExtractImage(o["image"]);
        assert u == "" || StringIn(o["image"], u);
        u
      else ""
    case _ => ""
  }

  /**
   * extractStepText: a string is its own text, not unescaped; an object gives
   * its `text` string, or else its `name` string, unescaped; nothing else
   * has text.
   */
  function ExtractStepText(step: Json, unescape: string -> string): (r: (string, bool))
    ensures r.1 <==> step.JString? || (step.JObject? && (StringAt(step.fields, "text").Some? || StringAt(step.fields, "name").Some?))
    ensures !r.1 ==> r.0 == ""
    ensures step.JString? ==> r.0 == step.s
    ensures step.JObject? && StringAt(step.fields, "text").Some? ==> r.0 == unescape(step.fields["text"].s)
    ensures step.JObject? && StringAt(step.fields, "text").None? && StringAt(step.fields, "name").Some? ==>
              r.0 == unescape(step.fields["name"].s)
  {
    match step
    case JString(s) => (s, true)
    case JObject(o) =>
      if StringAt(o, "text").Some? then (unescape(o["text"].s), true)
      else if StringAt(o, "name").Some? then (unescape(o["name"].s), true)
      else ("", false)
    case _ => ("", false)
  }

  // ---- extractInstructions ----

  /** A HowToSection: its `@type` is a string that is "HowToSection" or contains "Section" (case matters). */
  predicate IsSection(o: map<string, Json>) {
    match StringAt(o, "@type")
    case Some(t) => t == "HowToSection" || Contains(t, "Section")
    case None => false
  }

  /** The line `fmt.Sprintf("\n**%s**", name)` a named section adds. */
  function Header(name: string): string {
    "\n**" + name + "**"
  }

  /** A line kept without a number: one that starts with a newline and two asterisks. */
  predicate IsHeader(line: string) {
    HasPrefix(line, "\n**")
  }

  /** The line an item of a section, or a plain step object, adds: its text, unescaped (once more). */
  function ItemLine(item: Json, unescape: string -> string): seq<string> {
    var (text, ok) := ExtractStepText(item, unescape);
    if ok then [unescape(text)] else []
  }

  function ItemLines(items: seq<Json>, unescape: string -> string): seq<string> {
    if items == [] then [] else ItemLines(items[..|items| - 1], unescape) + ItemLine(items[|items| - 1], unescape)
  }

  function SectionItems(o: map<string, Json>): seq<Json> {
    if "itemListElement" in o && o["itemListElement"].JArray? then o["itemListElement"].elems else []
  }

  /** The header line of a section, when it has a `name` string. */
  function SectionHeader(o: map<string, Json>): seq<string> {
    match StringAt(o, "name")
    case Some(name) => [Header(name)]
    case None => []
  }

  /** What processStep appends for one step: a section's header (when named) and item lines, or the step's own line. */
  function StepLines(step: Json, unescape: string -> string): seq<string> {
    match step
    case JString(s) => [unescape(s)]
    case JObject(o) =>
      if IsSection(o) then SectionHeader(o) + ItemLines(SectionItems(o), unescape)
      else ItemLine(step, unescape)
    case _ => []
  }

  function AllStepLines(steps: seq<Json>, unescape: string -> string): seq<string> {
    if steps == [] then [] else AllStepLines(steps[..|steps| - 1], unescape) + StepLines(steps[|steps| - 1], unescape)
  }

  /** The lines collected from `recipeInstructions` that is not a string: from each step of an array, or from the one object. */
  function CollectedSteps(instructions: Json, unescape: string -> string): seq<string> {
    match instructions
    case JArray(a) => AllStepLines(a, unescape)
    case JObject(_) => StepLines(instructions, unescape)
    case _ => []
  }

  /** Line `i` (from 0) after numbering: headers as they are, every other line as "<i+1>. line". */
  function NumberedLine(i: nat, line: string): string {
    if IsHeader(line) then line else NatToString(i + 1) + ". " + line
  }

  function Numbered(lines: seq<string>): seq<string> {
    seq(|lines|, i requires 0 <= i < |lines| => NumberedLine(i, lines[i]))
  }

  /** The instructions text: a string unescaped as it is, otherwise the numbered lines joined by newlines and trimmed. */
  function Instructions(instructions: Json, unescape: string -> string): string {
    if instructions.JString? then unescape(instructions.s)
    else TrimSpace(Join(Numbered(CollectedSteps(instructions, unescape)), "\n"))
  }

  /** processStep: appends the lines of one step to `steps`. */
  method ProcessStep(step: Json, unescape: string -> string, steps: seq<string>) returns (steps': seq<string>)
    ensures steps' == steps + StepLines(step, unescape)
  {
    match step
    case JString(s) =>
      steps' := steps + [unescape(s)];
    case JObject(o) =>
      if IsSection(o) {
        steps' := ProcessSection(o, unescape, steps);
        assert StepLines(step, unescape) == SectionHeader(o) + ItemLines(SectionItems(o), unescape);
        AppendAssoc(steps, SectionHeader(o), ItemLines(SectionItems(o), unescape));
      } else {
        steps' := ProcessItem(step, unescape, steps);
        assert StepLines(step, unescape) == ItemLine(step, unescape);
      }
    case _ =>
      assert StepLines(step, unescape) == [];
      steps' := steps;
  }

  /** The HowToSection branch of processStep: the header when the section is named, then a line per item with text. */
  method ProcessSection(o: map<string, Json>, unescape: string -> string, steps: seq<string>) returns (steps': seq<string>)
    ensures steps' == steps + SectionHeader(o) + ItemLines(SectionItems(o), unescape)
  {
    steps' := steps;
    match StringAt(o, "name") {
      case Some(name) => steps' := steps' + [Header(name)];
      case None =>
    }
    ghost var start := steps';
    assert start == steps + SectionHeader(o);
    var items := SectionItems(o);
    for k := 0 to |items|
      invariant steps' == start + ItemLines(items[..k], unescape)
    {
      assert items[..k + 1][..k] == items[..k];
      assert ItemLines(items[..k + 1], unescape) == ItemLines(items[..k], unescape) + ItemLine(items[k], unescape);
      AppendAssoc(start, ItemLines(items[..k], unescape), ItemLine(items[k], unescape));
      steps' := ProcessItem(items[k], unescape, steps');
    }
    assert items[..|items|] == items;
  }

  /** One step object outside a section, or one item of a section: its text, unescaped, when it has any. */
  method ProcessItem(item: Json, unescape: string -> string, steps: seq<string>) returns (steps': seq<string>)
    ensures steps' == steps + ItemLine(item, unescape)
  {
    var (text, ok) := ExtractStepText(item, unescape);
    steps' := steps;
    if ok {
      steps' := steps' + [unescape(text)];
    }
  }

  /** extractInstructions. */
  method ExtractInstructions(instructions: Json, unescape: string -> string) returns (text: string)
    ensures text == Instructions(instructions, unescape)
  {
    if instructions.JString? {
      return unescape(instructions.s);
    }
    var steps := CollectSteps(instructions, unescape);
    var formatted := NumberSteps(steps);
    text := TrimSpace(Join(formatted, "\n"));
  }

  /** The switch of extractInstructions: every step of an array, or the one object, goes through processStep. */
  method CollectSteps(instructions: Json, unescape: string -> string) returns (steps: seq<string>)
    ensures steps == CollectedSteps(instructions, unescape)
  {
    steps := [];
    match instructions {
      case JArray(a) =>
        for k := 0 to |a|
          invariant steps == AllStepLines(a[..k], unescape)
        {
          assert a[..k + 1][..k] == a[..k];
          steps := ProcessStep(a[k], unescape, steps);
        }
        assert a[..|a|] == a;
      case JObject(_) =>
        steps := ProcessStep(instructions, unescape, steps);
      case _ =>
    }
  }

  /** The numbering loop of extractInstructions. */
  method NumberSteps(steps: seq<string>) returns (formatted: seq<string>)
    ensures formatted == Numbered(steps)
  {
    formatted := [];
    for i := 0 to |steps|
      invariant |formatted| == i
      invariant forall j :: 0 <= j < i ==> formatted[j] == NumberedLine(j, steps[j])
    {
      if IsHeader(steps[i]) {
        formatted := formatted + [steps[i]];
      } else {
        formatted := formatted + [NatToString(i + 1) + ". " + steps[i]];
      }
    }
  }

  /** Unless the instructions were one string, they neither start nor end with white space: a leading header loses its newline. */
  lemma InstructionsTrimmed(instructions: Json, unescape: string -> string)
    requires !instructions.JString?
    ensures IsTrimmed(Instructions(instructions, unescape))
  {
    TrimSpaceIsTrimmed(Join(Numbered(CollectedSteps(instructions, unescape)), "\n"));
  }

  /**
   * Every collected line that is not a header appears numbered by its
   * position, headers included in the count (as long as it ends in a
   * character trimming would keep).
   */
  lemma StepShown(instructions: Json, unescape: string -> string, i: int)
    requires !instructions.JString? && 0 <= i < |CollectedSteps(instructions, unescape)|
    requires var line := CollectedSteps(instructions, unescape)[i];
             !IsHeader(line) && line != "" && !IsSpace(line[|line| - 1])
    ensures Contains(Instructions(instructions, unescape), NatToString(i + 1) + ". " + CollectedSteps(instructions, unescape)[i])
  {
    var steps := CollectedSteps(instructions, unescape);
    var numbered := Numbered(steps);
    var line := NatToString(i + 1) + ". " + steps[i];
    assert numbered[i] == line;
    NatToStringDigits(i + 1);
    assert line[0] == NatToString(i + 1)[0];
    assert line[|line| - 1] == steps[i][|steps[i]| - 1];
    JoinOccurs(numbered, "\n", i);
    var o :| OccursAt(Join(numbered, "\n"), numbered[i], o);
    TrimSpaceKeepsOccurrence(Join(numbered, "\n"), line, o);
  }

  /** A section header appears, asterisks and all, whatever its position. */
  lemma HeaderShown(instructions: Json, unescape: string -> string, i: int, name: string)
    requires !instructions.JString? && 0 <= i < |CollectedSteps(instructions, unescape)|
    requires CollectedSteps(instructions, unescape)[i] == Header(name)
    ensures Contains(Instructions(instructions, unescape), "**" + name + "**")
  {
    var steps := CollectedSteps(instructions, unescape);
    var numbered := Numbered(steps);
    var shown := "**" + name + "**";
    HeaderIsHeader(name);
    assert numbered[i] == "\n" + shown;
    JoinOccurs(numbered, "\n", i);
    var joined := Join(numbered, "\n");
    var o :| OccursAt(joined, numbered[i], o);
    OccursAfterHead(joined, "\n", shown, o);
    assert shown[0] == '*' && shown[|shown| - 1] == '*';
    TrimSpaceKeepsOccurrence(joined, shown, o + 1);
  }

  lemma HeaderIsHeader(name: string)
    ensures IsHeader(Header(name)) && Header(name) == "\n" + ("**" + name + "**")
  {
    assert Header(name)[..3] == "\n**";
  }

  // ---- extractRecipeFromMap ----

  /** The lower-cased string contains "recipe". */
  predicate MentionsRecipe(s: string) {
    Contains(ToLower(s), "recipe")
  }

  /** A Recipe `@type`: a string that mentions "recipe", or an array holding such a string. */
  predicate IsRecipeType(t: Json) {
    match t
    case JString(s) => MentionsRecipe(s)
    case JArray(a) => exists k :: 0 <= k < |a| && a[k].JString? && MentionsRecipe(a[k].s)
    case _ => false
  }

  /** The title: the unescaped `name` string, else the unescaped `headline` string, else empty. */
  function Title(o: map<string, Json>, unescape: string -> string): string {
    match StringAt(o, "name")
    case Some(t) => unescape(t)
    case None =>
      match StringAt(o, "headline")
      case Some(t) => unescape(t)
      case None => ""
  }

  /** The string entries of `recipeIngredient`, unescaped, in order; other entries are skipped. */
  function IngredientsOf(a: seq<Json>, unescape: string -> string): seq<string> {
    if a == [] then []
    else IngredientsOf(a[..|a| - 1], unescape) + (if a[|a| - 1].JString? then [unescape(a[|a| - 1].s)] else [])
  }

  function Ingredients(o: map<string, Json>, unescape: string -> string): seq<string> {
    if "recipeIngredient" in o && o["recipeIngredient"].JArray? then IngredientsOf(o["recipeIngredient"].elems, unescape) else []
  }

  /** extractRecipeFromMap's result: a recipe exactly for an object with a Recipe `@type`. */
  function RecipeOf(data: Json, unescape: string -> string): Option<RecipeData> {
    match data
    case JObject(o) =>
      if "@type" in o && IsRecipeType(o["@type"]) then
        Some(RecipeData(
          Title(o, unescape),
          Ingredients(o, unescape),
          if "recipeInstructions" in o then Instructions(o["recipeInstructions"], unescape) else "",
          if "image" in o then ExtractImage(o["image"]) else ""))
      else None
    case _ => None
  }

  /** The `@type` check of extractRecipeFromMap; over an array it stops at the first string that mentions "recipe". */
  method CheckRecipeType(t: Json) returns (isRecipe: bool)
    ensures isRecipe == IsRecipeType(t)
  {
    isRecipe := false;
    match t {
      case JString(v) =>
        isRecipe := MentionsRecipe(v);
      case JArray(v) =>
        var k := 0;
        while k < |v| && !isRecipe
          invariant 0 <= k <= |v|
          invariant isRecipe <==> exists m :: 0 <= m < k && v[m].JString? && MentionsRecipe(v[m].s)
        {
          if v[k].JString? && MentionsRecipe(v[k].s) {
            isRecipe := true;
          }
          k := k + 1;
        }
      case _ =>
    }
  }

  /** The ingredients loop of extractRecipeFromMap. */
  method ExtractIngredients(obj: map<string, Json>, unescape: string -> string) returns (ingredients: seq<string>)
    ensures ingredients == Ingredients(obj, unescape)
  {
    ingredients := [];
    if "recipeIngredient" in obj && obj["recipeIngredient"].JArray? {
      var a := obj["recipeIngredient"].elems;
      for k := 0 to |a|
        invariant ingredients == IngredientsOf(a[..k], unescape)
      {
        assert a[..k + 1][..k] == a[..k];
        if a[k].JString? {
          ingredients := ingredients + [unescape(a[k].s)];
        }
      }
      assert a[..|a|] == a;
    }
  }

  /** extractRecipeFromMap. */
  method ExtractRecipeFromMap(data: Json, unescape: string -> string) returns (recipe: Option<RecipeData>)
    ensures recipe == RecipeOf(data, unescape)
  {
    if !data.JObject? {
      return None;
    }
    var obj := data.fields;
    if "@type" !in obj {
      return None;
    }
    var isRecipe := CheckRecipeType(obj["@type"]);
    if !isRecipe {
      return None;
    }
    var title := "";
    match StringAt(obj, "name") {
      case Some(t) => title := unescape(t);
      case None =>
        match StringAt(obj, "headline") {
          case Some(t) => title := unescape(t);
          case None =>
        }
    }
    var ingredients := ExtractIngredients(obj, unescape);
    var instructions := "";
    if "recipeInstructions" in obj {
      instructions := ExtractInstructions(obj["recipeInstructions"], unescape);
    }
    var image := "";
    if "image" in obj {
      image := ExtractImage(obj["image"]);
    }
    return Some(RecipeData(title, ingredients, instructions, image));
  }

  /** The ingredients are exactly the unescaped string entries, never more than there are entries. */
  lemma {:induction false} IngredientsOfContents(a: seq<Json>, unescape: string -> string, x: string)
    ensures x in IngredientsOf(a, unescape) <==> exists k :: 0 <= k < |a| && a[k].JString? && x == unescape(a[k].s)
    ensures |IngredientsOf(a, unescape)| <= |a|
  {
    if a != [] {
      var init := a[..|a| - 1];
      IngredientsOfContents(init, unescape, x);
      if exists k :: 0 <= k < |a| && a[k].JString? && x == unescape(a[k].s) {
        var k :| 0 <= k < |a| && a[k].JString? && x == unescape(a[k].s);
        if k < |init| {
          assert init[k] == a[k];
        }
      }
      if exists k :: 0 <= k < |init| && init[k].JString? && x == unescape(init[k].s) {
        var k :| 0 <= k < |init| && init[k].JString? && x == unescape(init[k].s);
        assert a[k] == init[k];
      }
    }
  }

  /** When every entry is a string, ingredient k is entry k unescaped. */
  lemma {:induction false} IngredientsOfStrings(a: seq<Json>, unescape: string -> string)
    requires forall k :: 0 <= k < |a| ==> a[k].JString?
    ensures |IngredientsOf(a, unescape)| == |a|
    ensures forall k :: 0 <= k < |a| ==> IngredientsOf(a, unescape)[k] == unescape(a[k].s)
  {
    if a != [] {
      var init := a[..|a| - 1];
      IngredientsOfStrings(init, unescape);
      forall k | 0 <= k < |a|
        ensures IngredientsOf(a, unescape)[k] == unescape(a[k].s)
      {
        if k < |init| {
          assert init[k] == a[k];
        }
      }
    }
  }

  // ---- parseJSONLDContent ----

  function RecipeOfFn(unescape: string -> string): Json -> Option<RecipeData> {
    data => RecipeOf(data, unescape)
  }

  /** The first entry of `items` that is a recipe. */
  function FirstRecipe(items: seq<Json>, unescape: string -> string): Option<RecipeData> {
    FirstOf(items, RecipeOfFn(unescape))
  }

  /**
   * parseJSONLDContent's result: an object with an `@graph` array gives the
   * first recipe of the graph and is not tried itself; any other object is
   * tried itself; a top-level array gives its first recipe.
   */
  function ContentRecipe(parsed: Option<Json>, unescape: string -> string): Option<RecipeData> {
    match parsed
    case None => None
    case Some(data) =>
      match data
      case JObject(o) =>
        if "@graph" in o && o["@graph"].JArray? then FirstRecipe(o["@graph"].elems, unescape)
        else RecipeOf(data, unescape)
      case JArray(a) => FirstRecipe(a, unescape)
      case _ => None
  }

  /** The loop over a graph or a top-level array that returns the first recipe it meets. */
  method FindRecipe(items: seq<Json>, unescape: string -> string) returns (r: Option<RecipeData>)
    ensures r == FirstRecipe(items, unescape)
  {
    for k := 0 to |items|
      invariant FirstRecipe(items, unescape) == FirstRecipe(items[k..], unescape)
    {
      assert items[k..][0] == items[k] && items[k..][1..] == items[k + 1..];
      r := ExtractRecipeFromMap(items[k], unescape);
      if r.Some? {
        return;
      }
    }
    return None;
  }

  /** parseJSONLDContent, given what json.Unmarshal made of the script text. */
  method ParseJsonLdContent(parsed: Option<Json>, unescape: string -> string) returns (r: Option<RecipeData>)
    ensures r == ContentRecipe(parsed, unescape)
  {
    if parsed.None? {
      return None;
    }
    var data := parsed.value;
    match data {
      case JObject(obj) =>
        if "@graph" in obj && obj["@graph"].JArray? {
          r := FindRecipe(obj["@graph"].elems, unescape);
        } else {
          r := ExtractRecipeFromMap(data, unescape);
        }
      case JArray(arr) =>
        r := FindRecipe(arr, unescape);
      case _ =>
        r := None;
    }
  }

  /** The recipe found in a list is the one at the first entry that is a recipe at all. */
  lemma FirstRecipeIsFirst(items: seq<Json>, unescape: string -> string)
    ensures FirstRecipe(items, unescape).Some? <==> exists k :: 0 <= k < |items| && RecipeOf(items[k], unescape).Some?
    ensures FirstRecipe(items, unescape).Some? ==>
              exists k :: 0 <= k < |items| && RecipeOf(items[k], unescape) == FirstRecipe(items, unescape)
                          && forall m :: 0 <= m < k ==> RecipeOf(items[m], unescape).None?
  {
    FirstOfIsFirst(items, RecipeOfFn(unescape));
  }

  /** An `@graph` with no recipe in it hides a top-level object that is a recipe itself. */
  lemma GraphHidesTopLevel(unescape: string -> string)
    ensures var top := JObject(map["@type" := JString("Recipe"), "@graph" := JArray([])]);
            RecipeOf(top, unescape).Some? && ContentRecipe(Some(top), unescape) == None
  {
    assert ToLower("Recipe") == "recipe";
    assert HasPrefix("recipe", "recipe");
  }

  // ---- extractJSONLD ----

  datatype NodeType = ErrorNode | TextNode | DocumentNode | ElementNode | CommentNode | DoctypeNode | RawNode

  datatype Attribute = Attribute(key: string, val: string)

  /** A node of the html.Parse tree: its type, tag name or text, attributes and children (FirstChild is the first of them). */
  datatype Node = Node(kind: NodeType, data: string, attrs: seq<Attribute>, children: seq<Node>)

  /** The nodes in the order a depth-first walk visits them: the node, then each child's subtree. */
  function Preorder(n: Node): seq<Node>
    decreases n
  {
    [n] + PreorderAll(n.children)
  }

  function PreorderAll(ns: seq<Node>): seq<Node>
    decreases ns
  {
    if ns == [] then [] else PreorderAll(ns[..|ns| - 1]) + Preorder(ns[|ns| - 1])
  }

  /** A `<script type="application/ld+json">` element. */
  predicate IsJsonLdScript(n: Node) {
    n.kind == ElementNode && n.data == "script"
    && exists k :: 0 <= k < |n.attrs| && n.attrs[k] == Attribute("type", "application/ld+json")
  }

  /** The recipe a JSON-LD script's first child text holds, if any. */
  function ScriptRecipe(n: Node, parse: string -> Option<Json>, unescape: string -> string): Option<RecipeData> {
    if IsJsonLdScript(n) && n.children != [] then ContentRecipe(parse(n.children[0].data), unescape) else None
  }

  function ScriptRecipeFn(parse: string -> Option<Json>, unescape: string -> string): Node -> Option<RecipeData> {
    n => ScriptRecipe(n, parse, unescape)
  }

  /** extractJSONLD's result: the recipe of the first script in document order that holds one. */
  function JsonLdRecipe(doc: Node, parse: string -> Option<Json>, unescape: string -> string): Option<RecipeData> {
    FirstOf(Preorder(doc), ScriptRecipeFn(parse, unescape))
  }

  /** The recursive `f` of extractJSONLD, with the captured `recipe` passed in and out. */
  method WalkJsonLd(n: Node, parse: string -> Option<Json>, unescape: string -> string, found: Option<RecipeData>)
    returns (found': Option<RecipeData>)
    ensures found' == if found.Some? then found else JsonLdRecipe(n, parse, unescape)
    decreases n
  {
    if found.Some? {
      return found;
    }
    ghost var f := ScriptRecipeFn(parse, unescape);
    if n.kind == ElementNode && n.data == "script" {
      var isJsonLd := false;
      var k := 0;
      while k < |n.attrs| && !isJsonLd
        invariant 0 <= k <= |n.attrs|
        invariant isJsonLd <==> exists m :: 0 <= m < k && n.attrs[m] == Attribute("type", "application/ld+json")
      {
        if n.attrs[k].key == "type" && n.attrs[k].val == "application/ld+json" {
          isJsonLd := true;
        }
        k := k + 1;
      }
      if isJsonLd && n.children != [] {
        var r := ParseJsonLdContent(parse(n.children[0].data), unescape);
        if r.Some? {
          assert Preorder(n)[0] == n;
          return r;
        }
      }
    }
    assert f(n).None?;
    found' := None;
    for k := 0 to |n.children|
      invariant found' == FirstOf(PreorderAll(n.children[..k]), f)
    {
      assert n.children[..k + 1][..k] == n.children[..k];
      FirstOfConcat(PreorderAll(n.children[..k]), Preorder(n.children[k]), f);
      found' := WalkJsonLd(n.children[k], parse, unescape, found');
    }
    assert n.children[..|n.children|] == n.children;
    FirstOfConcat([n], PreorderAll(n.children), f);
  }

  /** extractJSONLD. */
  method ExtractJsonLd(doc: Node, parse: string -> Option<Json>, unescape: string -> string) returns (r: Option<RecipeData>)
    ensures r == JsonLdRecipe(doc, parse, unescape)
  {
    r := WalkJsonLd(doc, parse, unescape, None);
  }

  /** No node of `nodes` is a script that holds a recipe. */
  ghost predicate NoScriptRecipe(nodes: seq<Node>, parse: string -> Option<Json>, unescape: string -> string) {
    forall k :: 0 <= k < |nodes| ==> ScriptRecipe(nodes[k], parse, unescape).None?
  }

  /** The recipe extractJSONLD finds comes from a JSON-LD script, and no script before it in document order holds one. */
  lemma JsonLdFromFirstScript(doc: Node, parse: string -> Option<Json>, unescape: string -> string)
    ensures JsonLdRecipe(doc, parse, unescape).Some? ==>
              exists k :: 0 <= k < |Preorder(doc)|
                          && IsJsonLdScript(Preorder(doc)[k])
                          && ScriptRecipe(Preorder(doc)[k], parse, unescape) == JsonLdRecipe(doc, parse, unescape)
                          && forall m :: 0 <= m < k ==> ScriptRecipe(Preorder(doc)[m], parse, unescape).None?
    ensures JsonLdRecipe(doc, parse, unescape).None? <==> NoScriptRecipe(Preorder(doc), parse, unescape)
  {
    var f := ScriptRecipeFn(parse, unescape);
    var nodes := Preorder(doc);
    FirstOfIsFirst(nodes, f);
    if JsonLdRecipe(doc, parse, unescape).None? {
      forall k | 0 <= k < |nodes|
        ensures ScriptRecipe(nodes[k], parse, unescape).None?
      {
        assert f(nodes[k]).None?;
      }
    } else {
      var k :| 0 <= k < |nodes| && f(nodes[k]) == FirstOf(nodes, f) && forall m :: 0 <= m < k ==> f(nodes[m]).None?;
      forall m | 0 <= m < k
        ensures ScriptRecipe(nodes[m], parse, unescape).None?
      {
        assert f(nodes[m]).None?;
      }
      assert ScriptRecipe(nodes[k], parse, unescape) == JsonLdRecipe(doc, parse, unescape);
      assert IsJsonLdScript(nodes[k]);
      assert ScriptRecipe(nodes[k], parse, unescape).Some?;
    }
  }

  // ---- extractFromHTML ----

  /** The text an `<h1>` or `<title>` element offers as the title: its first child's text, trimmed, when not empty. */
  function TitleText(n: Node): (t: Option<string>)
    ensures t.Some? ==> t.value != "" && IsTrimmed(t.value)
  {
    if n.kind == ElementNode && (n.data == "h1" || n.data == "title")
       && n.children != [] && n.children[0].kind == TextNode && TrimSpace(n.children[0].data) != ""
    then
      TrimSpaceIsTrimmed(n.children[0].data);
      Some(TrimSpace(n.children[0].data))
    else None
  }

  /** The title after a node offers `offer`: an empty title takes the offer, a non-empty one stays. */
  function TitleAfter(title: string, offer: Option<string>): string {
    if title != "" then title else match offer case Some(t) => t case None => ""
  }

  /** An attribute that marks a list item as an ingredient: `class` or `id` with "ingredient" in it, in any case. */
  predicate IngredientAttr(a: Attribute) {
    (a.key == "class" || a.key == "id") && Contains(ToLower(a.val), "ingredient")
  }

  /** One copy of `text` for every marking attribute. */
  function AttrLines(attrs: seq<Attribute>, text: string): seq<string> {
    if attrs == [] then []
    else AttrLines(attrs[..|attrs| - 1], text) + (if IngredientAttr(attrs[|attrs| - 1]) then [text] else [])
  }

  /** The ingredient lines an `<li>` element adds: its trimmed first-child text, once per marking attribute. */
  function IngredientLines(n: Node): seq<string> {
    if n.kind == ElementNode && n.data == "li" && n.children != [] && n.children[0].kind == TextNode
    then AttrLines(n.attrs, TrimSpace(n.children[0].data))
    else []
  }

  /** extractFromHTML's result: the first title offered in document order, and every ingredient line; no title is an error. */
  function HtmlRecipe(doc: Node): Result<RecipeData, string> {
    var title := TitleAfter("", FirstOf(Preorder(doc), TitleText));
    if title == "" then Err("could not extract recipe data")
    else Ok(RecipeData(title, FlatMap(Preorder(doc), IngredientLines), "", ""))
  }

  lemma TitleAfterFirst(title: string, a: seq<Node>, b: seq<Node>)
    ensures TitleAfter(TitleAfter(title, FirstOf(a, TitleText)), FirstOf(b, TitleText)) == TitleAfter(title, FirstOf(a + b, TitleText))
  {
    FirstOfConcat(a, b, TitleText);
    FirstOfIsFirst(a, TitleText);
  }

  /** The recursive `f` of extractFromHTML, with the captured title and ingredients passed in and out. */
  method WalkHtml(n: Node, title: string, ingredients: seq<string>) returns (title': string, ingredients': seq<string>)
    ensures title' == TitleAfter(title, FirstOf(Preorder(n), TitleText))
    ensures ingredients' == ingredients + FlatMap(Preorder(n), IngredientLines)
    decreases n
  {
    title', ingredients' := VisitHtmlNode(n, title, ingredients);
    ghost var midTitle, mid := title', ingredients';
    for k := 0 to |n.children|
      invariant title' == TitleAfter(midTitle, FirstOf(PreorderAll(n.children[..k]), TitleText))
      invariant ingredients' == mid + FlatMap(PreorderAll(n.children[..k]), IngredientLines)
    {
      ghost var t, ing := title', ingredients';
      title', ingredients' := WalkHtml(n.children[k], title', ingredients');
      WalkHtmlStep(n.children, k, midTitle, mid, t, ing, title', ingredients');
    }
    assert n.children[..|n.children|] == n.children;
    OwnNodeFirst(n, title);
    AppendAssoc(ingredients, IngredientLines(n), FlatMap(PreorderAll(n.children), IngredientLines));
  }

  lemma AppendAssoc<T>(a: seq<T>, b: seq<T>, c: seq<T>)
    ensures a + b + c == a + (b + c)
  {
  }

  /** Walking child `k` after the children before it walks one more child's subtree. */
  lemma WalkHtmlStep(children: seq<Node>, k: int, midTitle: string, mid: seq<string>,
                     t: string, ing: seq<string>, t': string, ing': seq<string>)
    requires 0 <= k < |children|
    requires t == TitleAfter(midTitle, FirstOf(PreorderAll(children[..k]), TitleText))
    requires ing == mid + FlatMap(PreorderAll(children[..k]), IngredientLines)
    requires t' == TitleAfter(t, FirstOf(Preorder(children[k]), TitleText))
    requires ing' == ing + FlatMap(Preorder(children[k]), IngredientLines)
    ensures t' == TitleAfter(midTitle, FirstOf(PreorderAll(children[..k + 1]), TitleText))
    ensures ing' == mid + FlatMap(PreorderAll(children[..k + 1]), IngredientLines)
  {
    assert children[..k + 1][..k] == children[..k];
    assert PreorderAll(children[..k + 1]) == PreorderAll(children[..k]) + Preorder(children[k]);
    TitleAfterFirst(midTitle, PreorderAll(children[..k]), Preorder(children[k]));
    FlatMapConcat(PreorderAll(children[..k]), Preorder(children[k]), IngredientLines);
    AppendAssoc(mid, FlatMap(PreorderAll(children[..k]), IngredientLines), FlatMap(Preorder(children[k]), IngredientLines));
  }

  /** What `f` does at one node before it visits the children. */
  method VisitHtmlNode(n: Node, title: string, ingredients: seq<string>) returns (title': string, ingredients': seq<string>)
    ensures title' == TitleAfter(title, TitleText(n))
    ensures ingredients' == ingredients + IngredientLines(n)
  {
    title', ingredients' := title, ingredients;
    if n.kind == ElementNode {
      if title' == "" && (n.data == "h1" || n.data == "title") {
        if n.children != [] && n.children[0].kind == TextNode {
          title' := TrimSpace(n.children[0].data);
        }
      }
      if n.data == "li" {
        for k := 0 to |n.attrs|
          invariant ingredients' == ingredients + if n.children != [] && n.children[0].kind == TextNode
                                                  then AttrLines(n.attrs[..k], TrimSpace(n.children[0].data)) else []
        {
          assert n.attrs[..k + 1][..k] == n.attrs[..k];
          var attr := n.attrs[k];
          if (attr.key == "class" || attr.key == "id") && Contains(ToLower(attr.val), "ingredient") {
            if n.children != [] && n.children[0].kind == TextNode {
              ingredients' := ingredients' + [TrimSpace(n.children[0].data)];
            }
          }
        }
        assert n.attrs[..|n.attrs|] == n.attrs;
      }
    }
  }

  /** The node comes before its descendants, for the title and for the ingredients. */
  lemma OwnNodeFirst(n: Node, title: string)
    ensures TitleAfter(title, FirstOf(Preorder(n), TitleText))
            == TitleAfter(TitleAfter(title, TitleText(n)), FirstOf(PreorderAll(n.children), TitleText))
    ensures FlatMap(Preorder(n), IngredientLines) == IngredientLines(n) + FlatMap(PreorderAll(n.children), IngredientLines)
  {
    assert [n][1..] == [];
    assert FirstOf([n], TitleText) == TitleText(n);
    TitleAfterFirst(title, [n], PreorderAll(n.children));
    assert [n][..0] == [];
    assert FlatMap([n], IngredientLines) == IngredientLines(n);
    FlatMapConcat([n], PreorderAll(n.children), IngredientLines);
  }

  /** extractFromHTML. */
  method ExtractFromHtml(doc: Node) returns (r: Result<RecipeData, string>)
    ensures r == HtmlRecipe(doc)
  {
    var title, ingredients := WalkHtml(doc, "", []);
    assert [] + FlatMap(Preorder(doc), IngredientLines) == FlatMap(Preorder(doc), IngredientLines);
    if title == "" {
      return Err("could not extract recipe data");
    }
    return Ok(RecipeData(title, ingredients, "", ""));
  }

  /** No node of `nodes` offers a title. */
  ghost predicate NoTitleText(nodes: seq<Node>) {
    forall k :: 0 <= k < |nodes| ==> TitleText(nodes[k]).None?
  }

  /**
   * The fallback fails exactly when no `<h1>` or `<title>` offers non-blank
   * text; otherwise its title is the first such text, trimmed, and every
   * ingredient is trimmed.
   */
  lemma HtmlRecipeFacts(doc: Node)
    ensures HtmlRecipe(doc).Err? <==> NoTitleText(Preorder(doc))
    ensures HtmlRecipe(doc).Ok? ==>
              exists k :: 0 <= k < |Preorder(doc)| && TitleText(Preorder(doc)[k]) == Some(HtmlRecipe(doc).value.title)
                          && forall m :: 0 <= m < k ==> TitleText(Preorder(doc)[m]).None?
    ensures HtmlRecipe(doc).Ok? ==> forall x :: x in HtmlRecipe(doc).value.ingredients ==> IsTrimmed(x)
  {
    var nodes := Preorder(doc);
    FirstOfIsFirst(nodes, TitleText);
    if FirstOf(nodes, TitleText).None? {
      forall k | 0 <= k < |nodes|
        ensures TitleText(nodes[k]).None?
      {
        assert (TitleText)(nodes[k]).None?;
      }
    } else {
      var k :| 0 <= k < |nodes| && (TitleText)(nodes[k]) == FirstOf(nodes, TitleText)
               && forall m :: 0 <= m < k ==> (TitleText)(nodes[m]).None?;
      forall m | 0 <= m < k
        ensures TitleText(nodes[m]).None?
      {
        assert (TitleText)(nodes[m]).None?;
      }
      assert TitleText(nodes[k]) == FirstOf(nodes, TitleText);
      assert HtmlRecipe(doc).Ok? && HtmlRecipe(doc).value.title == TitleText(nodes[k]).value;
    }
    if HtmlRecipe(doc).Ok? {
      forall x | x in HtmlRecipe(doc).value.ingredients
        ensures IsTrimmed(x)
      {
        FlatMapMembers(Preorder(doc), IngredientLines, x);
        var k :| 0 <= k < |Preorder(doc)| && x in IngredientLines(Preorder(doc)[k]);
        AttrLinesAreText(Preorder(doc)[k]);
      }
    }
  }

  lemma AttrLinesAreText(n: Node)
    ensures forall x :: x in IngredientLines(n) ==> IsTrimmed(x)
  {
    if n.kind == ElementNode && n.data == "li" && n.children != [] && n.children[0].kind == TextNode {
      TrimSpaceIsTrimmed(n.children[0].data);
      AttrLinesCopies(n.attrs, TrimSpace(n.children[0].data));
    }
  }

  lemma {:induction false} AttrLinesCopies(attrs: seq<Attribute>, text: string)
    ensures forall x :: x in AttrLines(attrs, text) ==> x == text
  {
    if attrs != [] {
      AttrLinesCopies(attrs[..|attrs| - 1], text);
    }
  }

  // ---- ParseRecipeFromURL, after the fetch ----

  /** JSON-LD first, the HTML heuristics when no script holds a recipe. */
  method ParseRecipeFromDocument(doc: Node, parse: string -> Option<Json>, unescape: string -> string)
    returns (r: Result<RecipeData, string>)
    ensures JsonLdRecipe(doc, parse, unescape).Some? ==> r == Ok(JsonLdRecipe(doc, parse, unescape).value)
    ensures JsonLdRecipe(doc, parse, unescape).None? ==> r == HtmlRecipe(doc)
  {
    var recipe := ExtractJsonLd(doc, parse, unescape);
    if recipe.Some? {
      return Ok(recipe.value);
    }
    r := ExtractFromHtml(doc);
  }

  // ---- The HTML entities example ----

  /** The JSON-LD object of the HTML entities example, as decoded. */
  function EntitiesExample(): Json {
    JObject(map[
      "@context" := JString("http://schema.org"),
      "@type" := JString("Recipe"),
      "name" := JString("Chicken &quot;Parmesan&quot;"),
      "recipeIngredient" := JArray([JString("1 &frac12; lbs chicken breast"), JString("Salt &amp; Pepper")]),
      "recipeInstructions" := JArray([
        JObject(map["@type" := JString("HowToStep"), "text" := JString("Season with &quot;generous&quot; salt.")]),
        JString("Cook for 10&#45;15 minutes.")])])
  }

  function ExampleSteps(): seq<Json> {
    [JObject(map["@type" := JString("HowToStep"), "text" := JString("Season with &quot;generous&quot; salt.")]),
     JString("Cook for 10&#45;15 minutes.")]
  }

  /**
   * With an unescape that decodes the example's entities (and leaves decoded
   * text alone), the recipe is the expected one: the title and ingredients
   * decoded, both steps numbered, and no image.
   */
  lemma EntitiesExampleRecipe(unescape: string -> string)
    requires unescape("Chicken &quot;Parmesan&quot;") == "Chicken \"Parmesan\""
    requires unescape("1 &frac12; lbs chicken breast") == "1 \U{00BD} lbs chicken breast"
    requires unescape("Salt &amp; Pepper") == "Salt & Pepper"
    requires unescape("Season with &quot;generous&quot; salt.") == "Season with \"generous\" salt."
    requires unescape("Season with \"generous\" salt.") == "Season with \"generous\" salt."
    requires unescape("Cook for 10&#45;15 minutes.") == "Cook for 10-15 minutes."
    ensures RecipeOf(EntitiesExample(), unescape) == Some(RecipeData(
              "Chicken \"Parmesan\"",
              ["1 \U{00BD} lbs chicken breast", "Salt & Pepper"],
              "1. Season with \"generous\" salt.\n2. Cook for 10-15 minutes.",
              ""))
  {
    var o := EntitiesExample().fields;
    ExampleFields();
    ExampleIsRecipe();
    ExampleInstructions(unescape);
    ExampleIngredients(unescape);
  }

  lemma ExampleFields()
    ensures var o := EntitiesExample().fields;
            "@type" in o && o["@type"] == JString("Recipe")
            && StringAt(o, "name") == Some("Chicken &quot;Parmesan&quot;")
            && "recipeIngredient" in o
            && o["recipeIngredient"] == JArray([JString("1 &frac12; lbs chicken breast"), JString("Salt &amp; Pepper")])
            && "recipeInstructions" in o && o["recipeInstructions"] == JArray(ExampleSteps())
            && "image" !in o
  {
    var o := EntitiesExample().fields;
    assert "image" != "@type" by { assert "image"[0] != "@type"[0]; }
    assert "image" != "name" && "image" != "@context" && "image" != "recipeIngredient" && "image" != "recipeInstructions";
    assert o.Keys == {"@context", "@type", "name", "recipeIngredient", "recipeInstructions"};
  }

  lemma ExampleIsRecipe()
    ensures IsRecipeType(JString("Recipe"))
  {
    assert ToLower("Recipe") == "recipe";
    assert HasPrefix("recipe", "recipe");
  }

  lemma ExampleIngredients(unescape: string -> string)
    requires unescape("1 &frac12; lbs chicken breast") == "1 \U{00BD} lbs chicken breast"
    requires unescape("Salt &amp; Pepper") == "Salt & Pepper"
    ensures IngredientsOf([JString("1 &frac12; lbs chicken breast"), JString("Salt &amp; Pepper")], unescape)
            == ["1 \U{00BD} lbs chicken breast", "Salt & Pepper"]
  {
    var ings := [JString("1 &frac12; lbs chicken breast"), JString("Salt &amp; Pepper")];
    assert ings[..1] == [ings[0]];
    assert ings[..1][..0] == [];
  }

  lemma ExampleInstructions(unescape: string -> string)
    requires unescape("Season with &quot;generous&quot; salt.") == "Season with \"generous\" salt."
    requires unescape("Season with \"generous\" salt.") == "Season with \"generous\" salt."
    requires unescape("Cook for 10&#45;15 minutes.") == "Cook for 10-15 minutes."
    ensures Instructions(JArray(ExampleSteps()), unescape) == "1. Season with \"generous\" salt.\n2. Cook for 10-15 minutes."
  {
    var lines := ["Season with \"generous\" salt.", "Cook for 10-15 minutes."];
    ExampleStepLines(unescape);
    ExampleNumbering(lines);
  }

  lemma ExampleStepLines(unescape: string -> string)
    requires unescape("Season with &quot;generous&quot; salt.") == "Season with \"generous\" salt."
    requires unescape("Season with \"generous\" salt.") == "Season with \"generous\" salt."
    requires unescape("Cook for 10&#45;15 minutes.") == "Cook for 10-15 minutes."
    ensures AllStepLines(ExampleSteps(), unescape) == ["Season with \"generous\" salt.", "Cook for 10-15 minutes."]
  {
    var steps := ExampleSteps();
    ExampleFirstStep(unescape);
    assert steps[..1] == [steps[0]];
    assert steps[..1][..0] == [];
  }

  lemma ExampleFirstStep(unescape: string -> string)
    requires unescape("Season with &quot;generous&quot; salt.") == "Season with \"generous\" salt."
    requires unescape("Season with \"generous\" salt.") == "Season with \"generous\" salt."
    ensures StepLines(ExampleSteps()[0], unescape) == ["Season with \"generous\" salt."]
  {
    var step := ExampleSteps()[0];
    ExampleFirstStepFields();
    NoOccurrenceOfHead("HowToStep", "Section");
    PlainStepLines(step, "Season with &quot;generous&quot; salt.", unescape);
  }

  lemma ExampleFirstStepFields()
    ensures ExampleSteps()[0].JObject?
    ensures StringAt(ExampleSteps()[0].fields, "@type") == Some("HowToStep")
    ensures StringAt(ExampleSteps()[0].fields, "text") == Some("Season with &quot;generous&quot; salt.")
  {
  }

  /** A step object that is not a section and has a `text` string adds that text, unescaped twice. */
  lemma PlainStepLines(step: Json, text: string, unescape: string -> string)
    requires step.JObject? && !IsSection(step.fields) && StringAt(step.fields, "text") == Some(text)
    ensures StepLines(step, unescape) == [unescape(unescape(text))]
  {
  }

  lemma ExampleNumbering(lines: seq<string>)
    requires lines == ["Season with \"generous\" salt.", "Cook for 10-15 minutes."]
    ensures TrimSpace(Join(Numbered(lines), "\n")) == "1. Season with \"generous\" salt.\n2. Cook for 10-15 minutes."
  {
    var a, b := "1. Season with \"generous\" salt.", "2. Cook for 10-15 minutes.";
    NumberedPlainLine(0, lines[0], "1");
    NumberedPlainLine(1, lines[1], "2");
    ExampleFirstLineText(lines[0]);
    ExampleSecondLineText(lines[1]);
    assert Numbered(lines) == [a, b];
    assert [a, b][1..] == [b];
    assert Join([a, b], "\n") == a + "\n" + b;
    ExampleJoined(a, b);
  }

  lemma ExampleFirstLineText(line: string)
    requires line == "Season with \"generous\" salt."
    ensures "1" + ". " + line == "1. Season with \"generous\" salt."
  {
  }

  lemma ExampleSecondLineText(line: string)
    requires line == "Cook for 10-15 minutes."
    ensures "2" + ". " + line == "2. Cook for 10-15 minutes."
  {
  }

  /** A line that does not start with a newline gets the number `digits`. */
  lemma NumberedPlainLine(i: nat, line: string, digits: string)
    requires line != [] && line[0] != '\n' && NatToString(i + 1) == digits
    ensures NumberedLine(i, line) == digits + ". " + line
  {
    if |line| >= 3 {
      assert line[..3][0] == line[0];
    }
  }

  lemma ExampleJoined(a: string, b: string)
    requires a == "1. Season with \"generous\" salt." && b == "2. Cook for 10-15 minutes."
    ensures TrimSpace(a + "\n" + b) == "1. Season with \"generous\" salt.\n2. Cook for 10-15 minutes."
  {
    var joined := "1. Season with \"generous\" salt.\n2. Cook for 10-15 minutes.";
    assert a + "\n" + b == joined;
    assert joined[0] == '1' && joined[|joined| - 1] == '.';
    TrimmedIsFixed(joined);
  }
}
