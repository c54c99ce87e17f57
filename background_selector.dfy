/**
 * The background picker's pure logic: the style whitelist applied before a
 * pattern's style reaches the page, the category tab filter over the pattern
 * list, the lookup of the selected pattern, and what the picker's trigger
 * button shows for it (including the fallback when the lookup fails).
 */
module BackgroundSelector {
  import opened Options
  import opened Arrays

  /** A CSS style object: property name to value. Only string values are modelled. */
  type Style = map<string, string>

  /** A background pattern; `category` is the id of its tab. */
  datatype Pattern = Pattern(id: string, name: string, category: string, style: Style, badge: Option<string>)

  /** The pseudo-category of the tab that shows every pattern. */
  const AllCategories: string := "all"

  /** The six paint properties a pattern may carry onto the page. */
  const AllowedKeys: set<string> :=
    {"background", "backgroundImage", "backgroundColor", "backgroundSize", "WebkitMaskImage", "maskImage"}

  /** JavaScript truthiness of `style[k]`: present and not the empty string. */
  predicate Truthy(style: Style, k: string)
  {
    k in style && style[k] != ""
  }

  /** The whitelist as a whole: the truthy entries of `style` whose key is allowed. */
  function CleanStyle(style: Style): Style
  {
    CleanStyleOver(style, AllowedKeys)
  }

  /** The truthy entries of `style` whose key is in `keys`. */
  function CleanStyleOver(style: Style, keys: set<string>): Style
  {
    map k | k in style.Keys * keys && style[k] != "" :: style[k]
  }

  /** `getCleanStyle`: copies the six allowed properties one by one, each only when truthy. */
  method GetCleanStyle(style: Style) returns (clean: Style)
    ensures clean == CleanStyle(style)
    ensures clean.Keys <= AllowedKeys
    ensures forall k :: k in clean <==> k in AllowedKeys && Truthy(style, k)
    ensures forall k :: k in clean ==> k in style && clean[k] == style[k]
  {
    clean := map[];
    ghost var done: set<string> := {};
    assert clean == CleanStyleOver(style, done);
    CleanStyleOverAdd(style, done, "background");
    if Truthy(style, "background") { clean := clean["background" := style["background"]]; }
    done := done + {"background"};
    CleanStyleOverAdd(style, done, "backgroundImage");
    if Truthy(style, "backgroundImage") { clean := clean["backgroundImage" := style["backgroundImage"]]; }
    done := done + {"backgroundImage"};
    CleanStyleOverAdd(style, done, "backgroundColor");
    if Truthy(style, "backgroundColor") { clean := clean["backgroundColor" := style["backgroundColor"]]; }
    done := done + {"backgroundColor"};
    CleanStyleOverAdd(style, done, "backgroundSize");
    if Truthy(style, "backgroundSize") { clean := clean["backgroundSize" := style["backgroundSize"]]; }
    done := done + {"backgroundSize"};
    CleanStyleOverAdd(style, done, "WebkitMaskImage");
    if Truthy(style, "WebkitMaskImage") { clean := clean["WebkitMaskImage" := style["WebkitMaskImage"]]; }
    done := done + {"WebkitMaskImage"};
    CleanStyleOverAdd(style, done, "maskImage");
    if Truthy(style, "maskImage") { clean := clean["maskImage" := style["maskImage"]]; }
    done := done + {"maskImage"};
    assert done == AllowedKeys;
    CleanStyleEntries(style, clean);
  }

  /** Widening the key set by one key adds that key's entry exactly when it is truthy. */
  lemma CleanStyleOverAdd(style: Style, keys: set<string>, k: string)
    ensures CleanStyleOver(style, keys + {k})
            == if Truthy(style, k) then CleanStyleOver(style, keys)[k := style[k]] else CleanStyleOver(style, keys)
  {
  }

  /** The whitelist keeps exactly the allowed truthy entries, with their values unchanged. */
  lemma CleanStyleEntries(style: Style, clean: Style)
    requires clean == CleanStyle(style)
    ensures clean.Keys <= AllowedKeys
    ensures forall k :: k in clean <==> k in AllowedKeys && Truthy(style, k)
    ensures forall k :: k in clean ==> k in style && clean[k] == style[k]
  {
  }

  /** Cleaning a clean style changes nothing. */
  lemma CleanStyleIdempotent(style: Style)
    ensures CleanStyle(CleanStyle(style)) == CleanStyle(style)
  {
  }

  /** An empty style cleans to an empty style. */
  lemma CleanStyleEmpty()
    ensures CleanStyle(map[]) == map[]
  {
  }

  /** `filteredPatterns`: the "all" tab shows the whole list, any other tab its own patterns. */
  function FilteredPatterns(patterns: seq<Pattern>, activeCategory: string): (r: seq<Pattern>)
    ensures activeCategory == AllCategories ==> r == patterns
    ensures activeCategory != AllCategories ==>
              forall p :: p in r <==> p in patterns && p.category == activeCategory
  {
    if activeCategory == AllCategories then patterns
    else Filter(patterns, (p: Pattern) => p.category == activeCategory)
  }

  /**
   * Under a tab other than "all", the shown patterns are the patterns of that
   * category, in list order, each as often as in the list.
   */
  lemma FilteredPatternsExact(patterns: seq<Pattern>, activeCategory: string)
    requires activeCategory != AllCategories
    ensures IsSubsequence(FilteredPatterns(patterns, activeCategory), patterns)
    ensures forall p :: multiset(FilteredPatterns(patterns, activeCategory))[p]
                        == if p.category == activeCategory then multiset(patterns)[p] else 0
  {
    var keep := (p: Pattern) => p.category == activeCategory;
    FilterIsSubsequence(patterns, keep);
    FilterCounts(patterns, keep);
  }

  /** `selectedPattern`: the first pattern whose id is `selected`, if any. */
  function SelectedPattern(patterns: seq<Pattern>, selected: string): (r: Option<Pattern>)
    ensures r.Some? ==> r.value.id == selected && r.value in patterns
    ensures r.None? <==> forall p :: p in patterns ==> p.id != selected
  {
    Find(patterns, (p: Pattern) => p.id == selected)
  }

  predicate IdsDistinct(patterns: seq<Pattern>)
  {
    forall i, j :: 0 <= i < j < |patterns| ==> patterns[i].id != patterns[j].id
  }

  /** With distinct ids, selecting a listed pattern's id finds exactly that pattern. */
  lemma SelectedPatternRoundTrip(patterns: seq<Pattern>, p: Pattern)
    requires IdsDistinct(patterns) && p in patterns
    ensures SelectedPattern(patterns, p.id) == Some(p)
  {
    var i :| 0 <= i < |patterns| && patterns[i] == p;
    var matches := (q: Pattern) => q.id == p.id;
    assert forall j :: 0 <= j < i ==> !matches(patterns[j]);
  }

  /** JavaScript `s || fallback` on a string. */
  function OrElse(s: string, fallback: string): string
  {
    if s != "" then s else fallback
  }

  /** What the picker's trigger button shows: a preview swatch and two labels. */
  datatype TriggerView = TriggerView(preview: Style, nameLabel: string, categoryLabel: string)

  const FallbackPreview: Style := map["background" := "#000"]
  const FallbackName: string := "Select Background"
  const FallbackCategory: string := "Pattern"

  /**
   * The trigger button for the current selection: the selected pattern's cleaned
   * style, name and category, each falsy label replaced by its fallback; when no
   * pattern has the selected id, a black swatch and the two fallback labels.
   */
  function Trigger(patterns: seq<Pattern>, selected: string): (v: TriggerView)
    ensures (forall p :: p in patterns ==> p.id != selected) ==>
              v == TriggerView(FallbackPreview, FallbackName, FallbackCategory)
    ensures forall i :: 0 <= i < |patterns| && patterns[i].id == selected
                        && (forall j :: 0 <= j < i ==> patterns[j].id != selected) ==>
              && v.preview == CleanStyle(patterns[i].style)
              && v.nameLabel == OrElse(patterns[i].name, FallbackName)
              && v.categoryLabel == OrElse(patterns[i].category, FallbackCategory)
    ensures v.preview.Keys <= AllowedKeys
  {
    var sel := SelectedPattern(patterns, selected);
    var preview := if sel.Some? then CleanStyle(sel.value.style) else FallbackPreview;
    var name := if sel.Some? then sel.value.name else "";
    var category := if sel.Some? then sel.value.category else "";
    TriggerView(preview, OrElse(name, FallbackName), OrElse(category, FallbackCategory))
  }
}
