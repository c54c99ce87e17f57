# Screenshot composer: format and background catalogs

This project models the catalog-and-filter layer behind the screenshot
composer's two pickers, and proves properties of it in Dafny.

- **Export formats** (`Formats`, from `lib/formats.ts`). The fixed, ordered list of
  eleven export presets: eight social, two presentation, and the `auto` sentinel
  (0x0, category custom). `getFormatById` looks up the first entry with a given id.
- **Format groups** (`FormatSelector`, from `components/format-selector.tsx`). The
  picker splits the catalog into its custom, social and presentation entries,
  using three order-preserving filters.
- **Background picker** (`BackgroundSelector`, from `components/background-selector.tsx`).
  - `getCleanStyle` copies at most six paint properties, and only truthy ones.
  - The category tab filter treats `"all"` as "every pattern".
  - The selected pattern is a lookup by id that can fail.
  - The trigger button shows the selected pattern's cleaned style, its name and
    its category. When the lookup fails, or a label is empty, it shows a
    fallback.
- **Array operations** (`Arrays`). JavaScript's `Array.prototype.find` and
  `Array.prototype.filter` are modelled as recursive functions. `Find` is
  specified as first-match. `Filter` is specified as order-preserving, complete
  and exact.

Modelling choices:
- A CSS style object is a `map<string, string>`. "Truthy" means the key is present
  and its value is not the empty string.
- `getCleanStyle` is a method, because the source builds its result by six
  conditional assignments. It is proved equal to the function `CleanStyle`, and
  the whitelist's properties are proved about that function.
- A format's category is a three-valued datatype, so "every category is social,
  presentation or custom" holds by typing.
- A pattern's category and the active tab are strings. The source compares the
  tab with the literal `"all"` and renders `category || "Pattern"`, and both need
  the string value.
- The pattern data itself is not part of this model. Patterns are arbitrary lists,
  and the lookup round-trip assumes their ids are distinct.
- Where the design text and the code differ, the model follows the code. The
  whitelist also drops an allowed key whose value is the empty string. An empty
  pattern name or category also falls back to the default label.

## Model

| member | source | states |
|---|---|---|
| `Arrays.Find` | lib/formats.ts:29 | `find` succeeds iff some element matches, returns a matching element of the list, and returns the first match |
| `Arrays.Filter` | components/format-selector.tsx:19-21 | `filter` keeps only matching elements of the input, keeps every matching element, and is no longer than its input |
| `Arrays.FilterIsSubsequence` | components/background-selector.tsx:37 | the filtered list is a subsequence of the input (relative order preserved) |
| `Arrays.FilterCounts` | components/background-selector.tsx:37 | each matching element occurs in the result exactly as often as in the input; a non-matching one does not occur |
| `Formats.GetFormatById` | lib/formats.ts:28-30 | a found format carries the requested id and is a catalog entry; the result is undefined exactly when no entry has that id |
| `Formats.CatalogIdsDistinct` | lib/formats.ts:11-25 | no two catalog entries share an id |
| `Formats.GetFormatByIdRoundTrip` | lib/formats.ts:9-30 | looking up any catalog entry by its own id returns exactly that entry |
| `Formats.GetAutoFormat` | lib/formats.ts:25-30 | the lookup of "auto" succeeds and yields the 0x0 custom sentinel |
| `Formats.GetFormatByIdMissing` | lib/formats.ts:28-30 | the lookup of an id no entry carries (the empty string) returns undefined |
| `Formats.NonAutoSizesPositive` | lib/formats.ts:11-22 | every entry other than "auto" has strictly positive width and height |
| `Formats.CatalogShape` | lib/formats.ts:9-26 | the catalog has eleven entries and the sentinel is its last |
| `FormatSelector.FormatsIn` | components/format-selector.tsx:19-21 | a group holds exactly the catalog entries of its category |
| `FormatSelector.GroupsPreserveOrder` | components/format-selector.tsx:19-21 | each group keeps the catalog's relative order |
| `FormatSelector.GroupsPartitionCatalog` | components/format-selector.tsx:19-21 | the three groups add up (as multisets) to the catalog, and each entry occurs once in its own group and in no other |
| `FormatSelector.GroupContents` | components/format-selector.tsx:19-21 | the social group is the first eight entries, the presentation group the next two, and the custom group only the sentinel |
| `FormatSelector.AutoOnlyInCustom` | components/format-selector.tsx:21 | the sentinel is in the custom group and in neither other group |
| `BackgroundSelector.GetCleanStyle` | components/background-selector.tsx:39-48 | the output has only whitelisted keys; an allowed key is present iff its input value is truthy, with the input's value; the output equals `CleanStyle` |
| `BackgroundSelector.CleanStyleEntries` | components/background-selector.tsx:40-47 | the whitelist keeps exactly the allowed truthy entries, with their values unchanged |
| `BackgroundSelector.CleanStyleIdempotent` | components/background-selector.tsx:39-48 | cleaning an already clean style changes nothing |
| `BackgroundSelector.CleanStyleEmpty` | components/background-selector.tsx:40-47 | an empty style cleans to an empty style |
| `BackgroundSelector.FilteredPatterns` | components/background-selector.tsx:36-37 | the "all" tab returns the list unchanged; any other tab returns exactly the patterns of that category |
| `BackgroundSelector.FilteredPatternsExact` | components/background-selector.tsx:37 | under a specific tab the result keeps list order and each pattern of that category as often as in the list |
| `BackgroundSelector.SelectedPattern` | components/background-selector.tsx:20 | a found pattern has the selected id and is in the list; the lookup fails exactly when no pattern has that id |
| `BackgroundSelector.SelectedPatternRoundTrip` | components/background-selector.tsx:20 | with distinct ids, selecting a listed pattern's id finds exactly that pattern |
| `BackgroundSelector.Trigger` | components/background-selector.tsx:59-63 | with no matching pattern: a black `#000` swatch, "Select Background" and "Pattern"; otherwise the first match's cleaned style, and its name and category unless empty; the swatch never carries a non-whitelisted key |

## Left out

- The pattern data and its category list (`gridPatterns`, `PATTERN_CATEGORIES`, `getRandomPattern` in `lib/patterns`) are not part of this model. Patterns are arbitrary lists here.
- React state and effects are UI event plumbing and are left out. This covers the dropdown's open flag, the active tab, the ref and the click-outside `mousedown` listener.
- JSX rendering is left out: the grid cells (title, badge, highlight of the selected id), class names, icons and the select widgets.
- Style values that are numbers are not modelled. A numeric `0` would be falsy in JavaScript.
- The insertion order of keys in the cleaned style object is not modelled, because maps are unordered.
- The export pipeline in `app/(app)/layout.tsx` is not part of this model. This covers canvas resampling, PNG encoding, download file names, clipboard writes, image upload and random background choice. These depend on browser canvas, file, clipboard and randomness APIs.
