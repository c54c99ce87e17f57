/**
 * The format picker's grouping: the catalog split into its custom, social and
 * presentation entries, each group a filter over the catalog by category.
 */
module FormatSelector {
  import opened Arrays
  import opened Formats

  /** The entries of one category, in catalog order (`EXPORT_FORMATS.filter(...)`). */
  function FormatsIn(c: FormatCategory): (r: seq<ExportFormat>)
    ensures forall f :: f in r <==> f in ExportFormats() && f.category == c
  {
    InCategory(ExportFormats(), c)
  }

  /** The entries of `fs` whose category is `c`, in order. */
  function InCategory(fs: seq<ExportFormat>, c: FormatCategory): seq<ExportFormat>
  {
    Filter(fs, (f: ExportFormat) => f.category == c)
  }

  function SocialFormats(): seq<ExportFormat> { FormatsIn(Social) }
  function PresentationFormats(): seq<ExportFormat> { FormatsIn(Presentation) }
  function CustomFormats(): seq<ExportFormat> { FormatsIn(Custom) }

  /** Each group keeps the catalog's relative order. */
  lemma GroupsPreserveOrder(c: FormatCategory)
    ensures IsSubsequence(FormatsIn(c), ExportFormats())
  {
    FilterIsSubsequence(ExportFormats(), (f: ExportFormat) => f.category == c);
  }

  /**
   * The three groups together hold every catalog entry exactly once: as
   * multisets they add up to the catalog, and an entry of category `c`
   * occurs once in group `c` and in no other group.
   */
  lemma GroupsPartitionCatalog()
    ensures multiset(CustomFormats()) + multiset(SocialFormats()) + multiset(PresentationFormats())
            == multiset(ExportFormats())
    ensures forall f, c :: f in ExportFormats() ==>
              multiset(FormatsIn(c))[f] == if c == f.category then 1 else 0
  {
    CatalogIdsDistinct();
    PartitionByCategory(ExportFormats());
  }

  /** The split by category of any list with distinct ids is a partition of it. */
  lemma PartitionByCategory(fs: seq<ExportFormat>)
    requires IdsDistinct(fs)
    ensures multiset(InCategory(fs, Custom)) + multiset(InCategory(fs, Social)) + multiset(InCategory(fs, Presentation))
            == multiset(fs)
    ensures forall f, c :: f in fs ==> multiset(InCategory(fs, c))[f] == if c == f.category then 1 else 0
  {
    FilterCounts(fs, (f: ExportFormat) => f.category == Custom);
    FilterCounts(fs, (f: ExportFormat) => f.category == Social);
    FilterCounts(fs, (f: ExportFormat) => f.category == Presentation);
    var sum := multiset(InCategory(fs, Custom)) + multiset(InCategory(fs, Social)) + multiset(InCategory(fs, Presentation));
    forall f
      ensures sum[f] == multiset(fs)[f]
    {
      match f.category {
        case Custom =>
        case Social =>
        case Presentation =>
      }
    }
    assert sum == multiset(fs);
    forall f, c | f in fs
      ensures multiset(InCategory(fs, c))[f] == if c == f.category then 1 else 0
    {
      OccursOnce(fs, f);
      FilterCounts(fs, (g: ExportFormat) => g.category == c);
    }
  }

  /** An entry of a list with distinct ids occurs in it exactly once. */
  lemma {:induction false} OccursOnce(fs: seq<ExportFormat>, f: ExportFormat)
    requires IdsDistinct(fs) && f in fs
    ensures multiset(fs)[f] == 1
  {
    assert fs == [fs[0]] + fs[1..];
    assert IdsDistinct(fs[1..]) by {
      forall i, j | 0 <= i < j < |fs| - 1 ensures fs[1..][i].id != fs[1..][j].id {
        assert fs[1..][i] == fs[i + 1] && fs[1..][j] == fs[j + 1];
      }
    }
    if fs[0] == f {
      forall k | 0 <= k < |fs[1..]| ensures fs[1..][k] != f {
        assert fs[1..][k] == fs[k + 1];
      }
      assert f !in fs[1..];
    } else {
      OccursOnce(fs[1..], f);
    }
  }

  /** The groups as the catalog declares them: 8 social, 2 presentation, 1 custom. */
  lemma GroupContents()
    ensures SocialFormats() == ExportFormats()[..8]
    ensures PresentationFormats() == ExportFormats()[8..10]
    ensures CustomFormats() == ExportFormats()[10..] == [AutoFormat()]
    ensures |SocialFormats()| == 8 && |PresentationFormats()| == 2 && |CustomFormats()| == 1
  {
    GroupsAreBlocks();
    CatalogLayout();
  }

  /** Each group is the catalog block of its category. */
  lemma GroupsAreBlocks()
    ensures SocialFormats() == SocialPresets()
    ensures PresentationFormats() == PresentationPresets()
    ensures CustomFormats() == [AutoFormat()]
  {
    SocialPresetsAreSocial();
    PresentationPresetsArePresentation();
    var social, slides, custom := SocialPresets(), PresentationPresets(), [AutoFormat()];
    GroupOfBlocks(social, slides, custom, Social);
    GroupOfBlocks(social, slides, custom, Presentation);
    GroupOfBlocks(social, slides, custom, Custom);
  }

  /** Grouping a list made of three single-category blocks picks out one block. */
  lemma GroupOfBlocks(social: seq<ExportFormat>, slides: seq<ExportFormat>, custom: seq<ExportFormat>, c: FormatCategory)
    requires forall i :: 0 <= i < |social| ==> social[i].category == Social
    requires forall i :: 0 <= i < |slides| ==> slides[i].category == Presentation
    requires forall i :: 0 <= i < |custom| ==> custom[i].category == Custom
    ensures InCategory(social + slides + custom, c)
            == match c case Social => social case Presentation => slides case Custom => custom
  {
    var p := (f: ExportFormat) => f.category == c;
    FilterAppend(social + slides, custom, p);
    FilterAppend(social, slides, p);
    match c {
      case Social =>
        FilterAll(social, p); FilterNone(slides, p); FilterNone(custom, p);
      case Presentation =>
        FilterNone(social, p); FilterAll(slides, p); FilterNone(custom, p);
      case Custom =>
        FilterNone(social, p); FilterNone(slides, p); FilterAll(custom, p);
    }
  }

  /** The sentinel is listed under custom and nowhere else. */
  lemma AutoOnlyInCustom()
    ensures AutoFormat() in CustomFormats()
    ensures AutoFormat() !in SocialFormats() && AutoFormat() !in PresentationFormats()
  {
    GroupsAreBlocks();
    SocialPresetsAreSocial();
    PresentationPresetsArePresentation();
  }
}
