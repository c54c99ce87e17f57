/**
 * The export-format catalog: a fixed, ordered list of named output sizes and a
 * first-match lookup by id. The entry with id "auto" and size 0x0 is the
 * sentinel for "export at the canvas's own logical size".
 */
module Formats {
  import opened Options
  import opened Arrays

  /** The three values of the source's `category` string union. */
  datatype FormatCategory = Social | Presentation | Custom

  /** One preset; width and height are pixel counts. */
  datatype ExportFormat = ExportFormat(id: string, name: string, width: int, height: int, category: FormatCategory)

  /** The catalog, in declaration order: social presets, presentation presets, the sentinel. */
  function ExportFormats(): seq<ExportFormat>
  {
    SocialPresets() + PresentationPresets() + [AutoFormat()]
  }

  function SocialPresets(): seq<ExportFormat>
  {
    [
      ExportFormat("twitter-post", "Twitter Post", 1200, 675, Social),
      ExportFormat("twitter-header", "Twitter Header", 1500, 500, Social),
      ExportFormat("instagram-square", "Instagram Square", 1080, 1080, Social),
      ExportFormat("instagram-portrait", "Instagram Portrait", 1080, 1350, Social),
      ExportFormat("instagram-story", "Instagram Story", 1080, 1920, Social),
      ExportFormat("linkedin-post", "LinkedIn Post", 1200, 627, Social),
      ExportFormat("facebook-post", "Facebook Post", 1200, 630, Social),
      ExportFormat("youtube-thumbnail", "YouTube Thumbnail", 1280, 720, Social)
    ]
  }

  function PresentationPresets(): seq<ExportFormat>
  {
    [
      ExportFormat("presentation-16-9", "16:9 Slide", 1920, 1080, Presentation),
      ExportFormat("presentation-4-3", "4:3 Slide", 1600, 1200, Presentation)
    ]
  }

  /** The sentinel entry: no resize. */
  function AutoFormat(): ExportFormat
  {
    ExportFormat("auto", "Auto (Original)", 0, 0, Custom)
  }

  /** No two entries share an id. */
  predicate IdsDistinct(fs: seq<ExportFormat>)
  {
    forall i, j :: 0 <= i < j < |fs| ==> fs[i].id != fs[j].id
  }

  /** `getFormatById`: the first catalog entry whose id equals `id`, if any. */
  function GetFormatById(id: string): (r: Option<ExportFormat>)
    ensures r.Some? ==> r.value.id == id && r.value in ExportFormats()
    ensures r.None? <==> forall f :: f in ExportFormats() ==> f.id != id
  {
    Find(ExportFormats(), (f: ExportFormat) => f.id == id)
  }

  lemma CatalogIdsDistinct()
    ensures IdsDistinct(ExportFormats())
  {
  }

  /** Looking up any catalog entry by its own id gives back exactly that entry. */
  lemma GetFormatByIdRoundTrip(f: ExportFormat)
    requires f in ExportFormats()
    ensures GetFormatById(f.id) == Some(f)
  {
    CatalogIdsDistinct();
    var fs := ExportFormats();
    var i :| 0 <= i < |fs| && fs[i] == f;
    var p := (g: ExportFormat) => g.id == f.id;
    assert forall j :: 0 <= j < i ==> !p(fs[j]);
  }

  /** The sentinel is always found, with size 0x0 and category custom. */
  lemma GetAutoFormat()
    ensures GetFormatById("auto") == Some(AutoFormat())
    ensures GetFormatById("auto").value.width == 0 && GetFormatById("auto").value.height == 0
    ensures GetFormatById("auto").value.category == Custom
  {
    GetFormatByIdRoundTrip(AutoFormat());
  }

  /** An id no entry carries, such as the empty string, is not found. */
  lemma GetFormatByIdMissing()
    ensures GetFormatById("") == None
  {
    var fs := ExportFormats();
    assert forall i :: 0 <= i < |fs| ==> |fs[i].id| > 0;
  }

  /** Every preset other than the sentinel has a strictly positive size. */
  lemma NonAutoSizesPositive()
    ensures forall f :: f in ExportFormats() && f.id != "auto" ==> f.width > 0 && f.height > 0
  {
    var social, slides := SocialPresets(), PresentationPresets();
    assert forall i :: 0 <= i < |social| ==> social[i].width > 0 && social[i].height > 0;
    assert forall i :: 0 <= i < |slides| ==> slides[i].width > 0 && slides[i].height > 0;
    forall f | f in ExportFormats() && f.id != "auto"
      ensures f.width > 0 && f.height > 0
    {
      assert f in social || f in slides;
    }
  }

  lemma SocialPresetsAreSocial()
    ensures forall i :: 0 <= i < |SocialPresets()| ==> SocialPresets()[i].category == Social
  {
  }

  lemma PresentationPresetsArePresentation()
    ensures forall i :: 0 <= i < |PresentationPresets()| ==> PresentationPresets()[i].category == Presentation
  {
  }

  /** Where the blocks sit in the catalog. */
  lemma CatalogLayout()
    ensures |SocialPresets()| == 8 && |PresentationPresets()| == 2 && |ExportFormats()| == 11
    ensures ExportFormats()[..8] == SocialPresets()
    ensures ExportFormats()[8..10] == PresentationPresets()
    ensures ExportFormats()[10..] == [AutoFormat()]
  {
    var social, slides := SocialPresets(), PresentationPresets();
    assert |social| == 8 && |slides| == 2;
    var fs := social + slides + [AutoFormat()];
    assert fs[..8] == social;
    assert fs[8..10] == slides;
  }

  /** The catalog holds eleven entries and ends with the sentinel. */
  lemma CatalogShape()
    ensures |ExportFormats()| == 11
    ensures ExportFormats()[10] == AutoFormat()
    ensures AutoFormat() in ExportFormats()
  {
  }
}
