/** How the harness checks a sample's PDF output against its reference
    file: one comparison mode chosen from the sample's class name by fixed
    priority, plus an independent PDF/A validation. The comparisons
    themselves belong to the PDF library and appear here only as tags. */
module CompareMode {

  /** A page rectangle `(x, y, width, height)`; the only one configured has
      integral coordinates. */
  datatype Rectangle = Rectangle(x: int, y: int, width: int, height: int)

  /** Regions per page number that a visual comparison ignores. */
  type IgnoredAreas = map<int, seq<Rectangle>>

  /** Samples compared visually and by link annotations. */
  const RenderCompareList: seq<string> := ["iText.Samples.Sandbox.Signatures.SignatureExample"]

  /** Samples whose output is XML. */
  const XmlCompareList: seq<string> :=
    ["iText.Samples.Sandbox.Acroforms.ReadXFA", "iText.Samples.Sandbox.Acroforms.CreateXfdf"]

  /** Samples whose output is plain text. */
  const TxtCompareList: seq<string> :=
    [ "iText.Samples.Sandbox.Interactive.FetchBookmarkTitles",
      "iText.Samples.Sandbox.Parse.ParseCustom",
      "iText.Samples.Sandbox.Parse.ParseCzech" ]

  /** Samples whose output must also pass PDF/A validation. */
  const VeraPdfValidateList: seq<string> :=
    [ "iText.Samples.Sandbox.Pdfa.HelloPdfA2a",
      "iText.Samples.Sandbox.Pdfa.PdfA1a",
      "iText.Samples.Sandbox.Pdfa.PdfA1a_images",
      "iText.Samples.Sandbox.Pdfa.PdfA3" ]

  const LatinSignature := "iText.Samples.Sandbox.Typography.Latin.LatinSignature"

  /** Samples compared visually except for some areas. */
  const IgnoredClassesMap: map<string, IgnoredAreas> :=
    map[LatinSignature := map[1 := [Rectangle(30, 539, 250, 13)]]]

  /** The comparison a sample's output undergoes. */
  datatype Mode =
    | XmlCompare
    | TextCompare
    | RenderCompare
    | IgnoredAreasCompare(areas: IgnoredAreas)
    | ContentCompare

  /** One call into the PDF library, in call order. Each call's outcome
      feeds `AddError`: directly, or for `CompareXmls` as a `false` that
      triggers a fixed message. */
  datatype Check =
    | CompareXmls
    | CompareTxtLines
    | CompareVisually(ignored: IgnoredAreas)  // `map[]`: the overload with no ignored areas
    | CompareLinkAnnotations
    | CompareDocumentInfo
    | CompareByContent
    | VeraPdfValidate

  datatype Plan = Plan(mode: Mode, veraPdf: bool)

  /** The mode for `name`: the first list containing it, XML before text
      before rendering before ignored areas, else a content comparison. */
  function SelectMode(name: string): (m: Mode)
    ensures m == XmlCompare <==> name in XmlCompareList
    ensures m == TextCompare <==> name !in XmlCompareList && name in TxtCompareList
    ensures m == RenderCompare <==>
              name !in XmlCompareList && name !in TxtCompareList && name in RenderCompareList
    ensures m.IgnoredAreasCompare? <==>
              name !in XmlCompareList && name !in TxtCompareList && name !in RenderCompareList
              && name in IgnoredClassesMap
    ensures m.IgnoredAreasCompare? ==> m.areas == IgnoredClassesMap[name]
    ensures m == ContentCompare <==>
              name !in XmlCompareList && name !in TxtCompareList && name !in RenderCompareList
              && name !in IgnoredClassesMap
  {
    if name in XmlCompareList then XmlCompare
    else if name in TxtCompareList then TextCompare
    else if name in RenderCompareList then RenderCompare
    else if name in IgnoredClassesMap then IgnoredAreasCompare(IgnoredClassesMap[name])
    else ContentCompare
  }

  /** The comparison plan for the sample class `name`, stated through the
      calls it makes: one mode's calls chosen by list priority, then PDF/A
      validation exactly for the listed PDF/A samples, whatever the mode. */
  function ComparePdf(name: string): (p: Plan)
    ensures var cs := Checks(p);
            (VeraPdfValidate in cs <==> name in VeraPdfValidateList)
            && (name in VeraPdfValidateList ==> cs[|cs| - 1] == VeraPdfValidate)
    ensures CompareXmls in Checks(p) <==> name in XmlCompareList
    ensures CompareTxtLines in Checks(p) <==> name !in XmlCompareList && name in TxtCompareList
    ensures CompareLinkAnnotations in Checks(p) <==>
              name !in XmlCompareList && name !in TxtCompareList && name in RenderCompareList
    ensures CompareByContent in Checks(p) <==>
              name !in XmlCompareList && name !in TxtCompareList && name !in RenderCompareList
              && name !in IgnoredClassesMap
    ensures name !in XmlCompareList && name !in TxtCompareList && name !in RenderCompareList
            && name in IgnoredClassesMap ==>
              Checks(p)[0] == CompareVisually(IgnoredClassesMap[name])
  {
    Plan(SelectMode(name), name in VeraPdfValidateList)
  }

  /** The calls a plan makes, in order: those of its mode, then validation. */
  function Checks(p: Plan): (cs: seq<Check>)
    ensures |cs| >= 1
    ensures VeraPdfValidate in cs <==> p.veraPdf
    ensures p.veraPdf ==> cs[|cs| - 1] == VeraPdfValidate
    ensures CompareXmls in cs <==> p.mode == XmlCompare
    ensures CompareTxtLines in cs <==> p.mode == TextCompare
    ensures CompareLinkAnnotations in cs <==> p.mode == RenderCompare
    ensures p.mode == RenderCompare ==>
              |cs| >= 3 && cs[..3] == [CompareVisually(map[]), CompareLinkAnnotations, CompareDocumentInfo]
    ensures p.mode.IgnoredAreasCompare? ==> cs[0] == CompareVisually(p.mode.areas)
    ensures CompareByContent in cs <==> p.mode == ContentCompare
    ensures |cs| == (if p.mode == RenderCompare then 3 else 1) + (if p.veraPdf then 1 else 0)
  {
    var modeChecks := match p.mode
      case XmlCompare => [CompareXmls]
      case TextCompare => [CompareTxtLines]
      // the render mode's visual comparison ignores no areas: the empty map
      case RenderCompare => [CompareVisually(map[]), CompareLinkAnnotations, CompareDocumentInfo]
      case IgnoredAreasCompare(areas) => [CompareVisually(areas)]
      case ContentCompare => [CompareByContent];
    modeChecks + if p.veraPdf then [VeraPdfValidate] else []
  }

  /** The configured name lists are pairwise disjoint, so the priority order
      never overrides a listing: every listed sample gets its own mode. */
  lemma ListedSamplesGetTheirMode(name: string)
    ensures name in XmlCompareList ==> SelectMode(name) == XmlCompare
    ensures name in TxtCompareList ==> SelectMode(name) == TextCompare
    ensures name in RenderCompareList ==> SelectMode(name) == RenderCompare
    ensures name in IgnoredClassesMap ==> SelectMode(name) == IgnoredAreasCompare(IgnoredClassesMap[name])
  {
  }

  /** Validation is orthogonal to the mode: the PDF/A samples are otherwise
      compared by content, and validation is the last call made. */
  lemma PdfASamplesComparedByContent(name: string)
    requires name in VeraPdfValidateList
    ensures Checks(ComparePdf(name)) == [CompareByContent, VeraPdfValidate]
  {
  }

  /** A sample in none of the lists is compared by content alone. */
  lemma UnlistedSamplesComparedByContent(name: string)
    requires name !in XmlCompareList && name !in TxtCompareList && name !in RenderCompareList
    requires name !in IgnoredClassesMap && name !in VeraPdfValidateList
    ensures Checks(ComparePdf(name)) == [CompareByContent]
  {
  }
}
