# Sample-harness comparison logic of the iText samples (Dafny model)

The iText .NET samples repository runs every sample and compares what it
wrote against a stored reference file. The test class `SamplesWrapperTest`
holds the only self-contained logic in these files. This project models
three parts of it:

- **Reference-path mapping** (`GetCmpPdf`). An output file
  `<root>/results/<dir><name>` maps to
  `../../resources/<dir>cmp_<name>`, where `dir` is empty or ends in `/`,
  provided the text after the marker, `/<dir><name>`, contains no `/results`.
  The model keeps the source's index arithmetic (the last `/`, and nine
  characters past the last `/results`), counted in characters; see
  "## Left out" for how that differs from .NET's UTF-16 units.
  It also keeps the failure when the `Substring` length comes out negative.
  That happens, for example, when the path ends in `/results` or when the
  file name itself starts with `results`. When the last `/results` begins a
  longer directory name, the skipped characters run into that name.
  A `null` path maps to `null`.
- **Text comparison** (`CompareTxt`). Two files are read line by line in
  lockstep. If one file ends before the other, the result is the line-count
  message. Otherwise the message names the *last* differing line, numbered
  from 1. Identical files give `null`. The files are given as sequences of
  lines.
- **Comparison-mode selection** (`ComparePdf`). The sample's class name picks
  one mode, in this priority: XML list, text list, render list,
  ignored-areas map, otherwise a content comparison. PDF/A validation is
  added exactly for the names in its own list. The library's comparison
  calls appear only as tags.

Modules:

- `Wrappers`: `Option` stands for `null` and `Result` for a thrown exception.
- `Strings`: ordinal `LastIndexOf` and the decimal rendering of the line
  number.
- `CmpPath`, `TxtCompare`, `CompareMode`: one module for each part above.

## Model

| member | source | states |
|---|---|---|
| `CmpPath.GetCmpPdf` | itext/itext.samples/itext/samples/SamplesWrapperTest.cs:163-173 | `null` maps to `null`. A path fails with an out-of-range substring exactly when the start (last `/results` + 9) is past the last slash + 1. A success is `../../resources/`, then the text from that start through the last slash, then `cmp_` and the slash-free file name. |
| `CmpPath.CmpPathOfResultPath` | itext/itext.samples/itext/samples/SamplesWrapperTest.cs:170-172 | Take an output path `<root>/results/<dir><name>`, where `dir` is empty or ends in `/` and `name` has no `/`. If the text after the marker, `/<dir><name>`, contains no `/results`, the reference path is `../../resources/<dir>cmp_<name>`. |
| `CmpPath.MissingMarkerSkipsEight` | itext/itext.samples/itext/samples/SamplesWrapperTest.cs:171-172 | With no `/results` in the path, the directory part starts at index 8 (-1 + 9). |
| `CmpPath.MarkerAtEndFails` | itext/itext.samples/itext/samples/SamplesWrapperTest.cs:170-172 | Any path that ends in `/results` makes the `Substring` length -8, so the call throws. |
| `CmpPath.MarkerInFileNameFails` | itext/itext.samples/itext/samples/SamplesWrapperTest.cs:170-172 | A path whose last segment starts with `results` right after a `/`, such as `out/results/sub/results.pdf`, makes the `Substring` length -8, so the call throws. |
| `CmpPath.LongerMarkerDirectory` | itext/itext.samples/itext/samples/SamplesWrapperTest.cs:170-172 | When the last `/results` begins a longer directory name, the skipped nine characters run into it: `o/results2/x` maps to `../../resources//cmp_x`. |
| `CmpPath.LastSlash` | itext/itext.samples/itext/samples/SamplesWrapperTest.cs:170 | The index of the last `/`, with no `/` after it, or -1 when there is none. |
| `CmpPath.DirStart` | itext/itext.samples/itext/samples/SamplesWrapperTest.cs:171 | The result is at least 8. It equals 8 exactly when `/results` does not occur. Otherwise `/results` occurs at the result minus 9, and at no later index. |
| `Strings.LastIndexOf` | itext/itext.samples/itext/samples/SamplesWrapperTest.cs:170-171 | The result is -1 exactly when the needle does not occur. Otherwise the needle occurs at the result and at no later index. |
| `Strings.NatToString` | itext/itext.samples/itext/samples/SamplesWrapperTest.cs:196 | The rendering of a line number is a non-empty string of decimal digits with no leading zero. It has one digit exactly when the number is below 10. |
| `Strings.ParseNatToString` | itext/itext.samples/itext/samples/SamplesWrapperTest.cs:196 | Reading back the rendering of the line number gives the number. |
| `Strings.NatToStringInjective` | itext/itext.samples/itext/samples/SamplesWrapperTest.cs:196 | Distinct line numbers render differently. |
| `TxtCompare.CompareTxt` | itext/itext.samples/itext/samples/SamplesWrapperTest.cs:175-209 | The lockstep loop returns exactly the verdict `TxtVerdict` defines. It returns `null` exactly when both files have the same lines. |
| `TxtCompare.TxtVerdict` | itext/itext.samples/itext/samples/SamplesWrapperTest.cs:186-200 | Unequal line counts give exactly `"The number of lines is different\n"`, whatever lines differ before. With equal counts, the message names the last differing line (1-based) with both lines; no later line differs. `null` exactly for equal files. |
| `TxtCompare.LastDiff` | itext/itext.samples/itext/samples/SamplesWrapperTest.cs:194-200 | The index of the last position where two equally long line sequences differ. It is `None` exactly when they are equal. |
| `TxtCompare.DiffTailLayout` | itext/itext.samples/itext/samples/SamplesWrapperTest.cs:197-199 | The message tail: a newline, ` See difference: cmp file: "`, the reference line, `"` + newline + `target file: "`, the output line, then a newline. The output line has no closing quote, as in the source. |
| `TxtCompare.DiffMessageLayout` | itext/itext.samples/itext/samples/SamplesWrapperTest.cs:196-199 | The message is `Txt files differ at line `, then the decimal rendering of the line number, directly followed by the tail with both lines. |
| `TxtCompare.LineAt` | itext/itext.samples/itext/samples/SamplesWrapperTest.cs:184-185 | `ReadLine` after `i` calls: the `i`-th line, or `null` exactly when the file has no more lines. |
| `TxtCompare.StepLastDiff` | itext/itext.samples/itext/samples/SamplesWrapperTest.cs:194-204 | One loop step: when the current lines differ, index `i` (line number `i + 1`) becomes the last difference. Otherwise the earlier last difference, and so the earlier message, is kept. |
| `TxtCompare.StepVerdict` | itext/itext.samples/itext/samples/SamplesWrapperTest.cs:194-204 | One loop step in terms of messages: the verdict on the prefixes extended by line `i + 1` names that line when its two lines differ. Otherwise the verdict is unchanged. |
| `TxtCompare.IdenticalFilesAgree` | itext/itext.samples/itext/samples/SamplesWrapperTest.cs:177-186 | Identical files give `null`, and so do two empty files. |
| `TxtCompare.DiffMessageNamesLine` | itext/itext.samples/itext/samples/SamplesWrapperTest.cs:196-199 | A differing-line message never equals the line-count message. Different line numbers give different messages. |
| `CompareMode.SelectMode` | itext/itext.samples/itext/samples/SamplesWrapperTest.cs:130-155 | Each mode is chosen exactly when the name is in its list and in none of the higher-priority lists. For an ignored-areas name the mode carries that name's areas. |
| `CompareMode.ComparePdf` | itext/itext.samples/itext/samples/SamplesWrapperTest.cs:126-161 | Over the calls the plan makes: validation is made exactly for a name in the PDF/A list, whatever the mode, and then it is the last call. `CompareXmls` is made exactly for XML-listed names. The text comparison is made exactly for names in the text list and not in the XML list. The link-annotation comparison is made exactly for render-listed names not in the two earlier lists. The content comparison is made exactly for names in no mode list. An ignored-areas name starts with a visual comparison that carries that name's areas. |
| `CompareMode.Checks` | itext/itext.samples/itext/samples/SamplesWrapperTest.cs:130-160 | The calls of each mode: one `CompareXmls` exactly in XML mode, one text comparison exactly in text mode, and one content comparison exactly in content mode. Render mode makes visual, link-annotation and document-info comparisons, in that order. Ignored-areas mode makes one visual comparison carrying its areas. Validation follows as the last call exactly when the plan asks for it. The number of calls is 3 in render mode and 1 otherwise, plus 1 for validation. |
| `CompareMode.ListedSamplesGetTheirMode` | itext/itext.samples/itext/samples/SamplesWrapperTest.cs:32-79 | The configured lists do not overlap, so every listed sample gets the mode of its own list. |
| `CompareMode.PdfASamplesComparedByContent` | itext/itext.samples/itext/samples/SamplesWrapperTest.cs:152-160 | A PDF/A sample is compared by content and then validated. |
| `CompareMode.UnlistedSamplesComparedByContent` | itext/itext.samples/itext/samples/SamplesWrapperTest.cs:152-155 | A sample in no list gets only the content comparison. |

## Left out

- File reading in `CompareTxt` (`StreamReader`, SamplesWrapperTest.cs:179-181): each file is given as its sequence of lines. How `ReadLine` splits text into lines, including a trailing newline, is not modelled.
- Strings are sequences of Unicode scalar values, while .NET strings are sequences of UTF-16 code units. `LastIndexOf`, `Substring` and the `+ 9` in `GetCmpPdf` count code units. So for a path with a character outside the Basic Multilingual Plane right after `/results`, the source's directory part starts inside the surrogate pair, and the model's does not. Unpaired surrogates cannot be represented.
- TxtCompare.CompareTxt: the line counter is an unbounded number. The source's 32-bit `int` would overflow only after 2^31 lines.
- The comparison and validation calls (`CompareTool`, `VeraPdfValidator`, SamplesWrapperTest.cs:128-159) belong to the PDF library. They appear only as `Check` tags, and their results and `AddError` are not modelled.
- `CompareMode.Rectangle` uses integer coordinates. The source's `Rectangle` holds floats, but the one configured area, (30, 539, 250, 13), is integral.
- Test discovery by reflection (`Data()`), license loading in `Test()`, and `ResetLicense`: these are test-runner plumbing and global library state.
- The signing sample (`C3_03_SignWithCRLDefaultImp.cs`, `C3_08_GetTsaUrl.cs`) only configures library objects and calls `SignDetached`. The digest, container and incremental-update logic live in the library and are not part of this model.
- The layout and invoice samples (`C02E14_ShowTextAligned.cs`, `C03E15_MaryReillyV8.cs`, `PdfInvoicesBasic.cs`) are thin library calls over fonts and layout objects. The invoice totals use floating-point `double` parsing and rounding.
