/** Mapping of a sample's output file to its reference ("cmp") file:
    `<root>/results/<dir><name>` becomes `../../resources/<dir>cmp_<name>`,
    where `dir` is empty or carries its own trailing `/`. A path whose last
    `/results` is followed by anything other than `/` gets a different
    directory part, or throws when that `/results` sits in the file name. */
module CmpPath {
  import opened Wrappers
  import opened Strings

  const ResultsMarker := "/results"
  const ResourcesRoot := "../../resources/"
  const CmpPrefix := "cmp_"

  /** `Substring(start, length)` rejected its arguments
      (`ArgumentOutOfRangeException`). */
  datatype PathError = SubstringOutOfRange(start: int, length: int)

  /** Index of the last `/`, or -1. */
  function LastSlash(d: string): (i: int)
    ensures -1 <= i < |d|
    ensures i >= 0 ==> d[i] == '/'
    ensures forall k :: i < k < |d| ==> d[k] != '/'
  {
    var i := LastIndexOf(d, "/");
    forall k | i < k < |d| ensures d[k] != '/' {
      OccursAtChar(d, '/', k);
    }
    if i >= 0 then OccursAtChar(d, '/', i); i else i
  }

  /** Where the reference directory starts: nine characters past the last
      `/results`, i.e. past `/results` and the character after it. When the
      marker is absent `LastIndexOf` yields -1 and the start is 8. */
  function DirStart(d: string): (j: int)
    ensures j >= 8
    ensures j == 8 <==> forall k :: !OccursAt(d, ResultsMarker, k)
    ensures j > 8 ==> OccursAt(d, ResultsMarker, j - 9)
    ensures forall k :: j - 9 < k ==> !OccursAt(d, ResultsMarker, k)
  {
    LastIndexOf(d, ResultsMarker) + 9
  }

  /** The reference path for output path `dest`; `null` maps to `null`. */
  function GetCmpPdf(dest: Option<string>): (r: Result<Option<string>, PathError>)
    ensures dest.None? ==> r == Success(None)
    ensures dest.Some? ==>
              (r.Failure? <==> DirStart(dest.value) > LastSlash(dest.value) + 1)
    ensures dest.Some? && r.Failure? ==>
              r.error.length < 0 && r.error.start == DirStart(dest.value)
    ensures dest.Some? && r.Success? ==>
              r.value.Some? &&
              var out := r.value.value;
              var name := dest.value[LastSlash(dest.value) + 1..];
              '/' !in name &&
              |out| >= |ResourcesRoot| + |CmpPrefix| + |name| &&
              out[..|ResourcesRoot|] == ResourcesRoot &&
              out[|out| - |CmpPrefix| - |name|..] == CmpPrefix + name
    ensures dest.Some? && r.Success? ==>
              var d := dest.value;
              r.value == Some(ResourcesRoot + d[DirStart(d)..LastSlash(d) + 1]
                              + CmpPrefix + d[LastSlash(d) + 1..])
  {
    match dest
    case None => Success(None)
    case Some(d) =>
      var i := LastSlash(d);
      var j := DirStart(d);
      var len := (i + 1) - j;
      if len < 0 then Failure(SubstringOutOfRange(j, len))
      else
        var out := ResourcesRoot + d[j..j + len] + CmpPrefix + d[i + 1..];
        assert out[..|ResourcesRoot|] == ResourcesRoot;
        assert out[|out| - |CmpPrefix| - |d[i + 1..]|..] == CmpPrefix + d[i + 1..];
        Success(Some(out))
  }

  /** `/results` does not occur in `s`. */
  ghost predicate NoResultsMarker(s: string) {
    forall k :: !OccursAt(s, ResultsMarker, k)
  }

  /** Round trip of the naming convention: an output file written as
      `<root>/results/<dir><name>`, with `dir` a (possibly empty) run of
      `/`-terminated directories and no `/results` in the text after the
      marker, `/<dir><name>`, maps to `../../resources/<dir>cmp_<name>`. */
  lemma {:induction false} CmpPathOfResultPath(root: string, dir: string, name: string)
    requires '/' !in name
    requires dir == [] || dir[|dir| - 1] == '/'
    requires NoResultsMarker("/" + dir + name)
    ensures GetCmpPdf(Some(root + ResultsMarker + "/" + dir + name))
            == Success(Some(ResourcesRoot + dir + CmpPrefix + name))
  {
    var t := "/" + dir + name;
    var d := root + ResultsMarker + t;
    assert d == root + ResultsMarker + "/" + dir + name;
    var m := |root|;
    // the marker sits right after the root ...
    assert d[m..m + 8] == ResultsMarker;
    assert OccursAt(d, ResultsMarker, m);
    assert d[m + 8..] == t;
    // ... and nowhere later
    forall k | k > m ensures !OccursAt(d, ResultsMarker, k) {
      if k + 8 <= |d| {
        if k < m + 8 {
          assert d[k] == ResultsMarker[k - m] != '/';
          assert d[k..k + 8][0] != ResultsMarker[0];
        } else {
          assert d[k..k + 8] == d[m + 8..][k - m - 8..k - m] == t[k - m - 8..k - m];
          assert !OccursAt(t, ResultsMarker, k - m - 8);
        }
      }
    }
    assert LastIndexOf(d, ResultsMarker) == m;
    assert DirStart(d) == m + 9;
    // the last slash ends `dir`, or is the one after the marker
    var i := |d| - |name| - 1;
    assert d[i] == '/';
    forall k | i < k < |d| ensures d[k] != '/' {
      assert d[k] == name[k - i - 1];
    }
    assert LastSlash(d) == i;
    assert d[m + 9..i + 1] == dir;
    assert d[i + 1..] == name;
  }

  /** Without a `/results` directory the start index falls back to 8, so the
      reference directory is whatever follows the eighth character. */
  lemma MissingMarkerSkipsEight(d: string)
    requires NoResultsMarker(d)
    requires 8 <= LastSlash(d) + 1
    ensures GetCmpPdf(Some(d))
            == Success(Some(ResourcesRoot + d[8..LastSlash(d) + 1] + CmpPrefix + d[LastSlash(d) + 1..]))
  {
  }

  /** A path ending right at `/results` leaves no room for the directory part,
      and the call throws: the marker's own `/` is the last slash, so the
      `Substring` length is -8. */
  lemma MarkerAtEndFails(root: string)
    ensures GetCmpPdf(Some(root + ResultsMarker)).Failure?
    ensures GetCmpPdf(Some(root + ResultsMarker)).error.length == -8
  {
    var d := root + ResultsMarker;
    assert OccursAt(d, ResultsMarker, |root|);
    assert d[|root|] == '/';
    forall k | |root| < k < |d| ensures d[k] != '/' {
      assert d[k] == ResultsMarker[k - |root|];
    }
    assert LastSlash(d) == |root|;
    assert DirStart(d) == |root| + 9;
  }

  /** A `/results` inside the file name, as in `out/results/sub/results.pdf`,
      is the last marker and is preceded by the last slash, so the `Substring`
      length is -8 and the call throws. */
  lemma MarkerInFileNameFails(prefix: string, rest: string)
    requires '/' !in rest
    ensures GetCmpPdf(Some(prefix + ResultsMarker + rest)).Failure?
    ensures GetCmpPdf(Some(prefix + ResultsMarker + rest)).error.length == -8
  {
    var d := prefix + ResultsMarker + rest;
    var m := |prefix|;
    assert d[m..m + 8] == ResultsMarker;
    assert OccursAt(d, ResultsMarker, m);
    assert d[m] == '/';
    forall k | m < k < |d| ensures d[k] != '/' {
      if k < m + 8 {
        assert d[k] == ResultsMarker[k - m];
      } else {
        assert d[k] == rest[k - m - 8];
      }
    }
    forall k | m < k ensures !OccursAt(d, ResultsMarker, k) {
      if k + 8 <= |d| {
        assert d[k..k + 8][0] == d[k];
      }
    }
    assert LastSlash(d) == m;
    assert DirStart(d) == m + 9;
  }

  /** When the last `/results` starts a longer directory name, the nine
      skipped characters run into that name: `o/results2/x` maps to
      `../../resources//cmp_x`. */
  lemma LongerMarkerDirectory(d: string)
    requires d == "o/results2/x"
    ensures GetCmpPdf(Some(d)) == Success(Some("../../resources//cmp_x"))
  {
    assert OccursAt(d, ResultsMarker, 1);
    forall k | 1 < k ensures !OccursAt(d, ResultsMarker, k) {
      if k + 8 <= |d| {
        assert d[k..k + 8][0] == d[k] != '/';
      }
    }
    assert DirStart(d) == 10;
    assert d[10] == '/' && d[11] == 'x';
    assert LastSlash(d) == 10;
    assert d[10..11] == "/" && d[11..] == "x";
    assert ResourcesRoot + "/" + CmpPrefix + "x" == "../../resources//cmp_x";
  }
}
