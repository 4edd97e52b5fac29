/** Line-by-line comparison of a text sample's output with its reference
    file. The two files are given as their sequences of lines, in the order
    `ReadLine` returns them. */
module TxtCompare {
  import opened Wrappers
  import opened Strings

  const LineCountMessage := "The number of lines is different\n"
  const DiffHeader := "Txt files differ at line "

  const CmpLabel := "\n See difference: cmp file: \""
  const TargetLabel := "\"\ntarget file: \""

  /** The text following the line number: the reference line in quotes,
      then the output line after an opening quote only, then a newline. */
  function DiffTail(cmpLine: string, destLine: string): (t: string)
    ensures |t| > 0 && t[0] == '\n'
  {
    CmpLabel + cmpLine + TargetLabel + destLine + "\n"
  }

  /** Message for a differing pair of lines at 1-based `lineNumber`: the
      header, the number in decimal, then the two lines. */
  function DiffMessage(lineNumber: nat, cmpLine: string, destLine: string): string {
    DiffHeader + NatToString(lineNumber) + DiffTail(cmpLine, destLine)
  }

  /** Where each part sits in the message tail: the reference line after
      its label, the output line after its label and before the final
      newline, with no closing quote. */
  lemma DiffTailLayout(cmpLine: string, destLine: string)
    ensures var t := DiffTail(cmpLine, destLine);
            && |t| == |CmpLabel| + |cmpLine| + |TargetLabel| + |destLine| + 1
            && t[..|CmpLabel|] == CmpLabel
            && t[|CmpLabel|..|CmpLabel| + |cmpLine|] == cmpLine
            && t[|CmpLabel| + |cmpLine|..|t| - |destLine| - 1] == TargetLabel
            && t[|t| - |destLine| - 1..] == destLine + "\n"
  {
    var t := DiffTail(cmpLine, destLine);
    assert t[..|CmpLabel|] == CmpLabel;
    assert t[|CmpLabel|..|CmpLabel| + |cmpLine|] == cmpLine;
    assert t[|CmpLabel| + |cmpLine|..|t| - |destLine| - 1] == TargetLabel;
    assert t[|t| - |destLine| - 1..] == destLine + "\n";
  }

  /** Where each part sits in a differing-line message: the header, then
      the decimal line number directly followed by the tail. */
  lemma DiffMessageLayout(lineNumber: nat, cmpLine: string, destLine: string)
    ensures var m := DiffMessage(lineNumber, cmpLine, destLine);
            && |m| == |DiffHeader| + |NatToString(lineNumber)| + |DiffTail(cmpLine, destLine)|
            && m[..|DiffHeader|] == DiffHeader
            && m[|DiffHeader|..] == NatToString(lineNumber) + DiffTail(cmpLine, destLine)
  {
    var m := DiffMessage(lineNumber, cmpLine, destLine);
    assert m == DiffHeader + (NatToString(lineNumber) + DiffTail(cmpLine, destLine));
  }

  /** The line `ReadLine` returns after `i` earlier calls: `null` once the
      file is exhausted. */
  function LineAt(lines: seq<string>, i: nat): (r: Option<string>)
    ensures r.Some? <==> i < |lines|
    ensures r.Some? ==> r.value == lines[i]
  {
    if i < |lines| then Some(lines[i]) else None
  }

  /** The 0-based index of the last position where two equally long line
      sequences differ, or `None` when they are equal. */
  function LastDiff(a: seq<string>, b: seq<string>): (k: Option<nat>)
    requires |a| == |b|
    ensures k.None? <==> a == b
    ensures k.Some? ==> k.value < |a| && a[k.value] != b[k.value]
    ensures k.Some? ==> forall j :: k.value < j < |a| ==> a[j] == b[j]
  {
    if |a| == 0 then None
    else if a[|a| - 1] != b[|b| - 1] then Some(|a| - 1)
    else
      var k := LastDiff(a[..|a| - 1], b[..|b| - 1]);
      if k.None? then
        assert a == a[..|a| - 1] + [a[|a| - 1]] && b == b[..|b| - 1] + [b[|b| - 1]];
        None
      else
        assert a[k.value] == a[..|a| - 1][k.value];
        k
  }

  /** What the comparison reports: a line-count mismatch takes precedence
      over any differing line; otherwise the last differing line is named by
      its 1-based number; `null` when the files agree. */
  function TxtVerdict(dest: seq<string>, cmp: seq<string>): (r: Option<string>)
    ensures r.None? <==> dest == cmp
    ensures |dest| != |cmp| ==> r == Some(LineCountMessage)
    ensures |dest| == |cmp| && dest != cmp ==>
              exists k :: 0 <= k < |dest| && dest[k] != cmp[k]
                          && (forall j :: k < j < |dest| ==> dest[j] == cmp[j])
                          && r == Some(DiffMessage(k + 1, cmp[k], dest[k]))
  {
    if |dest| != |cmp| then Some(LineCountMessage)
    else match LastDiff(dest, cmp)
      case None => None
      case Some(k) => Some(DiffMessage(k + 1, cmp[k], dest[k]))
  }

  /** The harness's loop: read both files in lockstep, remember the message
      for the latest differing line, and stop with the line-count message as
      soon as one file runs out before the other. */
  method CompareTxt(dest: seq<string>, cmp: seq<string>) returns (errorMessage: Option<string>)
    ensures errorMessage == TxtVerdict(dest, cmp)
    ensures errorMessage.None? <==> dest == cmp
  {
    errorMessage := None;
    var lineNumber := 1;
    var i := 0;
    var destLine := LineAt(dest, i);
    var cmpLine := LineAt(cmp, i);
    while destLine.Some? || cmpLine.Some?
      invariant i <= |dest| && i <= |cmp|
      invariant lineNumber == i + 1
      invariant destLine == LineAt(dest, i) && cmpLine == LineAt(cmp, i)
      invariant errorMessage == TxtVerdict(dest[..i], cmp[..i])
      decreases |dest| + |cmp| - 2 * i
    {
      if destLine.None? || cmpLine.None? {
        errorMessage := Some(LineCountMessage);
        break;
      }
      if destLine.value != cmpLine.value {
        errorMessage := Some(DiffMessage(lineNumber, cmpLine.value, destLine.value));
      }
      StepVerdict(dest, cmp, i);
      i := i + 1;
      destLine := LineAt(dest, i);
      cmpLine := LineAt(cmp, i);
      lineNumber := lineNumber + 1;
    }
    if errorMessage != Some(LineCountMessage) || i == |dest| == |cmp| {
      assert dest[..i] == dest && cmp[..i] == cmp;
    }
  }

  /** One step of the loop: extending both prefixes by one line makes that
      line the last difference when it differs, and keeps the earlier last
      difference otherwise. */
  lemma StepLastDiff(dest: seq<string>, cmp: seq<string>, i: nat)
    requires i < |dest| && i < |cmp|
    ensures LastDiff(dest[..i + 1], cmp[..i + 1])
            == if dest[i] != cmp[i] then Some(i) else LastDiff(dest[..i], cmp[..i])
  {
    var a, b := dest[..i + 1], cmp[..i + 1];
    assert a[..i] == dest[..i] && b[..i] == cmp[..i];
  }

  /** The loop step in terms of messages: the verdict on the longer prefixes
      names line `i + 1` when its lines differ and is unchanged otherwise. */
  lemma StepVerdict(dest: seq<string>, cmp: seq<string>, i: nat)
    requires i < |dest| && i < |cmp|
    ensures TxtVerdict(dest[..i + 1], cmp[..i + 1])
            == if dest[i] != cmp[i] then Some(DiffMessage(i + 1, cmp[i], dest[i]))
               else TxtVerdict(dest[..i], cmp[..i])
  {
    StepLastDiff(dest, cmp, i);
    assert |dest[..i + 1]| == |cmp[..i + 1]|;
  }

  /** Identical files (two empty ones among them) produce no message. */
  lemma IdenticalFilesAgree(lines: seq<string>)
    ensures TxtVerdict(lines, lines) == None
  {
  }

  /** A decimal number followed by a newline can be read off unambiguously. */
  lemma DecimalThenNewline(s1: string, s2: string, r1: string, r2: string)
    requires IsDecimal(s1) && IsDecimal(s2)
    requires |r1| > 0 && r1[0] == '\n' && |r2| > 0 && r2[0] == '\n'
    requires s1 != s2
    ensures s1 + r1 != s2 + r2
  {
    if |s1| < |s2| {
      var i := |s1|;
      assert (s1 + r1)[i] == '\n';
      assert (s2 + r2)[i] == s2[i] && s2[i] in s2;
    } else if |s2| < |s1| {
      var i := |s2|;
      assert (s2 + r2)[i] == '\n';
      assert (s1 + r1)[i] == s1[i] && s1[i] in s1;
    } else {
      var i :| 0 <= i < |s1| && s1[i] != s2[i];
      assert (s1 + r1)[i] == s1[i] && (s2 + r2)[i] == s2[i];
    }
  }

  /** Messages for different line numbers differ, and no differing-line
      message can be mistaken for the line-count one. */
  lemma {:induction false} DiffMessageNamesLine(k: nat, m: nat, c: string, d: string, c': string, d': string)
    ensures DiffMessage(k, c, d) != LineCountMessage
    ensures k != m ==> DiffMessage(k, c, d) != DiffMessage(m, c', d')
  {
    var x := DiffMessage(k, c, d);
    assert x[1] == DiffHeader[1] == 'x' != LineCountMessage[1];
    if k != m {
      var y := DiffMessage(m, c', d');
      NatToStringInjective(k, m);
      DecimalThenNewline(NatToString(k), NatToString(m), DiffTail(c, d), DiffTail(c', d'));
      DiffMessageLayout(k, c, d);
      DiffMessageLayout(m, c', d');
      assert x[|DiffHeader|..] != y[|DiffHeader|..];
    }
  }
}
