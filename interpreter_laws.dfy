/**
  What the reply interpreter promises, stated on the lines of the reply text rather than on
  the per-line readings `Interpret` is built from.
*/
module InterpreterLaws {
  import opened Wrappers
  import opened Text
  import opened Interpreter

  // ---------------------------------------------------------------- one line

  /** A classification or confidence line with nothing but whitespace after its label:
      the line on which `split()[0]` raises. */
  predicate BlankWordLine(line: string) {
    (StartsWith(Lower(line), Label(ClassificationLine)) && Blank(line[|Label(ClassificationLine)|..]))
    || (StartsWith(Lower(line), Label(ConfidenceLine)) && Blank(line[|Label(ConfidenceLine)|..]))
  }

  /** No line carries two different labels. */
  lemma OnlyLabel(line: string, k: LineKind)
    requires k != OtherLine && StartsWith(Lower(line), Label(k))
    ensures forall k' :: k' != OtherLine && StartsWith(Lower(line), Label(k')) ==> k' == k
  {
    forall k' | k' != OtherLine && StartsWith(Lower(line), Label(k')) ensures k' == k {
      KindOfLabel(line, k');
      KindOfLabel(line, k);
    }
  }

  /** On a labelled line, being blank after the label is a matter of that label alone. */
  lemma BlankWordLineOf(line: string, k: LineKind)
    requires k != OtherLine && StartsWith(Lower(line), Label(k))
    ensures BlankWordLine(line) <==> WordField(k) && Blank(line[|Label(k)|..])
  {
    OnlyLabel(line, k);
  }

  /** A line raises exactly when it is a blank classification or confidence line. */
  lemma RaisesIff(line: string)
    ensures ReadLine(line).raises <==> BlankWordLine(line)
  {
    var k := KindOf(line);
    if k != OtherLine {
      ReadLabelledLine(line, k);
      BlankWordLineOf(line, k);
    } else {
      assert !StartsWith(Lower(line), Label(ClassificationLine));
      assert !StartsWith(Lower(line), Label(ConfidenceLine));
    }
  }

  /** An annotated-image line carries the trimmed text after its prefix; no other line carries one. */
  lemma {:induction false} AnnotationIff(line: string)
    ensures StartsWith(line, AnnotatedImagePrefix) ==>
      ReadLine(line).annotated == Some(Strip(line[|AnnotatedImagePrefix|..]))
    ensures !StartsWith(line, AnnotatedImagePrefix) ==> ReadLine(line).annotated == None
  {
    if StartsWith(line, AnnotatedImagePrefix) {
      var n := |AnnotatedImagePrefix| - 1;
      assert line[n] == AnnotatedImagePrefix[n] == ':';
      forall j | 0 <= j < n ensures line[j] != ':' {
        assert line[j] == AnnotatedImagePrefix[j];
      }
      assert AfterFirstColon(line) == line[n + 1..];
    }
  }

  // ---------------------------------------------------------------- failure

  /** The first blank classification or confidence line of `lines` is at `j`. */
  predicate FirstBlankAt(lines: seq<string>, j: int) {
    0 <= j < |lines| && BlankWordLine(lines[j]) && forall i :: 0 <= i < j ==> !BlankWordLine(lines[i])
  }

  /** The readings raise exactly on the blank classification and confidence lines. */
  lemma RaisingLines(lines: seq<string>)
    ensures forall j :: 0 <= j < |lines| ==> (ReadLines(lines)[j].raises <==> BlankWordLine(lines[j]))
    ensures forall j :: 0 <= j < |lines| ==> ReadLines(lines)[j].text == lines[j]
  {
    forall j | 0 <= j < |lines|
      ensures ReadLines(lines)[j].raises <==> BlankWordLine(lines[j])
      ensures ReadLines(lines)[j].text == lines[j]
    {
      ReadLinesAt(lines, j);
      RaisesIff(lines[j]);
    }
  }

  /** The first pass fails exactly when some reading raises. */
  lemma ScanFailsIff(rs: seq<LineReading>)
    ensures Scan(rs).Failure? <==> exists j :: 0 <= j < |rs| && rs[j].raises
  {
    if j :| 0 <= j < |rs| && rs[j].raises {
      assert !NoRaise(rs);
    }
  }

  /** The reading of a reply fails exactly when its first pass does. */
  lemma InterpretFails(text: string)
    ensures Interpret(text).Failure? <==> Scan(ReadLines(SplitLines(text))).Failure?
  {
  }

  /** The reply cannot be read exactly when some classification or confidence line is blank
      after its label. */
  lemma FailsIff(text: string)
    ensures Interpret(text).Failure? <==>
      exists j :: 0 <= j < |SplitLines(text)| && BlankWordLine(SplitLines(text)[j])
  {
    var lines := SplitLines(text);
    var rs := ReadLines(lines);
    InterpretFails(text);
    ScanFailsIff(rs);
    RaisingLines(lines);
    if j :| 0 <= j < |lines| && BlankWordLine(lines[j]) {
      assert rs[j].raises;
    }
    if j :| 0 <= j < |rs| && rs[j].raises {
      assert BlankWordLine(lines[j]);
    }
  }

  /** The error names the first blank classification or confidence line. */
  lemma FirstBlankLineReported(text: string, j: int)
    requires FirstBlankAt(SplitLines(text), j)
    ensures Interpret(text) == Failure(BlankFirstWord(SplitLines(text)[j]))
  {
    var lines := SplitLines(text);
    var rs := ReadLines(lines);
    RaisingLines(lines);
    assert NoRaise(rs[..j]) by {
      forall i | 0 <= i < j ensures !rs[..j][i].raises {
        assert rs[..j][i] == rs[i];
      }
    }
    FirstRaisingAt(rs, j);
  }

  // ---------------------------------------------------------------- fields

  /** A line is of kind `k` exactly when its lowered form starts with `k`'s label. */
  lemma KindsOf(lines: seq<string>, k: LineKind)
    requires k != OtherLine
    ensures forall j :: 0 <= j < |lines| ==> (ReadLines(lines)[j].kind == k <==> StartsWith(Lower(lines[j]), Label(k)))
  {
    forall j | 0 <= j < |lines|
      ensures ReadLines(lines)[j].kind == k <==> StartsWith(Lower(lines[j]), Label(k))
    {
      ReadLinesAt(lines, j);
      if StartsWith(Lower(lines[j]), Label(k)) {
        KindOfLabel(lines[j], k);
      }
    }
  }

  /** The field of kind `k` takes the value of the last line of that kind. */
  lemma FieldOfLast(rs: seq<LineReading>, j: nat, k: LineKind, default: string)
    requires j < |rs| && rs[j].kind == k
    requires forall i :: j < i < |rs| ==> rs[i].kind != k
    ensures Field(rs, k, default) == rs[j].value
  {
  }

  /** A field no line carries keeps its default. */
  lemma FieldAbsent(rs: seq<LineReading>, k: LineKind, default: string)
    requires forall i :: 0 <= i < |rs| ==> rs[i].kind != k
    ensures Field(rs, k, default) == default
  {
  }

  /** Each of the four fields is taken from the LAST line carrying its label (earlier ones
      are overwritten): the first word after the label for classification and confidence,
      the trimmed text after the label, cut to 300 characters, for analysis and suspicious
      regions. */
  lemma LastLabelWins(text: string, j: nat, k: LineKind)
    requires j < |SplitLines(text)| && k != OtherLine
    requires StartsWith(Lower(SplitLines(text)[j]), Label(k))
    requires forall i :: j < i < |SplitLines(text)| ==> !StartsWith(Lower(SplitLines(text)[i]), Label(k))
    requires Interpret(text).Success?
    ensures var after := Strip(SplitLines(text)[j][|Label(k)|..]);
      && (k == ClassificationLine ==>
            FirstWord(after).Some? && Interpret(text).value.answer == Normalize(FirstWord(after).value))
      && (k == ConfidenceLine ==> FirstWord(after) == Some(Interpret(text).value.confidence))
      && (k == AnalysisLine ==> Interpret(text).value.analysis == Take(after, MaxFieldLength))
      && (k == RegionsLine ==> Interpret(text).value.suspiciousRegions == Take(after, MaxFieldLength))
  {
    var lines := SplitLines(text);
    var rs := ReadLines(lines);
    KindsOf(lines, k);
    ReadLinesAt(lines, j);
    ReadLabelledLine(lines[j], k);
    ReadFields(text);
    FieldOfLast(rs, j, k, Defaults.classification);
    FieldOfLast(rs, j, k, Defaults.confidence);
    FieldOfLast(rs, j, k, Defaults.analysis);
    assert !rs[j].raises by {
      FailsIff(text);
      RaisingLines(lines);
    }
  }

  /** The upper-cased default `Unknown` holds neither `AI` nor `REAL`. */
  lemma DefaultIsUnknown()
    ensures Normalize(Defaults.classification) == Unknown
  {
    var upper := Upper(Defaults.classification);
    assert upper == "UNKNOWN" by {
      assert Defaults.classification == "Unknown";
    }
    assert !Contains(upper, "AI") by {
      MissingChar(upper, "AI", 'A');
    }
    assert !Contains(upper, "REAL") by {
      MissingChar(upper, "REAL", 'R');
    }
  }

  /** The fields of a successful reading, from the last line of each kind. */
  lemma ReadFields(text: string)
    requires Interpret(text).Success?
    ensures var rs := ReadLines(SplitLines(text));
      var v := Interpret(text).value;
      && v.answer == Normalize(Field(rs, ClassificationLine, Defaults.classification))
      && v.confidence == Field(rs, ConfidenceLine, Defaults.confidence)
      && v.analysis == Take(Field(rs, AnalysisLine, Defaults.analysis), MaxFieldLength)
      && v.suspiciousRegions == Take(Field(rs, RegionsLine, Defaults.suspiciousRegions), MaxFieldLength)
  {
    var rs := ReadLines(SplitLines(text));
    assert Interpret(text) == InterpretReadings(rs, text);
    assert Scan(rs) == Success(Scanned(rs));
  }

  /** A field no line carries keeps its default: verdict Unknown, confidence `Medium`,
      empty analysis and suspicious regions. */
  lemma AbsentLabelDefaults(text: string, k: LineKind)
    requires k != OtherLine
    requires forall i :: 0 <= i < |SplitLines(text)| ==> !StartsWith(Lower(SplitLines(text)[i]), Label(k))
    requires Interpret(text).Success?
    ensures k == ClassificationLine ==> Interpret(text).value.answer == Unknown
    ensures k == ConfidenceLine ==> Interpret(text).value.confidence == "Medium"
    ensures k == AnalysisLine ==> Interpret(text).value.analysis == ""
    ensures k == RegionsLine ==> Interpret(text).value.suspiciousRegions == ""
  {
    var lines := SplitLines(text);
    var rs := ReadLines(lines);
    KindsOf(lines, k);
    assert forall j :: 0 <= j < |rs| ==> rs[j].kind != k;
    ReadFields(text);
    FieldsAbsent(rs, k, Interpret(text).value);
  }

  /** The field of a kind that no reading carries holds its default. */
  lemma FieldsAbsent(rs: seq<LineReading>, k: LineKind, v: Analysis)
    requires forall j :: 0 <= j < |rs| ==> rs[j].kind != k
    requires v.answer == Normalize(Field(rs, ClassificationLine, Defaults.classification))
    requires v.confidence == Field(rs, ConfidenceLine, Defaults.confidence)
    requires v.analysis == Take(Field(rs, AnalysisLine, Defaults.analysis), MaxFieldLength)
    requires v.suspiciousRegions == Take(Field(rs, RegionsLine, Defaults.suspiciousRegions), MaxFieldLength)
    ensures k == ClassificationLine ==> v.answer == Unknown
    ensures k == ConfidenceLine ==> v.confidence == "Medium"
    ensures k == AnalysisLine ==> v.analysis == ""
    ensures k == RegionsLine ==> v.suspiciousRegions == ""
  {
    FieldAbsent(rs, k, Defaults.classification);
    FieldAbsent(rs, k, Defaults.confidence);
    FieldAbsent(rs, k, Defaults.analysis);
    if k == ClassificationLine {
      DefaultIsUnknown();
    }
  }

  // ---------------------------------------------------------------- annotated image

  /** The readings carry an annotated-image reference exactly on the lines with the prefix. */
  lemma AnnotatedLines(lines: seq<string>)
    ensures forall j :: 0 <= j < |lines| ==>
      (ReadLines(lines)[j].annotated.Some? <==> StartsWith(lines[j], AnnotatedImagePrefix))
  {
    forall j | 0 <= j < |lines|
      ensures ReadLines(lines)[j].annotated.Some? <==> StartsWith(lines[j], AnnotatedImagePrefix)
    {
      ReadLinesAt(lines, j);
      AnnotationIff(lines[j]);
    }
  }

  /** The annotated-image reference is the trimmed text after the prefix on the FIRST line
      starting with `ANNOTATED_IMAGE:`; later such lines are ignored. */
  lemma FirstAnnotationWins(text: string, j: nat)
    requires j < |SplitLines(text)| && StartsWith(SplitLines(text)[j], AnnotatedImagePrefix)
    requires forall i :: 0 <= i < j ==> !StartsWith(SplitLines(text)[i], AnnotatedImagePrefix)
    requires Interpret(text).Success?
    ensures Interpret(text).value.annotatedImage == Some(Strip(SplitLines(text)[j][|AnnotatedImagePrefix|..]))
  {
    var lines := SplitLines(text);
    AnnotatedLines(lines);
    FirstAnnotatedAt(ReadLines(lines), j);
    ReadLinesAt(lines, j);
    AnnotationIff(lines[j]);
  }

  /** Without a line starting with `ANNOTATED_IMAGE:` (in exactly these capitals) there is no reference. */
  lemma NoAnnotation(text: string)
    requires forall i :: 0 <= i < |SplitLines(text)| ==> !StartsWith(SplitLines(text)[i], AnnotatedImagePrefix)
    requires Interpret(text).Success?
    ensures Interpret(text).value.annotatedImage == None
  {
    AnnotatedLines(SplitLines(text));
  }

  // ---------------------------------------------------------------- lines without a label

  /** A reading that neither assigns, raises nor carries a reference. */
  predicate Inert(r: LineReading) {
    r.kind == OtherLine && !r.raises && r.annotated.None?
  }

  /** Where the `i`-th reading of `a + b` sits once `x` is put between `a` and `b`. */
  function Shift(a: seq<LineReading>, i: nat): nat {
    if i < |a| then i else i + 1
  }

  lemma ShiftAt(a: seq<LineReading>, x: LineReading, b: seq<LineReading>, i: nat)
    requires i < |a + b|
    ensures Shift(a, i) < |a + [x] + b| && (a + [x] + b)[Shift(a, i)] == (a + b)[i]
  {
  }

  /** Every reading of `a + [x] + b` other than `x` is a reading of `a + b`. */
  lemma Unshift(a: seq<LineReading>, x: LineReading, b: seq<LineReading>, i: nat)
    requires i < |a + [x] + b| && i != |a|
    ensures var j := if i < |a| then i else i - 1;
      j < |a + b| && Shift(a, j) == i && (a + [x] + b)[i] == (a + b)[j]
  {
  }

  /** An inert reading does not change which reading comes last among those of kind `k`. */
  lemma InertField(a: seq<LineReading>, x: LineReading, b: seq<LineReading>, k: LineKind, default: string)
    requires Inert(x) && k != OtherLine
    ensures Field(a + [x] + b, k, default) == Field(a + b, k, default)
  {
    var big, small := a + [x] + b, a + b;
    match LastOfKind(small, k)
    case None =>
      forall i | 0 <= i < |big| ensures big[i].kind != k {
        if i != |a| {
          Unshift(a, x, b, i);
        }
      }
      FieldAbsent(big, k, default);
    case Some(j) =>
      ShiftAt(a, x, b, j);
      forall i | Shift(a, j) < i < |big| ensures big[i].kind != k {
        if i != |a| {
          Unshift(a, x, b, i);
        }
      }
      FieldOfLast(big, Shift(a, j), k, default);
  }

  /** An inert reading does not change which reading raises first. */
  lemma InertScan(a: seq<LineReading>, x: LineReading, b: seq<LineReading>)
    requires Inert(x)
    ensures Scan(a + [x] + b) == Scan(a + b)
  {
    var big, small := a + [x] + b, a + b;
    forall i | 0 <= i < |big| && i != |a| ensures big[i].raises == small[if i < |a| then i else i - 1].raises {
      Unshift(a, x, b, i);
    }
    match FirstRaising(small)
    case None =>
      InertField(a, x, b, ClassificationLine, Defaults.classification);
      InertField(a, x, b, ConfidenceLine, Defaults.confidence);
      InertField(a, x, b, AnalysisLine, Defaults.analysis);
      InertField(a, x, b, RegionsLine, Defaults.suspiciousRegions);
      assert NoRaise(big);
    case Some(j) =>
      ShiftAt(a, x, b, j);
      forall i | 0 <= i < Shift(a, j) ensures !big[..Shift(a, j)][i].raises {
        assert big[..Shift(a, j)][i] == big[i];
      }
      FirstRaisingAt(big, Shift(a, j));
  }

  /** An inert reading does not change which reading carries the first reference. */
  lemma InertAnnotation(a: seq<LineReading>, x: LineReading, b: seq<LineReading>)
    requires Inert(x)
    ensures AnnotatedImage(a + [x] + b) == AnnotatedImage(a + b)
  {
    var big, small := a + [x] + b, a + b;
    forall i | 0 <= i < |big| && i != |a|
      ensures big[i].annotated == small[if i < |a| then i else i - 1].annotated
    {
      Unshift(a, x, b, i);
    }
    match FirstAnnotated(small)
    case None =>
      assert forall i :: 0 <= i < |big| ==> big[i].annotated.None?;
    case Some(j) =>
      ShiftAt(a, x, b, j);
      FirstAnnotatedAt(big, Shift(a, j));
  }

  /** An inert reading between others changes nothing but the verbatim reply. */
  lemma InertReading(a: seq<LineReading>, x: LineReading, b: seq<LineReading>, withLine: string, without: string)
    requires Inert(x)
    ensures var big, small := InterpretReadings(a + [x] + b, withLine), InterpretReadings(a + b, without);
      (big.Failure? <==> small.Failure?)
      && (big.Failure? ==> big == small)
      && (big.Success? ==> big.value == small.value.(fullResponse := withLine))
  {
    InertScan(a, x, b);
    InertAnnotation(a, x, b);
  }

  /** The readings of the lines `pre + [line] + post` and of `pre + post`. */
  lemma ReadingsAround(pre: seq<string>, line: string, post: seq<string>)
    ensures ReadLines(pre + [line] + post) == ReadLines(pre) + [ReadLine(line)] + ReadLines(post)
    ensures ReadLines(pre + post) == ReadLines(pre) + ReadLines(post)
  {
    ReadLinesAppend(pre + [line], post);
    ReadLinesAppend(pre, [line]);
    ReadLinesAppend(pre, post);
    assert ReadLines([line]) == [ReadLine(line)];
  }

  /** A line that carries none of the four labels and does not start with `ANNOTATED_IMAGE:`
      makes no difference to the result: only the verbatim full response changes. */
  lemma UnlabelledLineIgnored(pre: seq<string>, line: string, post: seq<string>, withLine: string, without: string)
    requires SplitLines(withLine) == pre + [line] + post && SplitLines(without) == pre + post
    requires forall k :: k != OtherLine ==> !StartsWith(Lower(line), Label(k))
    requires !StartsWith(line, AnnotatedImagePrefix)
    ensures Interpret(withLine).Failure? <==> Interpret(without).Failure?
    ensures Interpret(withLine).Failure? ==> Interpret(withLine) == Interpret(without)
    ensures Interpret(withLine).Success? ==>
      Interpret(withLine).value == Interpret(without).value.(fullResponse := withLine)
  {
    var x := ReadLine(line);
    AnnotationIff(line);
    assert Inert(x);
    var a, b := ReadLines(pre), ReadLines(post);
    ReadingsAround(pre, line, post);
    assert Interpret(withLine) == InterpretReadings(a + [x] + b, withLine);
    assert Interpret(without) == InterpretReadings(a + b, without);
    InertReading(a, x, b, withLine, without);
  }
}
