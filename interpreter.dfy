/**
  The reply interpreter at the end of `analyze_image` (detector/gemini_service.py): the MIME
  type announced for the upload, and the reading of the vision model's labelled-line reply
  into an analysis result.

  `Interpret` is the reference definition: each of the four case-insensitive fields takes its
  value from the LAST line carrying its label, the annotated-image reference from the FIRST
  line carrying the exact prefix `ANNOTATED_IMAGE:`, and the reading fails exactly when some
  classification or confidence line has a blank value (Python's `split()[0]` raises there).
  `ParseResponse` is the loop the source runs, proved equal to it.
*/
module Interpreter {
  import opened Wrappers
  import opened Text

  /** The normalised verdict. */
  datatype Answer = AI | Real | Unknown

  /** The dictionary `analyze_image` returns. */
  datatype Analysis = Analysis(
    answer: Answer,
    confidence: string,
    analysis: string,
    suspiciousRegions: string,
    annotatedImage: Option<string>,
    fullResponse: string)

  /** The IndexError raised by `split()[0]` on a classification or confidence line whose value is blank. */
  datatype ParseError = BlankFirstWord(line: string)

  /** Why `analyze_image` gives no result. */
  datatype AnalyzeError = MissingApiKey | ReplyUnreadable(cause: ParseError)

  /** Both free-text fields are cut to this many characters. */
  const MaxFieldLength: nat := 300

  /** The one label matched case-sensitively. */
  const AnnotatedImagePrefix := "ANNOTATED_IMAGE:"

  // ---------------------------------------------------------------- MIME type

  /** The MIME type sent with the image: chosen from the lower-cased file name's extension,
      JPEG for anything that is not PNG, GIF or WebP. */
  function MimeType(fileName: string): (mime: string)
    ensures mime in {"image/png", "image/gif", "image/webp", "image/jpeg"}
    ensures mime == "image/png" <==> EndsWith(Lower(fileName), ".png")
    ensures mime == "image/gif" <==> EndsWith(Lower(fileName), ".gif")
    ensures mime == "image/webp" <==> EndsWith(Lower(fileName), ".webp")
    ensures mime == "image/jpeg" <==>
      !EndsWith(Lower(fileName), ".png") && !EndsWith(Lower(fileName), ".gif") && !EndsWith(Lower(fileName), ".webp")
  {
    var name := Lower(fileName);
    if EndsWith(name, ".png") then "image/png"
    else if EndsWith(name, ".gif") then "image/gif"
    else if EndsWith(name, ".webp") then "image/webp"
    else "image/jpeg"
  }

  // ---------------------------------------------------------------- line labels

  /** Which of the four case-insensitive labels a line carries. */
  datatype LineKind = ClassificationLine | ConfidenceLine | AnalysisLine | RegionsLine | OtherLine

  /** The lower-case label of each field, colon included. */
  function Label(k: LineKind): (tag: string)
    requires k != OtherLine
    ensures |tag| >= 1 && tag[|tag| - 1] == ':'
    ensures forall j :: 0 <= j < |tag| - 1 ==> tag[j] != ':'
  {
    match k
    case ClassificationLine => "classification:"
    case ConfidenceLine => "confidence:"
    case AnalysisLine => "analysis:"
    case RegionsLine => "suspicious_regions:"
  }

  /** The `if`/`elif` chain over `line.lower()`: the first label the lowered line starts with. */
  function KindOf(line: string): (k: LineKind)
    ensures k != OtherLine ==> StartsWith(Lower(line), Label(k))
  {
    var lower := Lower(line);
    if StartsWith(lower, Label(ClassificationLine)) then ClassificationLine
    else if StartsWith(lower, Label(ConfidenceLine)) then ConfidenceLine
    else if StartsWith(lower, Label(AnalysisLine)) then AnalysisLine
    else if StartsWith(lower, Label(RegionsLine)) then RegionsLine
    else OtherLine
  }

  /** No text starts with two different labels, so the order of the `elif` tests is immaterial:
      a line whose lowered form starts with a label is of that label's kind. */
  lemma KindOfLabel(line: string, k: LineKind)
    requires k != OtherLine && StartsWith(Lower(line), Label(k))
    ensures KindOf(line) == k
  {
  }

  /** A labelled line holds a colon, and its first colon is the one that closes the label,
      so `split(':', 1)[1]` is exactly what follows the label. */
  lemma {:induction false} AfterLabel(line: string, k: LineKind)
    requires k != OtherLine && StartsWith(Lower(line), Label(k))
    ensures ':' in line
    ensures AfterFirstColon(line) == line[|Label(k)|..]
  {
    var tag := Label(k);
    var n := |tag| - 1;
    assert LowerChar(line[n]) == tag[n] == ':';
    assert line[n] == ':' && line[n] in line;
    forall j | 0 <= j < n ensures line[j] != ':' {
      assert LowerChar(line[j]) == Lower(line)[..|tag|][j] == tag[j];
    }
  }

  /** The trimmed text after the first colon of a labelled line. */
  function Remainder(line: string): string
    requires KindOf(line) != OtherLine
  {
    AfterLabel(line, KindOf(line));
    Strip(AfterFirstColon(line))
  }

  /** Classification and confidence keep only their first word. */
  predicate WordField(k: LineKind) {
    k == ClassificationLine || k == ConfidenceLine
  }

  /** A line that starts, in exactly these capitals, with `ANNOTATED_IMAGE:`. */
  predicate IsAnnotatedLine(line: string) {
    StartsWith(line, AnnotatedImagePrefix)
  }

  // ---------------------------------------------------------------- one line

  /** What one line of the reply contributes:
      `kind`, the label it carries (if any);
      `value`, what it would assign to that field (the first word for classification and
      confidence, the whole trimmed remainder for analysis and suspicious regions);
      `raises`, whether the source's `split()[0]` raises IndexError on it;
      `annotated`, its reference if it is an annotated-image line;
      `text`, the line itself. */
  datatype LineReading = LineReading(
    kind: LineKind, value: string, raises: bool, annotated: Option<string>, text: string)

  /** The reading of one line, as the two loops of the source treat it. */
  function ReadLine(line: string): LineReading {
    LineReading(KindOf(line), ValueOf(line), RaisesOn(line), AnnotationOf(line), line)
  }

  /** What a labelled line assigns to its field. */
  function ValueOf(line: string): string {
    var kind := KindOf(line);
    if kind == OtherLine then ""
    else if WordField(kind) then FirstWord(Remainder(line)).GetOr("")
    else Remainder(line)
  }

  /** The source raises on a classification or confidence line whose remainder is blank. */
  predicate RaisesOn(line: string) {
    var kind := KindOf(line);
    kind != OtherLine && WordField(kind) && FirstWord(Remainder(line)).None?
  }

  /** The reference an annotated-image line carries. */
  function AnnotationOf(line: string): Option<string> {
    if IsAnnotatedLine(line) then
      assert line[15] in line;
      Some(Strip(AfterFirstColon(line)))
    else None
  }

  /** What a labelled line assigns is taken from the text that follows its label: all of it,
      trimmed, for analysis and suspicious regions; its first word for classification and
      confidence, and the line raises exactly when that text is blank. */
  lemma ReadLabelledLine(line: string, k: LineKind)
    requires k != OtherLine && StartsWith(Lower(line), Label(k))
    ensures ReadLine(line).kind == k
    ensures !WordField(k) ==> !ReadLine(line).raises && ReadLine(line).value == Strip(line[|Label(k)|..])
    ensures WordField(k) ==> (ReadLine(line).raises <==> Blank(line[|Label(k)|..]))
    ensures WordField(k) && !ReadLine(line).raises ==>
      Some(ReadLine(line).value) == FirstWord(Strip(line[|Label(k)|..]))
  {
    KindOfLabel(line, k);
    AfterLabel(line, k);
  }

  /** The reading of every line, in order. */
  function ReadLines(lines: seq<string>): (rs: seq<LineReading>)
    ensures |rs| == |lines|
  {
    if lines == [] then [] else ReadLines(lines[..|lines| - 1]) + [ReadLine(lines[|lines| - 1])]
  }

  /** The `j`-th reading is that of the `j`-th line. */
  lemma {:induction false} ReadLinesAt(lines: seq<string>, j: nat)
    requires j < |lines|
    ensures ReadLines(lines)[j] == ReadLine(lines[j])
  {
    if j < |lines| - 1 {
      ReadLinesAt(lines[..|lines| - 1], j);
    }
  }

  /** The reading of a line whose lowered form starts with a label, in the terms the loop uses. */
  lemma LabelledAt(lines: seq<string>, i: nat, k: LineKind)
    requires i < |lines| && k != OtherLine && StartsWith(Lower(lines[i]), Label(k))
    ensures ':' in lines[i]
    ensures ReadLines(lines)[i].text == lines[i]
    ensures ReadLines(lines)[i].kind == k
    ensures ReadLines(lines)[i].raises == (WordField(k) && FirstWord(Strip(AfterFirstColon(lines[i]))).None?)
    ensures ReadLines(lines)[i].value ==
      if WordField(k) then FirstWord(Strip(AfterFirstColon(lines[i]))).GetOr("") else Strip(AfterFirstColon(lines[i]))
  {
    ReadLinesAt(lines, i);
    KindOfLabel(lines[i], k);
    AfterLabel(lines[i], k);
  }

  /** A line that starts with no label assigns nothing and does not raise. */
  lemma UnlabelledAt(lines: seq<string>, i: nat)
    requires i < |lines|
    requires !StartsWith(Lower(lines[i]), Label(ClassificationLine))
    requires !StartsWith(Lower(lines[i]), Label(ConfidenceLine))
    requires !StartsWith(Lower(lines[i]), Label(AnalysisLine))
    requires !StartsWith(Lower(lines[i]), Label(RegionsLine))
    ensures ReadLines(lines)[i].kind == OtherLine && !ReadLines(lines)[i].raises
  {
    ReadLinesAt(lines, i);
  }

  /** The annotated-image reference of the `k`-th line, in the terms the loop uses. */
  lemma AnnotationAt(lines: seq<string>, k: nat)
    requires k < |lines|
    ensures IsAnnotatedLine(lines[k]) ==>
      ':' in lines[k] && ReadLines(lines)[k].annotated == Some(Strip(AfterFirstColon(lines[k])))
    ensures !IsAnnotatedLine(lines[k]) ==> ReadLines(lines)[k].annotated == None
  {
    ReadLinesAt(lines, k);
  }

  /** Reading a concatenation reads each part. */
  lemma {:induction false} ReadLinesAppend(a: seq<string>, b: seq<string>)
    ensures ReadLines(a + b) == ReadLines(a) + ReadLines(b)
  {
    if b != [] {
      var b' := b[..|b| - 1];
      assert (a + b)[..|a + b| - 1] == a + b';
      ReadLinesAppend(a, b');
    } else {
      assert a + b == a;
    }
  }

  // ---------------------------------------------------------------- across lines

  /** No line makes the source raise. */
  predicate NoRaise(rs: seq<LineReading>) {
    forall j :: 0 <= j < |rs| ==> !rs[j].raises
  }

  /** The index of the last line of kind `k`. */
  function LastOfKind(rs: seq<LineReading>, k: LineKind): (r: Option<nat>)
    ensures r.Some? ==> r.value < |rs| && rs[r.value].kind == k
    ensures r.Some? ==> forall j :: r.value < j < |rs| ==> rs[j].kind != k
    ensures r.None? ==> forall j :: 0 <= j < |rs| ==> rs[j].kind != k
  {
    if rs == [] then None
    else if rs[|rs| - 1].kind == k then Some(|rs| - 1)
    else LastOfKind(rs[..|rs| - 1], k)
  }

  /** The index of the first line on which the source raises. */
  function FirstRaising(rs: seq<LineReading>): (r: Option<nat>)
    ensures r.Some? ==> r.value < |rs| && rs[r.value].raises
    ensures r.Some? ==> forall j :: 0 <= j < r.value ==> !rs[j].raises
    ensures r.None? <==> NoRaise(rs)
  {
    if rs == [] then None
    else if rs[0].raises then Some(0)
    else match FirstRaising(rs[1..])
      case None => None
      case Some(i) => Some(i + 1)
  }

  /** The index of the first annotated-image line. */
  function FirstAnnotated(rs: seq<LineReading>): (r: Option<nat>)
    ensures r.Some? ==> r.value < |rs| && rs[r.value].annotated.Some?
    ensures r.Some? ==> forall j :: 0 <= j < r.value ==> rs[j].annotated.None?
    ensures r.None? ==> forall j :: 0 <= j < |rs| ==> rs[j].annotated.None?
  {
    if rs == [] then None
    else if rs[0].annotated.Some? then Some(0)
    else match FirstAnnotated(rs[1..])
      case None => None
      case Some(i) => Some(i + 1)
  }

  /** The value of the field of kind `k`: that of its last line, or the default. */
  function Field(rs: seq<LineReading>, k: LineKind, default: string): string {
    match LastOfKind(rs, k)
    case None => default
    case Some(j) => rs[j].value
  }

  /** The annotated-image reference: that of the first line carrying one. */
  function AnnotatedImage(rs: seq<LineReading>): Option<string> {
    match FirstAnnotated(rs)
    case None => None
    case Some(j) => rs[j].annotated
  }

  // ---------------------------------------------------------------- the reading

  /** The verdict: AI when the upper-cased word contains "AI" (tested first), else Real when it
      contains "REAL", else Unknown. */
  function Normalize(classification: string): (a: Answer)
    ensures a == AI <==> Contains(Upper(classification), "AI")
    ensures a == Real <==> !Contains(Upper(classification), "AI") && Contains(Upper(classification), "REAL")
    ensures a == Unknown <==> !Contains(Upper(classification), "AI") && !Contains(Upper(classification), "REAL")
  {
    var upper := Upper(classification);
    if Contains(upper, "AI") then AI
    else if Contains(upper, "REAL") then Real
    else Unknown
  }

  /** The four fields the first pass collects, before normalisation and truncation. */
  datatype Fields = Fields(classification: string, confidence: string, analysis: string, suspiciousRegions: string)

  /** The defaults the first pass starts from. */
  const Defaults := Fields("Unknown", "Medium", "", "")

  /** What the first pass ends with when no line raises: each field from its last line. */
  function Scanned(rs: seq<LineReading>): Fields {
    Fields(
      Field(rs, ClassificationLine, Defaults.classification),
      Field(rs, ConfidenceLine, Defaults.confidence),
      Field(rs, AnalysisLine, Defaults.analysis),
      Field(rs, RegionsLine, Defaults.suspiciousRegions))
  }

  /** The outcome of the first pass: the IndexError of the first raising line, or the fields. */
  function Scan(rs: seq<LineReading>): Result<Fields, ParseError> {
    match FirstRaising(rs)
    case Some(i) => Failure(BlankFirstWord(rs[i].text))
    case None => Success(Scanned(rs))
  }

  /** The reading of a reply from the readings of its lines; `fullResponse` is kept verbatim. */
  function InterpretReadings(rs: seq<LineReading>, fullResponse: string): Result<Analysis, ParseError> {
    match Scan(rs)
    case Failure(e) => Failure(e)
    case Success(f) =>
      Success(Analysis(
        Normalize(f.classification),
        f.confidence,
        Take(f.analysis, MaxFieldLength),
        Take(f.suspiciousRegions, MaxFieldLength),
        AnnotatedImage(rs),
        fullResponse))
  }

  /** The reading of the (already stripped) reply text. */
  function Interpret(responseText: string): (r: Result<Analysis, ParseError>)
    ensures r.Success? ==> r.value.fullResponse == responseText
    ensures r.Success? ==> |r.value.analysis| <= MaxFieldLength && |r.value.suspiciousRegions| <= MaxFieldLength
  {
    InterpretReadings(ReadLines(SplitLines(responseText)), responseText)
  }

  // ---------------------------------------------------------------- the source's loops

  /** One line of the first pass: the field its label names takes the line's value. */
  function Update(f: Fields, r: LineReading): Fields {
    match r.kind
    case ClassificationLine => f.(classification := r.value)
    case ConfidenceLine => f.(confidence := r.value)
    case AnalysisLine => f.(analysis := r.value)
    case RegionsLine => f.(suspiciousRegions := r.value)
    case OtherLine => f
  }

  /** One more line changes a field only if it carries that field's label. */
  lemma FieldStep(rs: seq<LineReading>, i: nat, k: LineKind, default: string)
    requires i < |rs|
    ensures Field(rs[..i + 1], k, default) == if rs[i].kind == k then rs[i].value else Field(rs[..i], k, default)
  {
    assert rs[..i + 1][..i] == rs[..i];
  }

  /** Overwriting line by line leaves each field with its last line's value. */
  lemma ScanStep(rs: seq<LineReading>, i: nat)
    requires i < |rs|
    ensures Scanned(rs[..i + 1]) == Update(Scanned(rs[..i]), rs[i])
  {
    FieldStep(rs, i, ClassificationLine, Defaults.classification);
    FieldStep(rs, i, ConfidenceLine, Defaults.confidence);
    FieldStep(rs, i, AnalysisLine, Defaults.analysis);
    FieldStep(rs, i, RegionsLine, Defaults.suspiciousRegions);
  }

  /** One more line of the first pass: it raises first, or it keeps the pass free of raising
      lines and updates the field its label names. */
  lemma ScanLineStep(rs: seq<LineReading>, i: nat)
    requires i < |rs| && NoRaise(rs[..i])
    ensures rs[i].raises ==> Scan(rs) == Failure(BlankFirstWord(rs[i].text))
    ensures !rs[i].raises ==> NoRaise(rs[..i + 1])
    ensures Scanned(rs[..i + 1]) == Update(Scanned(rs[..i]), rs[i])
  {
    ScanStep(rs, i);
    if rs[i].raises {
      FirstRaisingAt(rs, i);
    } else {
      var longer := rs[..i + 1];
      forall j | 0 <= j < |longer| ensures !longer[j].raises {
        if j < i {
          assert longer[j] == rs[..i][j];
        }
      }
    }
  }

  /** A raising line after lines that do not raise is the first that raises. */
  lemma FirstRaisingAt(rs: seq<LineReading>, i: nat)
    requires i < |rs| && NoRaise(rs[..i]) && rs[i].raises
    ensures FirstRaising(rs) == Some(i)
  {
    forall j | 0 <= j < i ensures !rs[j].raises {
      assert rs[..i][j] == rs[j];
    }
  }

  /** The first pass of the parsing block: one loop over the lines that overwrites the four
      fields; `split()[0]` on a blank value ends it with the IndexError. */
  method ScanLines(lines: seq<string>) returns (result: Result<Fields, ParseError>)
    ensures result == Scan(ReadLines(lines))
  {
    ghost var rs := ReadLines(lines);
    var classification := "Unknown";
    var confidence := "Medium";
    var analysis := "";
    var suspiciousRegions := "";
    for i := 0 to |lines|
      invariant NoRaise(rs[..i])
      invariant Fields(classification, confidence, analysis, suspiciousRegions) == Scanned(rs[..i])
    {
      var line := lines[i];
      var lineLower := Lower(line);
      ScanLineStep(rs, i);
      if StartsWith(lineLower, Label(ClassificationLine)) {
        LabelledAt(lines, i, ClassificationLine);
        var word := FirstWord(Strip(AfterFirstColon(line)));
        if word.None? {
          return Failure(BlankFirstWord(line));
        }
        classification := word.value;
      } else if StartsWith(lineLower, Label(ConfidenceLine)) {
        LabelledAt(lines, i, ConfidenceLine);
        var word := FirstWord(Strip(AfterFirstColon(line)));
        if word.None? {
          return Failure(BlankFirstWord(line));
        }
        confidence := word.value;
      } else if StartsWith(lineLower, Label(AnalysisLine)) {
        LabelledAt(lines, i, AnalysisLine);
        analysis := Strip(AfterFirstColon(line));
      } else if StartsWith(lineLower, Label(RegionsLine)) {
        LabelledAt(lines, i, RegionsLine);
        suspiciousRegions := Strip(AfterFirstColon(line));
      } else {
        UnlabelledAt(lines, i);
      }
    }
    assert rs[..|lines|] == rs;
    assert FirstRaising(rs) == None;
    result := Success(Fields(classification, confidence, analysis, suspiciousRegions));
  }

  /** The second pass: the first line that starts with `ANNOTATED_IMAGE:` (case-sensitive)
      gives the reference, and the scan stops there. */
  method FindAnnotatedImage(lines: seq<string>) returns (annotated: Option<string>)
    ensures annotated == AnnotatedImage(ReadLines(lines))
  {
    ghost var rs := ReadLines(lines);
    annotated := None;
    var k := 0;
    while k < |lines|
      invariant 0 <= k <= |lines|
      invariant forall j :: 0 <= j < k ==> rs[j].annotated.None?
      invariant annotated == None
    {
      AnnotationAt(lines, k);
      if StartsWith(lines[k], AnnotatedImagePrefix) {
        annotated := Some(Strip(AfterFirstColon(lines[k])));
        FirstAnnotatedAt(rs, k);
        break;
      }
      k := k + 1;
    }
  }

  /** An annotated line after lines without one is the first annotated line. */
  lemma FirstAnnotatedAt(rs: seq<LineReading>, k: nat)
    requires k < |rs| && rs[k].annotated.Some?
    requires forall j :: 0 <= j < k ==> rs[j].annotated.None?
    ensures FirstAnnotated(rs) == Some(k)
  {
  }

  /** The parsing block of `analyze_image` (its two loops are `ScanLines` and
      `FindAnnotatedImage`), on the reply text after `strip()`. */
  method ParseResponse(responseText: string) returns (result: Result<Analysis, ParseError>)
    ensures result == Interpret(responseText)
  {
    var lines := SplitLines(responseText);
    var scanned := ScanLines(lines);
    if scanned.Failure? {
      return Failure(scanned.error);
    }
    var f := scanned.value;
    var answer := Normalize(f.classification);
    var annotated := FindAnnotatedImage(lines);
    result := Success(Analysis(
      answer,
      f.confidence,
      Take(f.analysis, MaxFieldLength),
      Take(f.suspiciousRegions, MaxFieldLength),
      annotated,
      responseText));
  }

  /** `analyze_image` seen from its reply: a missing API key is reported before anything else;
      otherwise the reply text, stripped, is interpreted. */
  function Analyze(apiKey: string, replyText: string): (r: Result<Analysis, AnalyzeError>)
    ensures apiKey == "" <==> r == Failure(MissingApiKey)
    ensures apiKey != "" && r.Success? ==> r.value.fullResponse == Strip(replyText)
    ensures apiKey != "" ==> (r.Failure? <==> Interpret(Strip(replyText)).Failure?)
    ensures apiKey != "" && r.Success? ==> Interpret(Strip(replyText)) == Success(r.value)
    ensures apiKey != "" && r.Failure? ==> r.error == ReplyUnreadable(Interpret(Strip(replyText)).error)
  {
    if apiKey == "" then Failure(MissingApiKey)
    else match Interpret(Strip(replyText))
      case Success(a) => Success(a)
      case Failure(e) => Failure(ReplyUnreadable(e))
  }
}
