/** Worked replies: the verdict rule on single words, a reply that is one classification
    line, and a classification line with a blank value; and two file names and their MIME
    types. */
module InterpreterExamples {
  import opened Wrappers
  import opened Text
  import opened Interpreter
  import opened InterpreterLaws

  /** `Real` reads as Real. */
  lemma NormalizeReal()
    ensures Normalize("Real") == Real
  {
    var upper := Upper("Real");
    assert upper == "REAL";
    assert !Contains(upper, "AI") by {
      MissingChar(upper, "AI", 'I');
    }
    assert StartsWith(upper, "REAL");
  }

  /** `AI-Generated` reads as AI. */
  lemma NormalizeGenerated()
    ensures Normalize("AI-Generated") == AI
  {
    assert StartsWith(Upper("AI-Generated"), "AI");
  }

  /** The verdict is a substring test: `Uncertain` holds `AI` (uncert-AI-n) and so reads as AI. */
  lemma NormalizeUncertain()
    ensures Normalize("Uncertain") == AI
  {
    var upper := Upper("Uncertain");
    assert upper == "UNCERTAIN";
    assert OccursAt(upper, "AI", 6);
    ContainsAt(upper, "AI");
  }

  /** A word holding neither `AI` nor `REAL` reads as Unknown. */
  lemma NormalizeOther()
    ensures Normalize("fake") == Unknown
  {
    var upper := Upper("fake");
    assert upper == "FAKE";
    assert !Contains(upper, "AI") by {
      MissingChar(upper, "AI", 'I');
    }
    assert !Contains(upper, "REAL") by {
      MissingChar(upper, "REAL", 'R');
    }
  }

  /** A word without whitespace has nothing to trim on the left. */
  lemma WordTrimLeft(word: string)
    requires word != [] && forall i :: 0 <= i < |word| ==> !IsSpace(word[i])
    ensures TrimLeft(word) == word
  {
    assert !IsSpace(word[0]);
  }

  /** A word without whitespace has nothing to trim on the right. */
  lemma WordTrimRight(word: string)
    requires word != [] && forall i :: 0 <= i < |word| ==> !IsSpace(word[i])
    ensures TrimRight(word) == word
  {
    assert !IsSpace(word[|word| - 1]);
  }

  /** A word without whitespace is its own longest whitespace-free prefix. */
  lemma WordTakeWord(word: string)
    requires forall i :: 0 <= i < |word| ==> !IsSpace(word[i])
    ensures TakeWord(word) == word
  {
    var w := TakeWord(word);
    assert |w| == |word|;
  }

  /** One leading space is trimmed away. */
  lemma SpaceTrimLeft(word: string)
    ensures TrimLeft(" " + word) == TrimLeft(word)
  {
    assert (" " + word)[1..] == word;
  }

  /** A word without whitespace is its own stripped form and its own first word, also after
      a leading space. */
  lemma PaddedWord(word: string)
    requires word != [] && forall i :: 0 <= i < |word| ==> !IsSpace(word[i])
    ensures Strip(" " + word) == word && FirstWord(word) == Some(word)
    ensures !Blank(" " + word)
  {
    SpaceTrimLeft(word);
    WordTrimLeft(word);
    WordTrimRight(word);
    WordTakeWord(word);
    assert !IsSpace((" " + word)[1]);
  }

  /** A line starting with `CLASSIFICATION:` in capitals carries the classification label. */
  lemma UpperClassificationLabel(line: string)
    requires StartsWith(line, "CLASSIFICATION:")
    ensures StartsWith(Lower(line), Label(ClassificationLine))
  {
    var lower := Lower(line);
    forall i | 0 <= i < 15 ensures lower[i] == Label(ClassificationLine)[i] {
      assert line[i] == "CLASSIFICATION:"[i];
    }
  }

  /** A classification line does not start with `ANNOTATED_IMAGE:`. */
  lemma ClassificationNotAnnotated(line: string)
    requires StartsWith(Lower(line), Label(ClassificationLine))
    ensures !StartsWith(line, AnnotatedImagePrefix)
  {
    assert Lower(line)[0] == 'c';
    assert line[0] != AnnotatedImagePrefix[0];
  }

  /** A one-line reply whose line carries the classification label followed by a single word
      is read, and its verdict comes from the word. */
  lemma ClassificationLineRead(line: string, word: string)
    requires '\n' !in line && StartsWith(Lower(line), Label(ClassificationLine))
    requires word != [] && forall i :: 0 <= i < |word| ==> !IsSpace(word[i])
    requires Strip(line[|Label(ClassificationLine)|..]) == word
    ensures Interpret(line).Success? && Interpret(line).value.answer == Normalize(word)
  {
    SplitSingleLine(line);
    OnlyLabel(line, ClassificationLine);
    assert !Blank(line[|Label(ClassificationLine)|..]);
    assert !BlankWordLine(line);
    var lines := SplitLines(line);
    assert forall j :: 0 <= j < |lines| ==> !BlankWordLine(lines[j]);
    FailsIff(line);
    assert Interpret(line).Success?;
    LastLabelWins(line, 0, ClassificationLine);
    PaddedWord(word);
  }

  /** A one-line reply whose line lacks `k`'s label keeps `k`'s default. */
  lemma OneLineAbsent(line: string, k: LineKind)
    requires '\n' !in line && k != OtherLine && !StartsWith(Lower(line), Label(k))
    requires Interpret(line).Success?
    ensures k == ConfidenceLine ==> Interpret(line).value.confidence == "Medium"
    ensures k == AnalysisLine ==> Interpret(line).value.analysis == ""
    ensures k == RegionsLine ==> Interpret(line).value.suspiciousRegions == ""
  {
    SplitSingleLine(line);
    AbsentLabelDefaults(line, k);
  }

  /** A one-line reply whose line lacks the `ANNOTATED_IMAGE:` prefix has no reference. */
  lemma OneLineNoAnnotation(line: string)
    requires '\n' !in line && !StartsWith(line, AnnotatedImagePrefix)
    requires Interpret(line).Success?
    ensures Interpret(line).value.annotatedImage == None
  {
    SplitSingleLine(line);
    NoAnnotation(line);
  }

  /** A one-line reply carrying only the classification label, once read, keeps the defaults
      of every other field and has no annotated-image reference. */
  lemma ClassificationLineDefaults(line: string)
    requires '\n' !in line && StartsWith(Lower(line), Label(ClassificationLine))
    requires Interpret(line).Success?
    ensures Interpret(line).value.confidence == "Medium"
    ensures Interpret(line).value.analysis == "" && Interpret(line).value.suspiciousRegions == ""
    ensures Interpret(line).value.annotatedImage == None
  {
    OnlyLabel(line, ClassificationLine);
    OneLineAbsent(line, ConfidenceLine);
    OneLineAbsent(line, AnalysisLine);
    OneLineAbsent(line, RegionsLine);
    ClassificationNotAnnotated(line);
    OneLineNoAnnotation(line);
  }

  /** A reply whose one line carries the classification label followed by a single word:
      the verdict comes from the word and every other field keeps its default. */
  lemma ClassificationOnlyLine(line: string, word: string)
    requires '\n' !in line && StartsWith(Lower(line), Label(ClassificationLine))
    requires word != [] && forall i :: 0 <= i < |word| ==> !IsSpace(word[i])
    requires Strip(line[|Label(ClassificationLine)|..]) == word
    ensures Interpret(line) == Success(Analysis(Normalize(word), "Medium", "", "", None, line))
  {
    ClassificationLineRead(line, word);
    ClassificationLineDefaults(line);
  }

  /** The reply `CLASSIFICATION: <word>`, for any word without whitespace. */
  lemma ClassificationOnlyReply(word: string)
    requires word != [] && forall i :: 0 <= i < |word| ==> !IsSpace(word[i])
    ensures Interpret("CLASSIFICATION: " + word) ==
      Success(Analysis(Normalize(word), "Medium", "", "", None, "CLASSIFICATION: " + word))
  {
    var text := "CLASSIFICATION: " + word;
    assert '\n' !in text by {
      forall i | 0 <= i < |text| ensures text[i] != '\n' {
        if i >= 16 {
          assert text[i] == word[i - 16];
        }
      }
    }
    assert StartsWith(text, "CLASSIFICATION:") by {
      assert text[..15] == "CLASSIFICATION:";
    }
    UpperClassificationLabel(text);
    assert text[15..] == " " + word;
    PaddedWord(word);
    ClassificationOnlyLine(text, word);
  }

  /** A single classification line with only whitespace after the label makes the reading
      fail on that line. */
  lemma BlankClassificationReply(pad: string)
    requires Blank(pad) && '\n' !in pad
    ensures Interpret("CLASSIFICATION:" + pad) == Failure(BlankFirstWord("CLASSIFICATION:" + pad))
  {
    var text := "CLASSIFICATION:" + pad;
    assert '\n' !in text by {
      forall i | 0 <= i < |text| ensures text[i] != '\n' {
        if i >= 15 {
          assert text[i] == pad[i - 15];
        }
      }
    }
    SplitSingleLine(text);
    var lower := Lower(text);
    assert StartsWith(lower, Label(ClassificationLine)) by {
      forall i | 0 <= i < 15 ensures lower[i] == Label(ClassificationLine)[i] {
        assert text[i] == "CLASSIFICATION:"[i];
      }
    }
    assert text[15..] == pad;
    FirstBlankLineReported(text, 0);
  }

  /** The extension test ignores case: `photo.PNG` is sent as PNG. */
  lemma MimeUpperCaseExtension(name: string)
    requires name == "photo.PNG"
    ensures MimeType(name) == "image/png"
  {
    assert Lower(name) == "photo.png";
  }

  /** `.jpeg` is none of the three tested extensions, so it takes the JPEG default. */
  lemma MimeJpegDefault(name: string)
    requires name == "scan.jpeg"
    ensures MimeType(name) == "image/jpeg"
  {
    assert Lower(name) == name;
  }
}
