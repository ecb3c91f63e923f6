# AI image detector: reply interpreter and overlay planner

This project models the core of a small Django service. The service sends an uploaded
image to a vision-language model and asks whether the image is AI-generated or real. It
reads the model's free-text reply into structured fields, then draws markers on a copy of
the image. Two source files make up the core:

- `detector/gemini_service.py`, `analyze_image`:
  - the choice of MIME type from the file name;
  - the line-by-line reading of the reply: classification, confidence, analysis,
    suspicious regions and an optional `ANNOTATED_IMAGE:` reference;
  - the AI / Real / Unknown verdict;
  - the 300-character cut of the two free-text fields;
  - the missing-API-key error.
- `detector/views.py`, `add_analysis_overlay`:
  - the border rectangles;
  - the keyword-to-position ring table and its five-ring cap;
  - the centred fallback ring;
  - the `data:image/png;base64,` result.

Modules:

- `Wrappers` (wrappers.dfy): `Option` and `Result`.
- `Text` (text.dfy): the Python string operations the source uses, on `seq<char>`. These
  are `strip`, `split('\n')`, `split()[0]`, `lower`, `upper`, `startswith`, `endswith`,
  substring `in` and slicing.
- `Interpreter` (interpreter.dfy):
  - `Interpret` is the reference definition of the reply reading. The last line with a
    label sets that label's field. The first `ANNOTATED_IMAGE:` line gives the reference.
    A blank classification or confidence value makes the reading fail.
  - `ParseResponse`, `ScanLines` and `FindAnnotatedImage` are the source's two loops,
    proved to compute `Interpret`.
- `InterpreterLaws` (interpreter_laws.dfy): what the reading promises, as lemmas over all
  replies.
- `InterpreterExamples` (interpreter_examples.dfy): worked replies and file names.
- `Overlay` (overlay.dfy):
  - `Plan` is the reference list of drawing commands.
  - `Canvas` is the drawing surface. It records each rectangle and ellipse drawn on it.
  - `AddAnalysisOverlay` and its helper methods are the source's loops, proved to record
    exactly `Plan`.
- `OverlayLaws` (overlay_laws.dfy): the border rule, the ring count, ring placement, the
  fallback and the shared radius.
- `OverlayExamples` (overlay_examples.dfy): concrete region texts.

Behaviour of the code worth knowing, which the model keeps:

- Reading can fail. `split()[0]` of the value after `classification:` or `confidence:`
  raises `IndexError` when that value is blank, and `analyze_image` raises with it. The
  model returns `Failure(BlankFirstWord(line))` for the first such line (`FailsIff`,
  `FirstBlankLineReported`, `BlankClassificationReply`).
- Confidence is the first word as written after the label. It is not normalised.
- `ANNOTATED_IMAGE:` is matched case-sensitively (`NoAnnotation`).
- `eyes and hands` gets four rings, in two coincident pairs, because `eye`, `eyes`, `hand`
  and `hands` are separate table entries (`EyesAndHandsFourRings`).
- The verdict is a substring test on the upper-cased word. `Uncertain` contains `AI` and
  therefore reads as AI (`NormalizeUncertain`).

## Model

| member | source | states |
|---|---|---|
| Interpreter.MimeType | detector/gemini_service.py:60-68 | The MIME type is PNG, GIF or WebP exactly when the lower-cased file name ends in `.png`, `.gif` or `.webp`, and JPEG for every other name |
| InterpreterExamples.MimeUpperCaseExtension | detector/gemini_service.py:60-62 | The extension test ignores case: `photo.PNG` is sent as `image/png` |
| InterpreterExamples.MimeJpegDefault | detector/gemini_service.py:65-68 | `.jpeg` is not one of the three tested extensions, so `scan.jpeg` takes the JPEG default |
| Interpreter.Analyze | detector/gemini_service.py:24-30 | An empty API key is exactly the `MissingApiKey` error. With a key, the result is the reading of the stripped reply: the same fields on success, with the stripped reply as full response, or the reading's error wrapped as `ReplyUnreadable` |
| Interpreter.KindOf | detector/gemini_service.py:110-118 | A line classified under a label starts with that label once lower-cased |
| Interpreter.ReadLabelledLine | detector/gemini_service.py:111-118 | A line whose lower-cased form starts with a label is read under that label. For analysis and regions its value is the stripped text after the label. For classification and confidence it raises exactly when that text is blank; otherwise its value is the first word of that text |
| Interpreter.Normalize | detector/gemini_service.py:120-126 | The verdict is AI exactly when the upper-cased word contains `AI`. It is Real exactly when the word contains `REAL` but not `AI`, and Unknown exactly when it contains neither |
| Interpreter.Interpret | detector/gemini_service.py:135-142 | A successful reading keeps the reply verbatim as the full response, and its analysis and suspicious regions are at most 300 characters long |
| Interpreter.ScanLines | detector/gemini_service.py:103-118 | The first loop, starting from the defaults, computes the reference scan of the line readings: either the error of the first raising line or the fields from the last line of each label |
| Interpreter.FindAnnotatedImage | detector/gemini_service.py:128-133 | The second loop, stopping at the first `ANNOTATED_IMAGE:` line, computes the reference annotated-image reading |
| Interpreter.ParseResponse | detector/gemini_service.py:103-142 | The whole parsing code returns exactly `Interpret` of the reply: the same error, or the same six fields |
| InterpreterLaws.RaisesIff | detector/gemini_service.py:111-114 | A line raises exactly when it is a classification or confidence line whose text after the label is blank |
| InterpreterLaws.AnnotationIff | detector/gemini_service.py:131-132 | A line starting with `ANNOTATED_IMAGE:` carries the stripped text after the prefix, and no other line carries a reference |
| InterpreterLaws.FailsIff | detector/gemini_service.py:109-114 | Reading a reply fails exactly when one of its lines is a classification or confidence line with a blank value |
| InterpreterLaws.FirstBlankLineReported | detector/gemini_service.py:109-114 | The error names the first blank classification or confidence line, since the loop stops there |
| InterpreterLaws.LastLabelWins | detector/gemini_service.py:109-118 | Each field comes from the last line carrying its label: the verdict from the first word after it, the confidence as that first word, and analysis and regions as the stripped text cut to 300 characters |
| InterpreterLaws.DefaultIsUnknown | detector/gemini_service.py:104 | The default classification `Unknown` reads as the Unknown verdict |
| InterpreterLaws.AbsentLabelDefaults | detector/gemini_service.py:104-107 | A field that no line labels keeps its default: verdict Unknown, confidence `Medium`, empty analysis and empty regions |
| InterpreterLaws.FirstAnnotationWins | detector/gemini_service.py:128-133 | The reference comes from the first line starting with `ANNOTATED_IMAGE:`, and later such lines are ignored |
| InterpreterLaws.NoAnnotation | detector/gemini_service.py:128-131 | Without a line starting with `ANNOTATED_IMAGE:`, in those exact capitals, there is no reference |
| InterpreterLaws.UnlabelledLineIgnored | detector/gemini_service.py:109-133 | Inserting a line that carries none of the five labels changes nothing but the verbatim full response: the same failure, or the same fields |
| InterpreterExamples.NormalizeReal | detector/gemini_service.py:123-124 | `Real` reads as Real |
| InterpreterExamples.NormalizeGenerated | detector/gemini_service.py:121-122 | `AI-Generated` reads as AI |
| InterpreterExamples.NormalizeUncertain | detector/gemini_service.py:121-122 | `Uncertain` contains `AI` and so reads as AI |
| InterpreterExamples.NormalizeOther | detector/gemini_service.py:125-126 | `fake` contains neither `AI` nor `REAL` and reads as Unknown |
| InterpreterExamples.ClassificationOnlyReply | detector/gemini_service.py:103-142 | The reply `CLASSIFICATION: <word>` gives the word's verdict, confidence `Medium`, empty texts, no reference and the reply as full response |
| InterpreterExamples.BlankClassificationReply | detector/gemini_service.py:111-112 | A reply whose only line is `CLASSIFICATION:` followed by blanks fails on that line |
| Overlay.Border | detector/views.py:27-34 | `n` rectangles, the `i`-th inset by `i` pixels from every edge, one pixel wide, all in one colour |
| Overlay.Radius | detector/views.py:39 | The ring radius is the larger of 20 and a tenth of the shorter side |
| Overlay.MatchesMembers | detector/views.py:54-56 | The matching entries are exactly the table entries whose keyword occurs in the text |
| Overlay.Rings | detector/views.py:57-62 | One ring per anchor, in order, the `i`-th around the `i`-th anchor |
| Overlay.Canvas.constructor | detector/views.py:20 | A fresh drawing surface holds no commands |
| Overlay.Canvas.DrawRectangle | detector/views.py:30-34 | Drawing a rectangle appends it to the recorded commands |
| Overlay.Canvas.DrawEllipse | detector/views.py:59-62 | Drawing an ellipse appends it to the recorded commands |
| Overlay.DrawBorder | detector/views.py:29-34 | The border loop appends exactly `Border(n, colour)` |
| Overlay.DrawRing | detector/views.py:57-62 | One ellipse call appends the ring of the shared radius around the anchor's point |
| Overlay.DrawKeywordRings | detector/views.py:54-63 | The keyword walk appends one ring for each of the first five matching entries, in table order, and its counter ends at their number |
| Overlay.DrawRegionRings | detector/views.py:38-71 | The rings of an AI verdict: the keyword rings, or the centred ring when no keyword matched |
| Overlay.AddAnalysisOverlay | detector/views.py:22-81 | The drawing code records exactly `Plan`: the three orange rectangles and the region rings for an AI verdict, or the two green rectangles otherwise |
| Overlay.OverlayResult | detector/views.py:90-96 | The result always starts with `data:image/png;base64,`, followed by the drawn copy's payload, or by the original's payload when drawing failed |
| OverlayLaws.RingShape | detector/views.py:57-62 | A ring is a width-3 ellipse in the ring colour, centred on (width·rx, height·ry), with a diameter of twice the radius |
| OverlayLaws.MatchesPrefix | detector/views.py:55-56 | The matches of the first `k` table entries come first among the matches of the whole table |
| OverlayLaws.MatchesNone | detector/views.py:64-65 | No entry matches exactly when none of the table's keywords occurs in the text |
| OverlayLaws.AIPlanSplit | detector/views.py:25-71 | An AI plan is the three-rectangle border followed by the region rings when rings are shown, and by nothing otherwise |
| OverlayLaws.BorderRule | detector/views.py:25-81 | An AI plan opens with the orange rectangles at insets 0, 1 and 2, and everything after them is a ring. Any other verdict draws exactly the two green rectangles at insets 0 and 1 |
| OverlayLaws.RingCount | detector/views.py:37-71 | Between one and five rings are drawn exactly when the verdict is AI and the region text is non-empty and does not mention `none`; otherwise no ring is drawn |
| OverlayLaws.KeywordRingPlaced | detector/views.py:54-63 | While fewer than five earlier entries matched, a matching entry's ring comes right after the rings of the earlier matches |
| OverlayLaws.RingsMarkMatches | detector/views.py:54-71 | Every ring marks a table entry whose keyword occurs in the lowered region text, or is the centred fallback |
| OverlayLaws.CentreOnly | detector/views.py:64-71 | With no match, the plan is the AI border and one ring centred on the image |
| OverlayLaws.FallbackRing | detector/views.py:64-71 | When no keyword of the table occurs in the region text, exactly one ring is drawn, centred on the image |
| OverlayLaws.SharedRadius | detector/views.py:39 | Every ellipse of every plan has the shared radius |
| OverlayExamples.EyesAndHandsFourRings | detector/views.py:41-63 | `eyes and hands` gets four rings: two at the eyes' anchor (0.3, 0.2) and two at the hands' anchor (0.7, 0.6) |
| OverlayExamples.NoneDetectedNoRings | detector/views.py:37 | `None detected` mentions `none` in some case and gets no ring |
| OverlayExamples.NoKeywordIn | detector/views.py:41-56 | A text without the letters e, h, b, k and m matches no table entry |
| OverlayExamples.NoKeywordCentredRing | detector/views.py:64-71 | `odd` matches no keyword and gets the single centred ring |

## Left out

- The call to the Gemini model is not modelled. The reply text is a parameter.
- The API key setting is not modelled. Only its emptiness is, through `Analyze`.
- The errors of the model call are not modelled. They propagate unchanged in the source.
- Image decoding, RGBA-to-RGB conversion, resizing to 1024 pixels and JPEG or PNG encoding
  are not modelled. These are library calls on pixels.
- Base64 encoding is not modelled. The payloads are parameters of `OverlayResult`.
- The prompt text and the model name are not modelled. They are constants passed to the
  external call.
- The Django views, forms, models and templates are not part of this model.
- The canvas records drawing commands, not pixels.
- The exception that sends `add_analysis_overlay` to its fallback is not modelled. It comes
  from the image library. `OverlayResult` takes the drawn payload as an `Option`, and
  `None` stands for that exception.
- `'suspicious_regions' in result` is not modelled. `analyze_image` always sets the key.
- Python's `lower` and `upper` are Unicode case mappings. `Text.Lower` and `Text.Upper`
  map only ASCII letters, so every case-insensitive test holds only for ASCII text.
- Ring coordinates and the radius are exact reals, not IEEE doubles. Rounding of
  `width * rx` and of `min(width, height) * 0.1` is not modelled.
- Overlay.Radius: when 20 equals a tenth of the shorter side, Python's `max` returns the
  integer 20 and the model returns 20.0. These are the same value.
- Overlay.AddAnalysisOverlay: the source's single function is split into the helper methods
  `DrawBorder`, `DrawRegionRings`, `DrawKeywordRings` and `DrawRing`. Together they draw
  the same commands in the same order.
