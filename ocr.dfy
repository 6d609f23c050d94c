/** Math-aware OCR: the math-content heuristic, the order in which the engines
    are tried and the shape of the result records. The image loader and the two
    OCR engines are parameters. */
module Ocr {
  import opened Text
  import Ingest

  // ---------------------------------------------------------------------------
  // Math-content heuristic
  // ---------------------------------------------------------------------------

  /** The substrings whose presence marks text as mathematical. */
  const MathIndicators: seq<string> := [
    "=", "+", "-", "×", "÷", "∫", "∑", "√", "^",
    "sin", "cos", "tan", "log", "ln",
    "\\frac", "\\int", "\\sum", "\\sqrt",
    "\\(", "\\)", "\\[", "\\]"]

  /** Some indicator of `indicators` occurs in `t`. */
  function AnyIndicator(t: string, indicators: seq<string>): (b: bool)
    ensures b <==> exists k :: 0 <= k < |indicators| && Contains(t, indicators[k])
  {
    if |indicators| == 0 then false
    else Contains(t, indicators[0]) || AnyIndicator(t, indicators[1..])
  }

  /** Whether `text`, lower-cased, contains any math indicator. */
  function DetectMathContent(text: string): bool {
    AnyIndicator(Lower(text), MathIndicators)
  }

  predicate NoUpper(s: string) {
    forall i :: 0 <= i < |s| ==> !('A' <= s[i] <= 'Z')
  }

  lemma NoUpperFixed(s: string)
    requires NoUpper(s)
    ensures Lower(s) == s
  {
  }

  lemma IndicatorsLowerCase(k: nat)
    requires k < |MathIndicators|
    ensures NoUpper(MathIndicators[k]) && |MathIndicators[k]| > 0
  {
  }

  /** Empty text is never mathematical. */
  lemma EmptyTextIsNotMath()
    ensures !DetectMathContent("")
  {
    forall k | 0 <= k < |MathIndicators|
      ensures !Contains(Lower(""), MathIndicators[k])
    {
      IndicatorsLowerCase(k);
    }
  }

  /** Text containing any indicator is mathematical. */
  lemma IndicatorIsMath(text: string, k: nat)
    requires k < |MathIndicators| && Contains(text, MathIndicators[k])
    ensures DetectMathContent(text)
  {
    IndicatorsLowerCase(k);
    NoUpperFixed(MathIndicators[k]);
    LowerKeepsContains(text, MathIndicators[k]);
  }

  /** The heuristic sees only the lower-cased text, so upper-case function names
      count: "SIN" is mathematical. */
  lemma DetectIgnoresCase(text: string)
    ensures DetectMathContent(Lower(text)) == DetectMathContent(text)
    ensures DetectMathContent("SIN")
  {
    LowerIdempotent(text);
    assert Lower("SIN") == "sin";
    assert Contains(Lower("SIN"), MathIndicators[9]);
  }

  /** Any text containing mathematical text is mathematical. */
  lemma DetectMonotone(s: string, t: string)
    requires Contains(t, s) && DetectMathContent(s)
    ensures DetectMathContent(t)
  {
    var k :| 0 <= k < |MathIndicators| && Contains(Lower(s), MathIndicators[k]);
    LowerKeepsContains(t, s);
    ContainsTransitive(Lower(t), Lower(s), MathIndicators[k]);
  }

  // ---------------------------------------------------------------------------
  // Engines and results
  // ---------------------------------------------------------------------------

  /** The outside world of one image path: whether it opens (the message when it
      does not), the LaTeX recogniser, and the text recogniser's text and its
      averaged word confidence (Err when the engine raises). */
  datatype Engines = Engines(
    openError: string -> Option<string>,
    pix2tex: string -> Result<string>,
    tesseractText: string -> Result<string>,
    tesseractConfidence: string -> Result<real>)

  /** The OCR engine: whether LaTeX recognition is in use, and its engines. */
  datatype MathOcr = MathOcr(usePix2tex: bool, engines: Engines)

  /** LaTeX recognition is used only when requested, installed and successfully
      initialised. */
  function NewMathOcr(usePix2tex: bool, installed: bool, initSucceeds: bool, engines: Engines): (ocr: MathOcr)
    ensures ocr.usePix2tex <==> usePix2tex && installed && initSucceeds
    ensures ocr.engines == engines
  {
    var use := usePix2tex && installed;
    MathOcr(use && initSucceeds, engines)
  }

  /** One OCR result record; `sourceFile` and `error` are set only by the batch. */
  datatype OcrResult = OcrResult(
    text: string, latex: string, ocrMethod: string, confidence: real,
    sourceFile: Option<string>, error: Option<string>)

  const Pix2tex := "pix2tex"
  const Pytesseract := "pytesseract"
  const Failed := "failed"
  const FailedText := "[OCR failed]"
  /** The fixed confidence reported for a LaTeX recognition. */
  const Pix2texConfidence: real := 0.9

  const EmptyResult := OcrResult("", "", "", 0.0, None, None)

  /** Whether the LaTeX recogniser is tried, and succeeds, for `path`. */
  predicate LatexRecognised(ocr: MathOcr, path: string, detectMath: bool) {
    detectMath && ocr.usePix2tex && ocr.engines.pix2tex(path).Ok?
  }

  /** What OCR of one image yields: Err when the image does not open; otherwise
      the LaTeX recogniser's answer when it is asked and succeeds, else the text
      recogniser's, else the failure record. */
  function OcrOutcome(ocr: MathOcr, path: string, detectMath: bool): Result<OcrResult> {
    var e := ocr.engines;
    match e.openError(path)
    case Some(msg) => Err(msg)
    case None =>
      if LatexRecognised(ocr, path, detectMath) then
        var latex := e.pix2tex(path).value;
        Ok(OcrResult(latex, latex, Pix2tex, Pix2texConfidence, None, None))
      else if e.tesseractText(path).Ok? && e.tesseractConfidence(path).Ok? then
        Ok(OcrResult(Strip(e.tesseractText(path).value), "", Pytesseract,
                     e.tesseractConfidence(path).value, None, None))
      else
        Ok(OcrResult(FailedText, "", Failed, 0.0, None, None))
  }

  /** OCR of one image, filling the result record field by field. */
  method OcrImage(ocr: MathOcr, path: string, detectMath: bool) returns (r: Result<OcrResult>)
    ensures r == OcrOutcome(ocr, path, detectMath)
  {
    var e := ocr.engines;
    var failure := e.openError(path);
    if failure.Some? {
      return Err(failure.value);
    }
    var result := EmptyResult;
    if detectMath && ocr.usePix2tex {
      var latex := e.pix2tex(path);
      if latex.Ok? {
        result := result.(latex := latex.value);
        result := result.(text := latex.value);
        result := result.(ocrMethod := Pix2tex);
        result := result.(confidence := Pix2texConfidence);
        return Ok(result);
      }
    }
    var text := e.tesseractText(path);
    if text.Ok? {
      result := result.(text := Strip(text.value));
      result := result.(ocrMethod := Pytesseract);
      var confidence := e.tesseractConfidence(path);
      if confidence.Ok? {
        result := result.(confidence := confidence.value);
        return Ok(result);
      }
    }
    result := result.(text := FailedText);
    result := result.(ocrMethod := Failed);
    result := result.(confidence := 0.0);
    return Ok(result);
  }

  /** The LaTeX recogniser is consulted only when math detection is requested and
      it is in use: otherwise its answers do not matter. */
  lemma Pix2texOnlyWhenAsked(ocr: MathOcr, path: string, detectMath: bool, other: string -> Result<string>)
    requires !(detectMath && ocr.usePix2tex)
    ensures OcrOutcome(ocr, path, detectMath) ==
            OcrOutcome(ocr.(engines := ocr.engines.(pix2tex := other)), path, detectMath)
  {
  }

  /** Every record names one of three methods: a LaTeX recognition exactly when
      the recogniser was asked and succeeded, with the LaTeX as its text; the
      failure record exactly when the text recogniser then raised; and LaTeX is
      empty unless it was recognised. */
  lemma OcrOutcomeSpec(ocr: MathOcr, path: string, detectMath: bool)
    ensures OcrOutcome(ocr, path, detectMath).Err? <==> ocr.engines.openError(path).Some?
    ensures OcrOutcome(ocr, path, detectMath).Ok? ==>
      var r := OcrOutcome(ocr, path, detectMath).value;
      var e := ocr.engines;
      (r.ocrMethod == Pix2tex || r.ocrMethod == Pytesseract || r.ocrMethod == Failed) &&
      (r.ocrMethod == Pix2tex <==> LatexRecognised(ocr, path, detectMath)) &&
      (r.ocrMethod == Pix2tex ==> r.text == r.latex == e.pix2tex(path).value && r.confidence == Pix2texConfidence) &&
      (r.ocrMethod == Failed <==>
        (!LatexRecognised(ocr, path, detectMath) &&
         (e.tesseractText(path).Err? || e.tesseractConfidence(path).Err?))) &&
      (r.ocrMethod == Failed ==> r.text == FailedText && r.confidence == 0.0) &&
      (r.ocrMethod == Pytesseract ==> r.text == Strip(e.tesseractText(path).value)) &&
      (r.ocrMethod != Pix2tex ==> r.latex == "") &&
      r.sourceFile.None? && r.error.None?
  {
  }

  // ---------------------------------------------------------------------------
  // Batch
  // ---------------------------------------------------------------------------

  /** The record for one path of a batch: the OCR result tagged with the base
      name, or a failure record carrying the error when the image did not open. */
  function BatchEntry(ocr: MathOcr, path: string, detectMath: bool): OcrResult {
    match OcrOutcome(ocr, path, detectMath)
    case Ok(r) => r.(sourceFile := Some(Ingest.Basename(path)))
    case Err(msg) => OcrResult("", "", Failed, 0.0, Some(Ingest.Basename(path)), Some(msg))
  }

  function BatchResults(ocr: MathOcr, paths: seq<string>, detectMath: bool): (rs: seq<OcrResult>)
    ensures |rs| == |paths|
  {
    seq(|paths|, i requires 0 <= i < |paths| => BatchEntry(ocr, paths[i], detectMath))
  }

  lemma BatchResultsSnoc(ocr: MathOcr, paths: seq<string>, i: nat, detectMath: bool)
    requires i < |paths|
    ensures BatchResults(ocr, paths[..i + 1], detectMath) ==
            BatchResults(ocr, paths[..i], detectMath) + [BatchEntry(ocr, paths[i], detectMath)]
  {
  }

  /** OCR of every path in order. */
  method BatchOcr(ocr: MathOcr, paths: seq<string>, detectMath: bool) returns (results: seq<OcrResult>)
    ensures results == BatchResults(ocr, paths, detectMath)
  {
    results := [];
    for i := 0 to |paths|
      invariant results == BatchResults(ocr, paths[..i], detectMath)
    {
      var imagePath := paths[i];
      var r := OcrImage(ocr, imagePath, detectMath);
      var entry;
      if r.Ok? {
        entry := r.value.(sourceFile := Some(Ingest.Basename(imagePath)));
      } else {
        entry := OcrResult("", "", Failed, 0.0, Some(Ingest.Basename(imagePath)), Some(r.error));
      }
      assert entry == BatchEntry(ocr, imagePath, detectMath);
      BatchResultsSnoc(ocr, paths, i, detectMath);
      results := results + [entry];
    }
    assert paths[..|paths|] == paths;
  }

  /** One record per path, in order, each tagged with the path's base name; a
      path whose image does not open gets the empty failure record with its error,
      every other path its OCR result. */
  lemma BatchResultsSpec(ocr: MathOcr, paths: seq<string>, detectMath: bool)
    ensures |BatchResults(ocr, paths, detectMath)| == |paths|
    ensures forall i :: 0 <= i < |paths| ==>
      var r := BatchResults(ocr, paths, detectMath)[i];
      var o := OcrOutcome(ocr, paths[i], detectMath);
      r.sourceFile == Some(Ingest.Basename(paths[i])) &&
      (o.Err? ==> r == OcrResult("", "", Failed, 0.0, r.sourceFile, Some(o.error))) &&
      (o.Ok? ==> r.text == o.value.text && r.latex == o.value.latex && r.ocrMethod == o.value.ocrMethod &&
                 r.confidence == o.value.confidence && r.error.None?)
  {
    forall i | 0 <= i < |paths|
      ensures var r := BatchResults(ocr, paths, detectMath)[i];
        var o := OcrOutcome(ocr, paths[i], detectMath);
        o.Ok? ==> r.error.None?
    {
      OcrOutcomeSpec(ocr, paths[i], detectMath);
    }
  }
}
