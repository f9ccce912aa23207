/**
 * `SummaryContent.py`: `GeminiSummarizer.summarize` on one text, and
 * `run_summarizer_with_ocr`, which appends the OCR text before summarising. Whether the
 * model was set up, the model's answer to the prompt built from the text, and the JSON
 * parser are passed in.
 */
module SummaryContent {
  import opened Wrappers
  import opened Text
  import opened JsonSpan

  const OcrHeading: string := "\n\n--- 이미지에서 추출된 텍스트 ---\n"

  /** `summarize(content)`: the fixed message when there is no model, otherwise what the
      span extraction makes of the model's answer for this content. */
  function Summarize(hasModel: bool, content: string, llm: string -> Option<string>,
                     isJson: string -> bool): (r: Answer)
    ensures !hasModel ==> r == Returned(NoModel)
    ensures hasModel ==> (r == Raises <==> llm(content).None?)
    ensures hasModel && llm(content).Some? ==>
      var reply := llm(content).value;
      r == (if Span(reply).Some? && isJson(Span(reply).value) then Returned(Span(reply).value) else Returned(Failed))
  {
    if !hasModel then Returned(NoModel) else FromReply(llm(content), isJson)
  }

  /** The text that is summarised: the main text, followed by the OCR text under a heading
      unless the OCR text is empty or only whitespace. */
  function FullText(main: string, ocr: string): (r: string)
    ensures StartsWith(r, main)
    ensures r == main <==> IsBlank(ocr)
    ensures !IsBlank(ocr) ==>
      |r| == |main| + |OcrHeading| + |ocr| && r[|main|..|main| + |OcrHeading|] == OcrHeading
      && r[|main| + |OcrHeading|..] == ocr
  {
    if ocr != [] && !IsBlank(ocr) then main + OcrHeading + ocr else main
  }

  /** `run_summarizer_with_ocr`: a blank OCR text leaves the main text as it is. */
  function RunSummarizerWithOcr(hasModel: bool, main: string, ocr: string,
                                llm: string -> Option<string>, isJson: string -> bool): (r: Answer)
    ensures IsBlank(ocr) ==> r == Summarize(hasModel, main, llm, isJson)
    ensures !IsBlank(ocr) ==> r == Summarize(hasModel, main + OcrHeading + ocr, llm, isJson)
  {
    Summarize(hasModel, FullText(main, ocr), llm, isJson)
  }
}
