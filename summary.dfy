/**
 * `Summary.py`: `GeminiSummarizer.summarize(title, ocr_text, content)`, which puts the
 * OCR text before the notice text and extracts the JSON object from the model's answer
 * like the single-text summariser. Whether the model was set up, the model's answer to
 * the prompt built from the title and the combined text, and the JSON parser are
 * passed in.
 */
module Summary {
  import opened Wrappers
  import opened Text
  import opened JsonSpan

  /** `f"{ocr_text}\n\n{content}"`: both texts, in that order, a blank line between. */
  function InputContent(ocr: string, content: string): (r: string)
    ensures |r| == |ocr| + 2 + |content|
    ensures r[..|ocr|] == ocr && r[|ocr|..|ocr| + 2] == "\n\n" && r[|ocr| + 2..] == content
  {
    ocr + "\n\n" + content
  }

  /** `summarize(title, ocr_text, content)`. */
  function Summarize(hasModel: bool, title: string, ocr: string, content: string,
                     llm: (string, string) -> Option<string>, isJson: string -> bool): (r: Answer)
    ensures !hasModel ==> r == Returned(NoModel)
    ensures hasModel ==> (r == Raises <==> llm(title, InputContent(ocr, content)).None?)
    ensures hasModel && llm(title, InputContent(ocr, content)).Some? ==>
      var reply := llm(title, InputContent(ocr, content)).value;
      r == (if Span(reply).Some? && isJson(Span(reply).value) then Returned(Span(reply).value) else Returned(Failed))
  {
    if !hasModel then Returned(NoModel) else FromReply(llm(title, InputContent(ocr, content)), isJson)
  }
}
