/**
 * The summary workflow of `Workflow.py`: a state record that the graph's nodes update
 * in place, the node that merges the OCR text into the content, the router that sends
 * a failed summary back at most three times, and the node that records the e-mail
 * outcome. The OCR tool, the summariser with its parser and the mail sender are not
 * part of this model; their results are passed in.
 */
module Workflow {
  import opened Wrappers
  import opened Text

  /** `MAX_RETRIES`. */
  const MaxRetries: int := 3

  const OcrHeading: string := "\n\n--- 이미지 추출 텍스트 ---\n"

  const EmailFailed: string := "이메일 전송 실패"

  /** A validated summary (`NoticeOutput`); such an object is always truthy. */
  datatype NoticeOutput = NoticeOutput(json: string)

  /** Where the graph goes after the quality check. */
  datatype Route = SendEmail | Summarize | End

  /** `full_content`: the notice text, followed by the OCR text under a heading when there
      is OCR text at all. */
  function FullContent(original: string, ocr: Option<string>): (r: string)
    ensures StartsWith(r, original)
    ensures r == original <==> ocr.None? || ocr.value == ""
    ensures ocr.Some? && ocr.value != "" ==>
      |r| == |original| + |OcrHeading| + |ocr.value| && r[|original| + |OcrHeading|..] == ocr.value
  {
    if ocr.Some? && ocr.value != "" then original + OcrHeading + ocr.value else original
  }

  /** The quality check: the route it picks and the retry count it leaves behind. A
      summary goes to the mail node; a missing one is retried while fewer than three
      retries were made, each retry counted once, and the workflow ends otherwise. The
      count never passes three when it starts at three or less. */
  function Checked(count: Option<int>, summary: Option<NoticeOutput>): (r: (Route, int))
    ensures r.0 == SendEmail <==> summary.Some?
    ensures r.0 == Summarize <==> summary.None? && count.GetOr(0) < MaxRetries
    ensures r.1 == count.GetOr(0) + (if r.0 == Summarize then 1 else 0)
    ensures count.GetOr(0) <= MaxRetries ==> r.1 <= MaxRetries
  {
    var c := count.GetOr(0);
    if summary.Some? then (SendEmail, c)
    else if c < MaxRetries then (Summarize, c + 1)
    else (End, c)
  }

  /** The status the mail node records: the sender's answer, or the failure text when
      there is no summary to send. */
  function EmailStatus(summary: Option<NoticeOutput>, recipient: string,
                       sender: (NoticeOutput, string) -> string): (r: string)
    ensures summary.None? ==> r == EmailFailed
    ensures summary.Some? ==> r == sender(summary.value, recipient)
  {
    match summary
    case None => EmailFailed
    case Some(s) => sender(s, recipient)
  }

  /** `WorkflowState`: keys the graph has not written yet are `None`. */
  class State {
    var originalContent: string
    var recipientEmail: string
    var imagePath: Option<string>
    var ocrContent: Option<string>
    var fullContent: Option<string>
    var retryCount: Option<int>
    var jsonSummary: Option<NoticeOutput>
    var emailStatus: Option<string>

    /** The graph's input: the notice text, the recipient and the image path. */
    constructor(original: string, recipient: string, image: Option<string>)
      ensures originalContent == original && recipientEmail == recipient && imagePath == image
      ensures ocrContent.None? && fullContent.None? && retryCount.None?
      ensures jsonSummary.None? && emailStatus.None?
    {
      originalContent := original;
      recipientEmail := recipient;
      imagePath := image;
      ocrContent := None;
      fullContent := None;
      retryCount := None;
      jsonSummary := None;
      emailStatus := None;
    }

    /** `run_ocr`: records the OCR tool's text for the image path, `None` included. */
    method RunOcr(ocr: Option<string> -> Option<string>)
      modifies this
      ensures ocrContent == ocr(imagePath)
      ensures originalContent == old(originalContent) && recipientEmail == old(recipientEmail)
      ensures imagePath == old(imagePath) && fullContent == old(fullContent)
      ensures retryCount == old(retryCount) && jsonSummary == old(jsonSummary) && emailStatus == old(emailStatus)
    {
      ocrContent := ocr(imagePath);
    }

    /** `prepare_content`. */
    method PrepareContent()
      modifies this
      ensures fullContent == Some(FullContent(originalContent, ocrContent))
      ensures originalContent == old(originalContent) && recipientEmail == old(recipientEmail)
      ensures imagePath == old(imagePath) && ocrContent == old(ocrContent)
      ensures retryCount == old(retryCount) && jsonSummary == old(jsonSummary) && emailStatus == old(emailStatus)
    {
      var text := originalContent;
      if ocrContent.Some? && ocrContent.value != "" {
        text := text + OcrHeading + ocrContent.value;
      }
      fullContent := Some(text);
    }

    /** `summarize_and_validate`: stores what the summariser and the parser produced. */
    method SummarizeAndValidate(validated: Option<NoticeOutput>)
      modifies this
      ensures jsonSummary == validated
      ensures originalContent == old(originalContent) && recipientEmail == old(recipientEmail)
      ensures imagePath == old(imagePath) && ocrContent == old(ocrContent) && fullContent == old(fullContent)
      ensures retryCount == old(retryCount) && emailStatus == old(emailStatus)
    {
      jsonSummary := validated;
    }

    /** `check_summary_quality`: the route, with the retry count set up and counted. */
    method CheckSummaryQuality() returns (next: Route)
      modifies this
      ensures (next, retryCount) == (Checked(old(retryCount), jsonSummary).0, Some(Checked(old(retryCount), jsonSummary).1))
      ensures originalContent == old(originalContent) && recipientEmail == old(recipientEmail)
      ensures imagePath == old(imagePath) && ocrContent == old(ocrContent) && fullContent == old(fullContent)
      ensures jsonSummary == old(jsonSummary) && emailStatus == old(emailStatus)
    {
      if retryCount.None? {
        retryCount := Some(0);
      }
      if jsonSummary.Some? {
        next := SendEmail;
      } else if retryCount.value < MaxRetries {
        retryCount := Some(retryCount.value + 1);
        next := Summarize;
      } else {
        next := End;
      }
    }

    /** `send_email`. */
    method SendEmailNode(sender: (NoticeOutput, string) -> string)
      modifies this
      ensures emailStatus == Some(EmailStatus(jsonSummary, recipientEmail, sender))
      ensures originalContent == old(originalContent) && recipientEmail == old(recipientEmail)
      ensures imagePath == old(imagePath) && ocrContent == old(ocrContent) && fullContent == old(fullContent)
      ensures retryCount == old(retryCount) && jsonSummary == old(jsonSummary)
    {
      var summaryObj := jsonSummary;
      if summaryObj.Some? {
        emailStatus := Some(sender(summaryObj.value, recipientEmail));
      } else {
        emailStatus := Some(EmailFailed);
      }
    }

    /**
     * The `summarize` node and the quality check, run until the check leaves the loop.
     * `attempt(k)` is what the summariser and the parser give on the k-th run. The loop
     * stops at the first good summary, or after the first run plus three retries.
     */
    method SummarizeLoop(attempt: nat -> Option<NoticeOutput>) returns (runs: nat, next: Route)
      modifies this
      ensures next != Summarize && runs >= 1
      ensures next == SendEmail <==> jsonSummary.Some?
      ensures jsonSummary == attempt(runs - 1)
      ensures forall k :: 0 <= k < runs - 1 ==> attempt(k).None?
      ensures retryCount == Some(old(retryCount).GetOr(0) + runs - 1)
      ensures old(retryCount).GetOr(0) <= MaxRetries ==> runs <= MaxRetries - old(retryCount).GetOr(0) + 1
      ensures next == End ==> old(retryCount).GetOr(0) + runs - 1 >= MaxRetries
      ensures originalContent == old(originalContent) && recipientEmail == old(recipientEmail) && emailStatus == old(emailStatus)
    {
      var c0 := retryCount.GetOr(0);
      SummarizeAndValidate(attempt(0));
      runs := 1;
      next := CheckSummaryQuality();
      while next == Summarize
        invariant runs >= 1 && retryCount == Some(c0 + runs - (if next == Summarize then 0 else 1))
        invariant next == Summarize ==> jsonSummary.None? && retryCount.value <= MaxRetries
        invariant next == SendEmail <==> jsonSummary.Some?
        invariant jsonSummary == attempt(runs - 1)
        invariant forall k :: 0 <= k < runs - 1 ==> attempt(k).None?
        invariant c0 <= MaxRetries ==> runs <= MaxRetries - c0 + 1
        invariant next == End ==> c0 + runs - 1 >= MaxRetries
        invariant originalContent == old(originalContent) && recipientEmail == old(recipientEmail) && emailStatus == old(emailStatus)
        decreases if next == Summarize then MaxRetries + 1 - retryCount.value else 0
      {
        SummarizeAndValidate(attempt(runs));
        runs := runs + 1;
        next := CheckSummaryQuality();
      }
    }
  }
}
