/** `mock_pdf_qa` of app/utils.py: the placeholder answering function.
    It picks an answer template from keywords of the question and names
    the file(s) it pretends to have read. */
module Answering {
  import opened Text
  import opened Records

  datatype Reply = Reply(answer: string, source: string)

  /** The three keyword branches, in the order they are tried. */
  datatype Branch = Summary | Lookup | General

  const NO_DOCUMENTS_ANSWER := "I don't have any documents to reference. Please upload some PDFs first."

  predicate AsksForSummary(lowered: string) {
    Contains(lowered, "summary") || Contains(lowered, "summarize")
  }

  predicate AsksWhatHowWhy(lowered: string) {
    Contains(lowered, "what") || Contains(lowered, "how") || Contains(lowered, "why")
  }

  /** The branch is decided on the lower-cased question, the summary
      keywords first. */
  function Classify(question: string): (b: Branch)
    ensures b == Summary <==> AsksForSummary(Lower(question))
    ensures b == Lookup <==> !AsksForSummary(Lower(question)) && AsksWhatHowWhy(Lower(question))
  {
    var q := Lower(question);
    if AsksForSummary(q) then Summary
    else if AsksWhatHowWhy(q) then Lookup
    else General
  }

  const SUMMARY_PREFIX := "Based on the uploaded document(s), here's a summary: "
    + "The documents contain information relevant to your query. "
    + "This is a mock response simulating content analysis from "
  const SUMMARY_SUFFIX := " uploaded file(s)."
  const LOOKUP_PREFIX := "According to the uploaded documents, here's what I found: "
  const LOOKUP_SUFFIX := " - " + "This is a simulated response that would typically be generated by analyzing "
    + "the PDF content using AI/LLM."
  const GENERAL_PREFIX := "I found relevant information in your documents regarding: '"
  const GENERAL_SUFFIX := "'. " + "This response is generated from the uploaded PDF content analysis simulation."
  const SOURCES_PREFIX := "Multiple sources ("
  const SOURCES_SUFFIX := " files)"

  function SummaryAnswer(fileCount: nat): string {
    SUMMARY_PREFIX + NatToString(fileCount) + SUMMARY_SUFFIX
  }

  function LookupAnswer(question: string): string {
    LOOKUP_PREFIX + question + LOOKUP_SUFFIX
  }

  function GeneralAnswer(question: string): string {
    GENERAL_PREFIX + question + GENERAL_SUFFIX
  }

  function MultipleSources(fileCount: nat): string {
    SOURCES_PREFIX + NatToString(fileCount) + SOURCES_SUFFIX
  }

  /** The answer template of a branch, for `fileCount` files: the summary
      quotes the file count, the other two quote the question. */
  function Template(b: Branch, question: string, fileCount: nat): (r: string)
    ensures b == Summary ==> Contains(r, NatToString(fileCount))
    ensures b != Summary ==> Contains(r, question)
  {
    match b
    case Summary =>
      ContainsMiddle(SUMMARY_PREFIX, NatToString(fileCount), SUMMARY_SUFFIX);
      SummaryAnswer(fileCount)
    case Lookup =>
      ContainsMiddle(LOOKUP_PREFIX, question, LOOKUP_SUFFIX);
      LookupAnswer(question)
    case General =>
      ContainsMiddle(GENERAL_PREFIX, question, GENERAL_SUFFIX);
      GeneralAnswer(question)
  }

  /** The source credited by a branch: several files together, a single
      one by name (`uploaded_files[-1]` in the lookup branch,
      `uploaded_files[0]` in the others). */
  function Credit(b: Branch, files: seq<FileMeta>): (r: string)
    requires files != []
    ensures |files| > 1 ==> r == MultipleSources(|files|)
    ensures |files| == 1 ==> r == files[0].filename
  {
    if |files| > 1 then MultipleSources(|files|)
    else if b == Lookup then files[|files| - 1].filename
    else files[0].filename
  }

  /** `mock_pdf_qa(question, uploaded_files)` without its half-second sleep. */
  function MockPdfQa(question: string, files: seq<FileMeta>): (r: Reply)
    ensures files == [] ==> r == Reply(NO_DOCUMENTS_ANSWER, "")
  {
    if files == [] then Reply(NO_DOCUMENTS_ANSWER, "")
    else
      var b := Classify(question);
      Reply(Template(b, question, |files|), Credit(b, files))
  }

  /** Whatever the branch, several files are credited together and a single
      file by its name: the first-file and last-file choices coincide. */
  lemma SourceAttribution(question: string, files: seq<FileMeta>)
    requires files != []
    ensures MockPdfQa(question, files).source ==
              if |files| > 1 then MultipleSources(|files|) else files[0].filename
  {
  }

  /** The file count quoted in a multi-file source reads back as the
      number of files. */
  lemma SourceCountReadsBack(question: string, files: seq<FileMeta>)
    requires |files| > 1
    ensures var s := MockPdfQa(question, files).source;
            && |SOURCES_PREFIX| + |SOURCES_SUFFIX| <= |s|
            && var digits := s[|SOURCES_PREFIX|..|s| - |SOURCES_SUFFIX|];
            && s == SOURCES_PREFIX + digits + SOURCES_SUFFIX
            && (forall i :: 0 <= i < |digits| ==> '0' <= digits[i] <= '9')
            && DecimalValue(digits) == |files|
  {
    var d := NatToString(|files|);
    SliceMiddle(SOURCES_PREFIX, d, SOURCES_SUFFIX);
    DecimalRoundTrip(|files|);
  }

  lemma SliceMiddle(p: string, d: string, q: string)
    ensures var s := p + d + q;
            s[..|p|] == p && s[|p|..|s| - |q|] == d && s[|s| - |q|..] == q
  {
  }

  /** The branch ignores letter case: an upper-cased question is answered
      from the same template, and credits the same source. */
  lemma CaseInsensitive(question: string, files: seq<FileMeta>)
    ensures Classify(Upper(question)) == Classify(question)
    ensures MockPdfQa(Upper(question), files).source == MockPdfQa(question, files).source
  {
    LowerOfUpper(question);
  }

  /** A summary keyword wins over the what/how/why keywords. */
  lemma SummaryTakesPrecedence(question: string, files: seq<FileMeta>)
    requires files != []
    requires Contains(Lower(question), "summarize")
    ensures MockPdfQa(question, files).answer == SummaryAnswer(|files|)
  {
  }

  /** Outside the summary branch the answer quotes the question verbatim. */
  lemma AnswerQuotesQuestion(question: string, files: seq<FileMeta>)
    requires files != [] && Classify(question) != Summary
    ensures Contains(MockPdfQa(question, files).answer, question)
  {
  }
}
