/**
 * The break-point flow (src/ai/flows/suggest-break-point.ts). The prompt call
 * is an abstract reply. The flow has no `catch`, so a failing call rejects the
 * flow's promise; the result is therefore a settled promise.
 */
module SuggestBreakPoint {
  import opened Wrappers
  import opened Types
  import opened Text

  const ShortTextReason: string :=
    "The text is quite short. It might be better to write a bit more before pausing."
  const NoOutputReason: string :=
    "Could not determine a suitable break point at this time. Try writing a bit more."

  /** The result for short texts, and the one for a missing model output. */
  const ShortTextResult: SuggestBreakPointOutput := SuggestBreakPointOutput(false, ShortTextReason, None)
  const NoOutputResult: SuggestBreakPointOutput := SuggestBreakPointOutput(false, NoOutputReason, None)

  /** The flow calls the model only when `text.trim().split(/\s+/)` has at least 20 elements. */
  predicate ConsultsModel(text: string) {
    |Split(Trim(text))| >= 20
  }

  /** `suggestBreakPointFlow`, given what the prompt call would give back. */
  function SuggestBreakPointFlow(text: string, reply: ModelReply<SuggestBreakPointOutput>): (r: Settled<SuggestBreakPointOutput>)
    ensures !ConsultsModel(text) ==> r == Resolved(ShortTextResult)
    ensures r.Rejected? <==> ConsultsModel(text) && reply.Throws?
    ensures r.Resolved? && r.value.isGoodBreakPoint ==> ConsultsModel(text) && reply == Output(r.value)
    ensures ConsultsModel(text) && reply.Output? ==> r == Resolved(reply.output)
    ensures ConsultsModel(text) && reply.NoOutput? ==> r == Resolved(NoOutputResult)
  {
    if !ConsultsModel(text) then Resolved(ShortTextResult)
    else match reply
      case Throws(message) => Rejected(ErrorObject(message))
      case NoOutput => Resolved(NoOutputResult)
      case Output(output) => Resolved(output)
  }

  /** The short-text answer and the missing-output answer give different reasons. */
  lemma FallbacksDiffer()
    ensures NoOutputResult != ShortTextResult
  {
    assert |NoOutputReason| != |ShortTextReason|;
  }

  /** The 20-element test is a test on the word count of the text. */
  lemma ConsultsModelIffTwentyWords(text: string)
    ensures ConsultsModel(text) <==> WordCount(text) >= 20
  {
    TrimmedFieldCount(text);
  }

  /**
   * Below 20 words the reply plays no part, the answer is "not a good break
   * point" and no action is suggested; blank text always lands here.
   */
  lemma ShortTextIgnoresModel(text: string, r1: ModelReply<SuggestBreakPointOutput>, r2: ModelReply<SuggestBreakPointOutput>)
    requires WordCount(text) < 20
    ensures SuggestBreakPointFlow(text, r1) == SuggestBreakPointFlow(text, r2)
    ensures SuggestBreakPointFlow(text, r1).Resolved?
    ensures !SuggestBreakPointFlow(text, r1).value.isGoodBreakPoint
    ensures SuggestBreakPointFlow(text, r1).value.suggestedAction.None?
  {
    ConsultsModelIffTwentyWords(text);
  }

  lemma BlankTextShortCircuits(text: string, reply: ModelReply<SuggestBreakPointOutput>)
    requires Trim(text) == ""
    ensures SuggestBreakPointFlow(text, reply) == Resolved(ShortTextResult)
  {
    BlankTextHasNoWords(text);
    ConsultsModelIffTwentyWords(text);
  }
}
