/**
 * The improve-writing flow (src/ai/flows/improve-writing-flow.ts). The prompt
 * call is an abstract reply; everything the flow does with that reply is
 * modelled. The result type is a plain output, not a settled promise: the
 * flow catches every failure of the call and returns a fallback instead.
 */
module ImproveWriting {
  import opened Wrappers
  import opened Types

  const NoOutputImprovedText: string :=
    "Error: Could not improve text at this time. The AI model did not provide a valid response."
  const NoOutputSuggestion: string :=
    "The AI model encountered an issue or the text was too short/complex to process effectively at this moment. Please try again later or with a different piece of text."
  const FailureImprovedText: string :=
    "Apologies, I couldn't process the improvement request right now. There might have been a connection issue or an internal error."
  const FailureSuggestion: string :=
    "Please check your internet connection and try again. If the problem persists, the AI service might be temporarily unavailable."

  /**
   * `improveWritingFlow`: the model's output with `originalText` replaced by the
   * caller's text; a fixed fallback when the model gives no output, and another
   * when the call throws.
   */
  function ImproveWritingFlow(text: string, reply: ModelReply<ImproveWritingOutput>): (r: ImproveWritingOutput)
    ensures r.originalText == text
    ensures reply.Output? ==>
      r.improvedText == reply.output.improvedText && r.suggestions == reply.output.suggestions
    ensures !reply.Output? ==> r.suggestions.Some? && |r.suggestions.value| == 1
  {
    match reply
    case Output(output) => output.(originalText := text)
    case NoOutput =>
      ImproveWritingOutput(text, NoOutputImprovedText, Some([NoOutputSuggestion]))
    case Throws(_) =>
      ImproveWritingOutput(text, FailureImprovedText, Some([FailureSuggestion]))
  }

  /**
   * The two fallbacks can be told apart, and the exception's message plays
   * no part in the second.
   */
  lemma FallbacksDistinct(text: string, m1: string, m2: string)
    ensures ImproveWritingFlow(text, NoOutput) != ImproveWritingFlow(text, Throws(m1))
    ensures ImproveWritingFlow(text, Throws(m1)) == ImproveWritingFlow(text, Throws(m2))
  {
    assert |NoOutputImprovedText| != |FailureImprovedText|;
  }

  /** Whatever the model claims as the original text is discarded. */
  lemma ModelOriginalIgnored(text: string, o1: ImproveWritingOutput, o2: ImproveWritingOutput)
    requires o1.improvedText == o2.improvedText && o1.suggestions == o2.suggestions
    ensures ImproveWritingFlow(text, Output(o1)) == ImproveWritingFlow(text, Output(o2))
  {
  }
}
