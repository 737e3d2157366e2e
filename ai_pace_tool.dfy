/**
 * The AI writing assistant card (src/components/zenwrite/ai-pace-tool.tsx):
 * `handleGenericAiAction`, which refuses blank text for three of the four
 * tools, then updates the loading flag, error, dialog content and dialog in
 * sequence around the awaited action. The await splits the handler in two:
 * `Begin` runs up to it and `Resolve` runs after it, given how the action settled.
 */
module AiPaceTool {
  import opened Wrappers
  import opened Types
  import opened Text

  /** The `type` tag of each tool's dialog content. */
  datatype Tool = PaceAnalysis | BreakSuggestion | StuckActivity | ImproveWriting

  /** The title each handler passes. */
  function Title(tool: Tool): string {
    match tool
    case PaceAnalysis => "Writing Pace Analysis"
    case BreakSuggestion => "Break Point Suggestion"
    case StuckActivity => "Stuck Point Activity"
    case ImproveWriting => "Improve My Writing"
  }

  /** What an action resolves with. */
  datatype ToolOutput =
    | PaceData(pace: AnalyzeWritingPaceOutput)
    | BreakData(breakPoint: SuggestBreakPointOutput)
    | StuckData(stuck: SuggestStuckActivityOutput)
    | ImproveData(improved: ImproveWritingOutput)

  /** `AiModalContent`: the tool's tag with the data its action resolved with. */
  datatype ModalContent = ModalContent(kind: Tool, data: ToolOutput)

  /** Every tool but the stuck-point activity needs some text. */
  predicate NeedsText(tool: Tool) {
    tool == PaceAnalysis || tool == BreakSuggestion || tool == ImproveWriting
  }

  /** The early return: the trimmed text is empty and the tool needs text. */
  predicate Refused(tool: Tool, text: string) {
    Trim(text) == "" && NeedsText(tool)
  }

  function LowerChar(c: char): char {
    if 'A' <= c <= 'Z' then (c as int + 32) as char else c
  }

  /** `toLowerCase()` on text made of ASCII characters, as the four titles are. */
  function LowerAscii(s: string): (r: string)
    ensures |r| == |s|
    ensures forall i :: 0 <= i < |s| ==> r[i] == LowerChar(s[i])
  {
    if s == [] then [] else [LowerChar(s[0])] + LowerAscii(s[1..])
  }

  /** The error shown for a rejected action: an `Error`'s message, or a fixed sentence naming the tool. */
  function ErrorMessage(tool: Tool, thrown: Thrown): string {
    match thrown
    case ErrorObject(message) => message
    case OtherValue => "An unknown error occurred during " + LowerAscii(Title(tool)) + "."
  }

  class PaceTool {
    var isLoading: bool
    var modalContent: Option<ModalContent>
    var error: Option<string>
    var isDialogOpen: bool
    var currentDialogTitle: string

    constructor()
      ensures !isLoading && modalContent == None && error == None
      ensures !isDialogOpen && currentDialogTitle == ""
    {
      isLoading := false;
      modalContent := None;
      error := None;
      isDialogOpen := false;
      currentDialogTitle := "";
    }

    /**
     * The handler up to the await: a refused request changes nothing and
     * calls no action; otherwise the card shows an empty, loading dialog
     * titled for the tool, and the action is called.
     */
    method Begin(tool: Tool, text: string) returns (proceeds: bool)
      modifies this
      ensures proceeds <==> !Refused(tool, text)
      ensures !proceeds ==> (isLoading == old(isLoading) && modalContent == old(modalContent)
        && error == old(error) && isDialogOpen == old(isDialogOpen)
        && currentDialogTitle == old(currentDialogTitle))
      ensures proceeds ==> (isLoading && error == None && modalContent == None
        && currentDialogTitle == Title(tool) && isDialogOpen)
    {
      if Trim(text) == "" && (tool == PaceAnalysis || tool == BreakSuggestion || tool == ImproveWriting) {
        if tool != StuckActivity {
          return false;
        }
      }
      isLoading := true;
      error := None;
      modalContent := None;
      currentDialogTitle := Title(tool);
      isDialogOpen := true;
      proceeds := true;
    }

    /**
     * The handler after the await. A resolved action fills the dialog and
     * reports success (the caller awards XP); a rejected one sets the error
     * and reports nothing. Loading ends either way.
     */
    method Resolve(tool: Tool, outcome: Settled<ToolOutput>) returns (succeeded: bool)
      modifies this
      ensures succeeded <==> outcome.Resolved?
      ensures !isLoading
      ensures outcome.Resolved? ==> modalContent == Some(ModalContent(tool, outcome.value)) && error == old(error)
      ensures outcome.Rejected? ==> error == Some(ErrorMessage(tool, outcome.thrown)) && modalContent == old(modalContent)
      ensures isDialogOpen == old(isDialogOpen) && currentDialogTitle == old(currentDialogTitle)
    {
      match outcome {
        case Resolved(result) =>
          modalContent := Some(ModalContent(tool, result));
          succeeded := true;
        case Rejected(thrown) =>
          error := Some(ErrorMessage(tool, thrown));
          succeeded := false;
      }
      isLoading := false;
    }

    /** The dialog's Close button. */
    method CloseDialog()
      modifies this
      ensures !isDialogOpen
      ensures isLoading == old(isLoading) && modalContent == old(modalContent) && error == old(error)
      ensures currentDialogTitle == old(currentDialogTitle)
    {
      isDialogOpen := false;
    }
  }

  /**
   * One whole run of `handleGenericAiAction`. A refused request leaves the
   * card as it was and succeeds never; otherwise the dialog is open under the
   * tool's title, loading is over, and it holds either the result and no
   * error, or the error and no result.
   */
  method HandleAiAction(card: PaceTool, tool: Tool, text: string, outcome: Settled<ToolOutput>)
    returns (succeeded: bool)
    modifies card
    ensures succeeded <==> !Refused(tool, text) && outcome.Resolved?
    ensures Refused(tool, text) ==> (card.isLoading == old(card.isLoading)
      && card.modalContent == old(card.modalContent) && card.error == old(card.error)
      && card.isDialogOpen == old(card.isDialogOpen) && card.currentDialogTitle == old(card.currentDialogTitle))
    ensures !Refused(tool, text) ==> !card.isLoading && card.isDialogOpen && card.currentDialogTitle == Title(tool)
    ensures !Refused(tool, text) && outcome.Resolved? ==>
      card.modalContent == Some(ModalContent(tool, outcome.value)) && card.error == None
    ensures !Refused(tool, text) && outcome.Rejected? ==>
      card.modalContent == None && card.error == Some(ErrorMessage(tool, outcome.thrown))
  {
    var proceeds := card.Begin(tool, text);
    if proceeds {
      succeeded := card.Resolve(tool, outcome);
    } else {
      succeeded := false;
    }
  }

  /** Only blank text is refused, and never for the stuck-point activity. */
  lemma RefusedIffBlank(tool: Tool, text: string)
    ensures Refused(tool, text) <==> tool != StuckActivity && WordCount(text) == 0
  {
    BlankIffNoWords(text);
  }
}
