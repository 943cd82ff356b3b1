/**
 * The values exchanged between the dispatch layer of the ChatPPT server and the
 * subsystems it delegates to: conversation turns, the collaborators seen as
 * possibly-failing functions, the trace of calls made to them, and the three
 * user-facing error messages.
 */
module Interfaces {
  import opened Wrappers

  /** Whatever a collaborator raised; its details never reach the user. */
  datatype Fault = Fault(detail: string)

  /** The slide model built by the input parser; its structure belongs to the parser. */
  datatype SlideData = SlideData(payload: string)

  datatype Role = User | Assistant

  /** One entry of the chat history, the `{"role": ..., "content": ...}` dictionary. */
  datatype Turn = Turn(role: Role, content: string)

  /**
   * The collaborators. Each is an arbitrary function that may fail; the
   * process-wide singletons of the server (chat bot, formatter, assistant,
   * image advisor, layout manager, template path) are folded in here.
   */
  datatype Env = Env(
    asr: string -> Result<string, Fault>,                        // openai_whisper.asr
    extractDocx: string -> Result<string, Fault>,                // generate_markdown_from_docx
    format: string -> Result<string, Fault>,                     // ContentFormatter.format
    adjustSinglePicture: string -> Result<string, Fault>,        // ContentAssistant.adjust_single_picture
    chat: string -> Result<string, Fault>,                       // ChatBot.chat_with_history
    generateImages: string -> Result<(string, map<string, string>), Fault>,  // ImageAdvisor.generate_images
    parseInput: string -> Result<(SlideData, string), Fault>,    // parse_input_text with the layout manager
    generatePresentation: (SlideData, string, string) -> Result<(), Fault>,  // generate_presentation
    template: string                                             // config.ppt_template
  )

  /** One invocation of a collaborator, with the argument it received. */
  datatype Call =
    | Asr(path: string)
    | ExtractDocx(path: string)
    | Format(raw: string)
    | AdjustSinglePicture(markdown: string)
    | Chat(requirement: string)
    | GenerateImages(content: string)
    | ParseInput(content: string)
    | GeneratePresentation(data: SlideData, template: string, output: string)

  /** The user-facing message each handler raises as a `gr.Error`. */
  datatype UserError = NetworkRetry | NoSuitableImage | EnterTopicFirst {
    function Text(): (t: string)
      ensures t != ""
    {
      match this
      case NetworkRetry => "网络问题，请重试:)"
      case NoSuitableImage => "【提示】未找到合适配图，请重试！"
      case EnterTopicFirst => "【提示】请先输入你的主题内容或上传文件"
    }
  }

  /** The three messages tell the user apart which step failed. */
  lemma {:induction false} MessagesDistinct(a: UserError, b: UserError)
    requires a != b
    ensures a.Text() != b.Text()
  {
  }

  /** What a handler hands back to the interface, and what it asked of the collaborators. */
  datatype Handled<T> = Handled(result: Result<T, UserError>, calls: seq<Call>)
}
