/**
 * `handle_generate`: parse the latest chat content into slide data and a
 * title, and write the presentation under `outputs/`, named after the title.
 */
module Render {
  import opened Wrappers
  import opened Interfaces

  const OutputDirectory: string := "outputs/"
  const OutputSuffix: string := ".pptx"

  /** `f"outputs/{title}.pptx"`. */
  function OutputPath(title: string): (p: string)
    ensures |p| == |OutputDirectory| + |title| + |OutputSuffix|
    ensures p[..|OutputDirectory|] == OutputDirectory
    ensures p[|OutputDirectory|..|p| - |OutputSuffix|] == title
    ensures p[|p| - |OutputSuffix|..] == OutputSuffix
  {
    OutputDirectory + title + OutputSuffix
  }

  /** The title an output path was made from, if it has the output layout. */
  function TitleOf(path: string): Option<string> {
    if |path| >= |OutputDirectory| + |OutputSuffix|
       && path[..|OutputDirectory|] == OutputDirectory
       && path[|path| - |OutputSuffix|..] == OutputSuffix
    then Some(path[|OutputDirectory|..|path| - |OutputSuffix|])
    else None
  }

  /** The title can be read back from the path. */
  lemma {:induction false} TitleOfOutputPath(title: string)
    ensures TitleOf(OutputPath(title)) == Some(title)
  {
  }

  /** Every path with the output layout is the path of the title read back from it. */
  lemma {:induction false} OutputPathOfTitle(path: string)
    requires TitleOf(path).Some?
    ensures OutputPath(TitleOf(path).value) == path
  {
    var d, t, x := OutputDirectory, TitleOf(path).value, OutputSuffix;
    assert path == path[..|d|] + path[|d|..|path| - |x|] + path[|path| - |x|..];
  }

  /** Distinct titles give distinct files. */
  lemma {:induction false} OutputPathInjective(t1: string, t2: string)
    requires OutputPath(t1) == OutputPath(t2)
    ensures t1 == t2
  {
    TitleOfOutputPath(t1);
    TitleOfOutputPath(t2);
  }

  /**
   * `handle_generate(history)`: the last turn's content goes to the parser;
   * the slide data it yields is written with the configured template to the
   * path made from its title, and that path is the reply. An empty history,
   * a parser fault and a writer fault all give the same message.
   */
  function HandleGenerate(env: Env, history: seq<Turn>): (h: Handled<string>)
    ensures h.result.Err? ==> h.result.error == EnterTopicFirst
    ensures history == [] ==> h.calls == []
    ensures history != [] && env.parseInput(history[|history| - 1].content).Err? ==>
      h.calls == [ParseInput(history[|history| - 1].content)]
    ensures history != [] && env.parseInput(history[|history| - 1].content).Ok? ==>
      var (data, title) := env.parseInput(history[|history| - 1].content).value;
      h.calls == [ParseInput(history[|history| - 1].content), GeneratePresentation(data, env.template, OutputPath(title))]
    ensures h.result.Ok? ==>
      && history != []
      && env.parseInput(history[|history| - 1].content).Ok?
      && var (data, title) := env.parseInput(history[|history| - 1].content).value;
      && h.result.value == OutputPath(title)
      && h.calls == [ParseInput(history[|history| - 1].content), GeneratePresentation(data, env.template, h.result.value)]
  {
    if history == [] then Handled(Err(EnterTopicFirst), [])
    else
      var slidesContent := history[|history| - 1].content;
      match env.parseInput(slidesContent)
      case Err(_) => Handled(Err(EnterTopicFirst), [ParseInput(slidesContent)])
      case Ok((powerpointData, presentationTitle)) =>
        var outputPptx := OutputPath(presentationTitle);
        var written := env.generatePresentation(powerpointData, env.template, outputPptx);
        Handled(if written.Ok? then Ok(outputPptx) else Err(EnterTopicFirst),
                [ParseInput(slidesContent), GeneratePresentation(powerpointData, env.template, outputPptx)])
  }

  /** The render step succeeds exactly when there is a last turn and both the parser and the writer succeed. */
  lemma {:induction false} RenderSucceeds(env: Env, history: seq<Turn>)
    ensures HandleGenerate(env, history).result.Ok? <==>
      && history != []
      && env.parseInput(history[|history| - 1].content).Ok?
      && var (data, title) := env.parseInput(history[|history| - 1].content).value;
      env.generatePresentation(data, env.template, OutputPath(title)).Ok?
  {
  }

  /** Only the last turn's content matters: histories ending alike render alike. */
  lemma {:induction false} RenderUsesLastTurnOnly(env: Env, h1: seq<Turn>, h2: seq<Turn>)
    requires h1 != [] && h2 != [] && h1[|h1| - 1].content == h2[|h2| - 1].content
    ensures HandleGenerate(env, h1) == HandleGenerate(env, h2)
  {
  }
}
