/**
 * `handle_image_generate`: hand the latest chat content to the image advisor
 * and append its illustrated version to the history, in place.
 */
module Session {
  import opened Wrappers
  import opened Interfaces

  /** The outcome of one image step: what the handler returns and the history it leaves. */
  datatype ImageStep = ImageStep(handled: Handled<seq<Turn>>, history: seq<Turn>)

  /**
   * The image step as a function of the history it finds. An empty history has
   * no last turn (`history[-1]` raises), so the advisor is not asked; otherwise
   * the advisor gets the last turn's content, and only when it succeeds is one
   * assistant turn appended, the whole list being returned.
   */
  function ImageGenerate(env: Env, history: seq<Turn>): (s: ImageStep)
    ensures s.handled.result.Ok? <==>
      history != [] && env.generateImages(history[|history| - 1].content).Ok?
    ensures s.handled.result.Ok? ==> s.handled.result.value == s.history
    ensures s.handled.result.Err? ==> s.handled.result.error == NoSuitableImage && s.history == history
  {
    if history == [] then ImageStep(Handled(Err(NoSuitableImage), []), history)
    else
      var content := history[|history| - 1].content;
      match env.generateImages(content)
      case Err(_) => ImageStep(Handled(Err(NoSuitableImage), [GenerateImages(content)]), history)
      case Ok(advised) =>
        var updated := history + [Turn(Assistant, advised.0)];
        ImageStep(Handled(Ok(updated), [GenerateImages(content)]), updated)
  }

  /**
   * On success the history is one turn longer: every earlier turn is as it was,
   * and the new last turn is the assistant's, holding the advisor's content for
   * the old last turn; the advisor was asked once, about that turn.
   */
  lemma {:induction false} AppendsOneTurn(env: Env, history: seq<Turn>)
    requires ImageGenerate(env, history).handled.result.Ok?
    ensures var after := ImageGenerate(env, history).history;
      && |after| == |history| + 1
      && after[..|history|] == history
      && after[|history|] == Turn(Assistant, env.generateImages(history[|history| - 1].content).value.0)
      && ImageGenerate(env, history).handled.calls == [GenerateImages(history[|history| - 1].content)]
  {
  }

  /**
   * On failure the history is untouched and the message is the image one; an
   * empty history never reaches the advisor, a non-empty one asks it exactly once.
   */
  lemma {:induction false} UnchangedOnFailure(env: Env, history: seq<Turn>)
    requires ImageGenerate(env, history).handled.result.Err?
    ensures var s := ImageGenerate(env, history);
      && s.history == history
      && s.handled.result == Err(NoSuitableImage)
      && (history == [] <==> s.handled.calls == [])
      && (history != [] ==> s.handled.calls == [GenerateImages(history[|history| - 1].content)])
  {
  }

  /** Only the last turn's content matters: histories ending alike get the same new turn and the same calls. */
  lemma {:induction false} ImageUsesLastTurnOnly(env: Env, h1: seq<Turn>, h2: seq<Turn>)
    requires h1 != [] && h2 != [] && h1[|h1| - 1].content == h2[|h2| - 1].content
    ensures ImageGenerate(env, h1).handled.calls == ImageGenerate(env, h2).handled.calls
    ensures ImageGenerate(env, h1).handled.result.Ok? == ImageGenerate(env, h2).handled.result.Ok?
    ensures ImageGenerate(env, h1).handled.result.Ok? ==>
      ImageGenerate(env, h1).history[|h1|] == ImageGenerate(env, h2).history[|h2|]
  {
    if ImageGenerate(env, h1).handled.result.Ok? {
      AppendsOneTurn(env, h1);
      AppendsOneTurn(env, h2);
    }
  }

  /** The chat history the interface keeps, a list the image step appends to in place. */
  class History {
    var turns: seq<Turn>

    constructor(initial: seq<Turn>)
      ensures turns == initial
    {
      turns := initial;
    }

    /** `handle_image_generate(history)`: changes the history as `ImageGenerate` says and nothing else. */
    method HandleImageGenerate(env: Env) returns (r: Result<seq<Turn>, UserError>, calls: seq<Call>)
      modifies this
      ensures ImageStep(Handled(r, calls), turns) == ImageGenerate(env, old(turns))
    {
      calls := [];
      if |turns| == 0 {
        // history[-1] raises IndexError
        return Err(NoSuitableImage), calls;
      }
      var slidesContent := turns[|turns| - 1].content;
      var advised := env.generateImages(slidesContent);
      calls := calls + [GenerateImages(slidesContent)];
      if advised.Err? {
        return Err(NoSuitableImage), calls;
      }
      var (contentWithImages, imagePair) := advised.value;
      var newMessage := Turn(Assistant, contentWithImages);
      turns := turns + [newMessage];
      return Ok(turns), calls;
    }
  }
}
