/**
 * The client (frontend/App.tsx): a form holding a transcript, a character description
 * and the current scene list, with handlers to analyse, expand, clear and export.
 *
 * Each handler runs as one atomic step. Its single `await` on the network is replaced
 * by a parameter giving that call's outcome, and the handler returns the request it
 * issued, if any.
 */
module Frontend {
  import opened Scenes
  import opened JsText
  import Server

  /** The status line, reduced to which message it shows. */
  datatype StatusText =
    | Welcome
    | TranscriptRequired
    | Analyzing
    | Analyzed(sceneCount: nat)
    | AnalyzeFailed(message: string)
    | ScenesRequiredToExpand
    | Expanding(requested: int)
    | Expanded(totalScenes: nat)
    | ExpandFailed(message: string)
    | Cleared
    | NothingToExport
    | Exported

  /** How an awaited service call ended: its scene list, or the message of its error. */
  datatype ServiceOutcome = Success(scenes: SceneList) | Error(message: string)

  /** A request the client sends to the proxy service. */
  datatype Request =
    | GenerateRequest(transcript: string, characterDescription: string)
    | ExpandRequest(existingScenes: SceneList, scenesToAdd: int)

  // ---------------------------------------------------------------------------
  // Derived values

  /** `scene.scene_length_seconds || 0`. */
  function SceneSeconds(scene: Scene): int {
    scene.sceneLengthSeconds.GetOr(0)
  }

  /** The `reduce` that sums scene lengths from the left, starting at 0. */
  function TotalDuration(scenes: SceneList): (total: int)
    ensures (forall i :: 0 <= i < |scenes| ==> SceneSeconds(scenes[i]) >= 0) ==> total >= 0
  {
    if scenes == [] then 0
    else TotalDuration(scenes[..|scenes| - 1]) + SceneSeconds(scenes[|scenes| - 1])
  }

  /** The total of a concatenation is the sum of the totals. */
  lemma {:induction false} TotalDurationAppend(a: SceneList, b: SceneList)
    ensures TotalDuration(a + b) == TotalDuration(a) + TotalDuration(b)
  {
    if b == [] {
      assert a + b == a;
    } else {
      assert (a + b)[..|a + b| - 1] == a + b[..|b| - 1];
      TotalDurationAppend(a, b[..|b| - 1]);
    }
  }

  /** A scene with no length contributes nothing to the total. */
  lemma {:induction false} TotalDurationIgnoresMissing(scenes: SceneList)
    requires forall i :: 0 <= i < |scenes| ==> scenes[i].sceneLengthSeconds.None?
    ensures TotalDuration(scenes) == 0
  {
    if scenes != [] {
      TotalDurationIgnoresMissing(scenes[..|scenes| - 1]);
    }
  }

  /** `Math.max(1, parseInt(input) || 1)`: NaN and 0 become 1, then at least 1. */
  function ExpandCountFrom(input: string): (n: int)
    ensures n >= 1
    ensures n == 1 || ParseInt(input) == Some(n)
    ensures ParseInt(input).Some? && ParseInt(input).value >= 1 ==> n == ParseInt(input).value
  {
    var parsed := ParseInt(input);
    var value := if parsed.Some? && parsed.value != 0 then parsed.value else 1;
    if value > 1 then value else 1
  }

  /** Typing a positive number gives that number; a negative one gives 1. */
  lemma ExpandCountOfTypedNumber(n: nat)
    ensures n >= 1 ==> ExpandCountFrom(Decimal(n)) == n
    ensures ExpandCountFrom("-" + Decimal(n)) == 1
  {
    ParseIntDecimal(n);
  }

  /** An empty or non-numeric field gives 1. */
  lemma ExpandCountOfNonNumeric(input: string)
    requires forall i :: 0 <= i < |input| ==> !('0' <= input[i] <= '9')
    ensures ExpandCountFrom(input) == 1
  {
    TrimStartSpec(input);
    var t := TrimStart(input);
    if t != [] && (t[0] == '-' || t[0] == '+') {
      assert DigitPrefix(t[1..], 10) == [] by {
        assert t[1..] == input[|input| - |t| + 1..];
        if |t| > 1 {
          assert t[1] == input[|input| - |t| + 1];
        }
      }
    } else if t != [] {
      assert DigitPrefix(t, 10) == [] by {
        assert t[0] == input[|input| - |t|];
      }
    }
  }

  // ---------------------------------------------------------------------------
  // The form state

  class App {
    var transcript: string
    var charDesc: string
    var scenes: SceneList
    var loading: bool
    var status: StatusText
    var expandCount: int

    /** The expand count field never holds less than 1. */
    ghost predicate Valid()
      reads this
    {
      expandCount >= 1
    }

    constructor ()
      ensures Valid()
      ensures transcript == [] && charDesc == [] && scenes == []
      ensures !loading && status == Welcome && expandCount == 1
    {
      transcript := [];
      charDesc := [];
      scenes := [];
      loading := false;
      status := Welcome;
      expandCount := 1;
    }

    /** handleAnalyze: replace the scene list by a freshly generated one. */
    method Analyze(outcome: ServiceOutcome) returns (sent: Option<Request>)
      requires Valid()
      modifies this
      ensures Valid()
      ensures transcript == old(transcript) && charDesc == old(charDesc) && expandCount == old(expandCount)
      ensures Trim(transcript) == [] ==>
        sent == None && status == TranscriptRequired &&
        scenes == old(scenes) && loading == old(loading)
      ensures Trim(transcript) != [] ==>
        sent == Some(GenerateRequest(transcript, charDesc)) && !loading &&
        match outcome
        case Success(result) => scenes == result && status == Analyzed(|result|)
        case Error(message) => scenes == [] && status == AnalyzeFailed(message)
    {
      if Trim(transcript) == [] {
        status := TranscriptRequired;
        return None;
      }
      loading := true;
      scenes := [];
      status := Analyzing;
      sent := Some(GenerateRequest(transcript, charDesc));
      match outcome {
        case Success(result) =>
          scenes := result;
          status := Analyzed(|result|);
        case Error(message) =>
          status := AnalyzeFailed(message);
      }
      loading := false;
    }

    /** handleExpandScript: append the newly generated scenes to the current list. */
    method Expand(outcome: ServiceOutcome) returns (sent: Option<Request>)
      requires Valid()
      modifies this
      ensures Valid()
      ensures transcript == old(transcript) && charDesc == old(charDesc) && expandCount == old(expandCount)
      ensures old(scenes) == [] ==>
        sent == None && status == ScenesRequiredToExpand &&
        scenes == old(scenes) && loading == old(loading)
      ensures old(scenes) != [] ==>
        sent == Some(ExpandRequest(old(scenes), expandCount)) && !loading &&
        match outcome
        case Success(added) =>
          scenes == old(scenes) + added && status == Expanded(|old(scenes)| + |added|) &&
          TotalDuration(scenes) == TotalDuration(old(scenes)) + TotalDuration(added)
        case Error(message) => scenes == old(scenes) && status == ExpandFailed(message)
    {
      if |scenes| == 0 {
        status := ScenesRequiredToExpand;
        return None;
      }
      loading := true;
      status := Expanding(expandCount);
      sent := Some(ExpandRequest(scenes, expandCount));
      match outcome {
        case Success(added) =>
          var combined := scenes + added;
          TotalDurationAppend(scenes, added);
          scenes := combined;
          status := Expanded(|combined|);
        case Error(message) =>
          status := ExpandFailed(message);
      }
      loading := false;
    }

    /** handleClear: empty both inputs and the scene list. */
    method Clear()
      requires Valid()
      modifies this
      ensures Valid()
      ensures transcript == [] && charDesc == [] && scenes == [] && status == Cleared
      ensures loading == old(loading) && expandCount == old(expandCount)
    {
      transcript := [];
      charDesc := [];
      scenes := [];
      status := Cleared;
    }

    /** The guard of handleJsonExport: nothing is written when there are no scenes. */
    method ExportJson() returns (exported: Option<SceneList>)
      modifies this`status
      ensures scenes == [] ==> exported == None && status == NothingToExport
      ensures scenes != [] ==> exported == Some(scenes) && status == Exported
    {
      if |scenes| == 0 {
        status := NothingToExport;
        return None;
      }
      exported := Some(scenes);
      status := Exported;
    }

    /** The expand-count field's change handler. */
    method SetExpandCount(input: string)
      modifies this`expandCount
      ensures Valid()
      ensures expandCount == ExpandCountFrom(input)
    {
      expandCount := ExpandCountFrom(input);
    }
  }

  // ---------------------------------------------------------------------------
  // The client's guards against the server's checks

  /**
   * Every generate request the client issues passes the server's check; an empty
   * description is replaced by the server's placeholder.
   */
  lemma AnalyzeRequestAccepted(transcript: string, charDesc: string,
                               provider: Server.Prompt -> Server.ProviderReply,
                               parse: string -> Server.ParseOutcome)
    requires Trim(transcript) != []
    ensures Server.Generate(Server.GenerateBody(Some(transcript), Some(charDesc)), provider, parse).sent ==
      Some(Server.GeneratePrompt(transcript, if charDesc == [] then Server.NoDescription else charDesc))
  {
  }

  /**
   * Every expand request the client issues passes the server's check, and asks for
   * numbering to continue after the id of the client's last scene.
   */
  lemma ExpandRequestAccepted(scenes: SceneList, count: int,
                              provider: Server.Prompt -> Server.ProviderReply,
                              parse: string -> Server.ParseOutcome)
    requires scenes != [] && count >= 1
    ensures Server.Expand(Server.ExpandBody(Some(scenes), Some(count)), provider, parse).sent ==
      Some(Server.ExpandPrompt(scenes, count, scenes[|scenes| - 1].sceneId + 1))
  {
  }
}
