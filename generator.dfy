/**
 * The generator page's state and its two request handlers: generating from a
 * new prompt, which replaces the component list, and sending a follow-up,
 * which appends to it. The API call is a parameter (`Outcome`): what it
 * answered, or how it failed. Each handler is one atomic transition.
 */
module GeneratorPage {
  import opened Wrappers
  import opened Text

  datatype Component = Component(name: string, code: string)

  /** A `GenerateResponse`; `components` is `None` when the response has none. */
  datatype Response = Response(code: string, components: Option<seq<Component>>)

  /**
   * How a request ended: a response, or a thrown error (`statusCode` is
   * `None` when the error has no status code).
   */
  datatype Outcome =
    | Succeeded(response: Response)
    | Failed(message: string, statusCode: Option<int>)

  /** The page's state fields the handlers read and write. */
  datatype PageState = PageState(
    prompt: string,
    followupPrompt: string,
    generatedCode: Option<string>,
    components: seq<Component>,
    selected: int,
    conversationMode: bool,
    loading: bool,
    error: Option<string>)

  const UnexpectedError := "An unexpected error occurred"
  const FollowupError := "Failed to generate follow-up component"

  /** `onGenerate` as a transition. */
  function Generate(s: PageState, outcome: Outcome): PageState {
    if Trim(s.prompt) == [] then s
    else
      var started := s.(loading := true, conversationMode := true, error := None);
      var finished := match outcome
        case Succeeded(r) =>
          started.(generatedCode := Some(r.code), components := r.components.GetOr([]),
            selected := 0, followupPrompt := "")
        case Failed(message, statusCode) =>
          started.(conversationMode := false,
            error := Some(if statusCode.Some? then message else UnexpectedError));
      finished.(loading := false)
  }

  /** The components a successful follow-up leaves, and the index it selects. */
  function Merge(prev: seq<Component>, selected: int, r: Response): (seq<Component>, int) {
    if r.components.Some? && |r.components.value| > 0 then (prev + r.components.value, |prev|)
    else if r.code != [] then (prev + [Component("Component" + NatToString(|prev| + 1), r.code)], |prev|)
    else (prev, selected)
  }

  /** `handleSendFollowup` as a transition. */
  function Followup(s: PageState, outcome: Outcome): PageState {
    if Trim(s.followupPrompt) == [] then s
    else
      var started := s.(loading := true, error := None);
      var finished := match outcome
        case Succeeded(r) =>
          var merged := Merge(s.components, s.selected, r);
          started.(components := merged.0, selected := merged.1, followupPrompt := "")
        case Failed(_, _) =>
          started.(error := Some(FollowupError));
      finished.(loading := false)
  }

  /** The code the preview and code cards show: the selected component's, else the whole generation. */
  function DisplayCode(s: PageState): Option<string> {
    if 0 <= s.selected < |s.components| then Some(s.components[s.selected].code) else s.generatedCode
  }

  /** Generating from a blank or whitespace-only prompt changes nothing. */
  lemma BlankPromptChangesNothing(s: PageState, outcome: Outcome)
    requires Trim(s.prompt) == []
    ensures Generate(s, outcome) == s
  {
  }

  /** Sending a blank or whitespace-only follow-up changes nothing. */
  lemma BlankFollowupChangesNothing(s: PageState, outcome: Outcome)
    requires Trim(s.followupPrompt) == []
    ensures Followup(s, outcome) == s
  {
  }

  /**
   * A successful generation replaces the list with the response's
   * components (none when it has none), keeps the code, selects the first
   * component and shows its code, or the whole code when the list is empty.
   */
  lemma GenerateSucceeds(s: PageState, r: Response)
    requires Trim(s.prompt) != []
    ensures var t := Generate(s, Succeeded(r));
      && t.components == (if r.components.Some? then r.components.value else [])
      && t.generatedCode == Some(r.code)
      && t.selected == 0
      && t.conversationMode && !t.loading && t.error == None && t.followupPrompt == []
      && DisplayCode(t) == Some(if t.components != [] then t.components[0].code else r.code)
  {
  }

  /**
   * A failed generation leaves conversation mode, reports the error's
   * message (or a generic one when it has no status code), stops loading and
   * keeps the components and the code.
   */
  lemma GenerateFails(s: PageState, message: string, statusCode: Option<int>)
    requires Trim(s.prompt) != []
    ensures var t := Generate(s, Failed(message, statusCode));
      && !t.conversationMode && !t.loading
      && t.error == Some(if statusCode.Some? then message else UnexpectedError)
      && t.components == s.components && t.generatedCode == s.generatedCode && t.selected == s.selected
  {
  }

  /**
   * A follow-up that returns components appends them after the unchanged
   * list and selects the first new one, whose code is then shown.
   */
  lemma FollowupAppendsComponents(s: PageState, r: Response)
    requires Trim(s.followupPrompt) != []
    requires r.components.Some? && r.components.value != []
    ensures var t := Followup(s, Succeeded(r));
      && t.components == s.components + r.components.value
      && t.selected == |s.components|
      && DisplayCode(t) == Some(r.components.value[0].code)
      && !t.loading && t.error == None && t.conversationMode == s.conversationMode
  {
    var t := Followup(s, Succeeded(r));
    assert t.components[|s.components|] == r.components.value[0];
  }

  /**
   * A follow-up that returns only code appends one component named after
   * the new list length, holding that code, and selects it.
   */
  lemma FollowupAppendsCode(s: PageState, r: Response)
    requires Trim(s.followupPrompt) != []
    requires (r.components.None? || r.components.value == []) && r.code != []
    ensures var t := Followup(s, Succeeded(r));
      && t.components == s.components + [Component("Component" + NatToString(|s.components| + 1), r.code)]
      && t.selected == |s.components|
      && DisplayCode(t) == Some(r.code)
  {
  }

  /** A follow-up that returns neither components nor code leaves the list and the selection alone. */
  lemma FollowupWithNothing(s: PageState, r: Response)
    requires Trim(s.followupPrompt) != []
    requires (r.components.None? || r.components.value == []) && r.code == []
    ensures var t := Followup(s, Succeeded(r));
      t.components == s.components && t.selected == s.selected && !t.loading
  {
  }

  /** A failed follow-up keeps the conversation, the list and the selection, and reports the error. */
  lemma FollowupFails(s: PageState, message: string, statusCode: Option<int>)
    requires Trim(s.followupPrompt) != []
    ensures var t := Followup(s, Failed(message, statusCode));
      && t.conversationMode == s.conversationMode
      && t.components == s.components && t.selected == s.selected
      && t.error == Some(FollowupError) && !t.loading
  {
  }

  /** Follow-ups only ever add components: the old list is always a prefix of the new one. */
  lemma FollowupKeepsHistory(s: PageState, outcome: Outcome)
    ensures s.components <= Followup(s, outcome).components
  {
  }

  /** The page, as a component whose state the handlers update. */
  class Generator {
    var prompt: string
    var followupPrompt: string
    var generatedCode: Option<string>
    var components: seq<Component>
    var selected: int
    var conversationMode: bool
    var loading: bool
    var error: Option<string>

    function State(): PageState
      reads this
    {
      PageState(prompt, followupPrompt, generatedCode, components, selected, conversationMode, loading, error)
    }

    /** The page as a fresh session starts it. */
    constructor ()
      ensures State() == PageState([], [], None, [], 0, false, false, None)
    {
      prompt := [];
      followupPrompt := [];
      generatedCode := None;
      components := [];
      selected := 0;
      conversationMode := false;
      loading := false;
      error := None;
    }

    /** `onGenerate`, with the API call's outcome given. */
    method OnGenerate(outcome: Outcome)
      modifies this
      ensures State() == Generate(old(State()), outcome)
    {
      if Trim(prompt) == [] {
        return;
      }
      loading := true;
      conversationMode := true;
      error := None;
      match outcome {
        case Succeeded(r) =>
          generatedCode := Some(r.code);
          components := r.components.GetOr([]);
          selected := 0;
          followupPrompt := [];
        case Failed(message, statusCode) =>
          conversationMode := false;
          if statusCode.Some? {
            error := Some(message);
          } else {
            error := Some(UnexpectedError);
          }
      }
      loading := false;
    }

    /** `handleSendFollowup`, with the API call's outcome given. */
    method HandleSendFollowup(outcome: Outcome)
      modifies this
      ensures State() == Followup(old(State()), outcome)
    {
      if Trim(followupPrompt) == [] {
        return;
      }
      loading := true;
      error := None;
      match outcome {
        case Succeeded(r) =>
          var prev := components;
          var merged := prev;
          if r.components.Some? && |r.components.value| > 0 {
            merged := merged + r.components.value;
            selected := |prev|;
          } else if r.code != [] {
            merged := merged + [Component("Component" + NatToString(|merged| + 1), r.code)];
            selected := |prev|;
          }
          components := merged;
          followupPrompt := [];
        case Failed(_, _) =>
          error := Some(FollowupError);
      }
      loading := false;
    }
  }
}
