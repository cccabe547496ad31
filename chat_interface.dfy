/** The advisor chat (frontend/src/components/ChatInterface.tsx): an
    append-only message log, an input field and a loading flag; every
    accepted send adds the user's message and then exactly one reply. */
module ChatInterface {
  import opened Common
  import opened Strings

  datatype Role = User | Assistant

  datatype Message = Message(role: Role, content: string)

  const CouldNotGetResponse: string := "Error: Could not get response."
  const NetworkIssue: string := "Error: Network issue."

  /** `!input.trim()` */
  predicate IsBlank(input: string) {
    Trim(input) == []
  }

  /** The assistant message appended when the request settles: the
      response text on ok, one fixed text for a failed status, another for
      a thrown error. */
  function Reply(response: Response<string>): (m: Message)
    ensures m.role == Assistant
    ensures response.Ok? ==> m.content == response.body
    ensures response.NotOk? ==> m.content == CouldNotGetResponse
    ensures response.Thrown? ==> m.content == NetworkIssue
  {
    match response
    case Ok(text) => Message(Assistant, text)
    case NotOk(_) => Message(Assistant, CouldNotGetResponse)
    case Thrown => Message(Assistant, NetworkIssue)
  }

  /** The three outcomes give three distinguishable replies, unless the
      server's own text equals one of the fixed ones. */
  lemma RepliesDistinguishOutcomes(a: Response<string>, b: Response<string>)
    requires a.Ok? ==> a.body != CouldNotGetResponse && a.body != NetworkIssue
    requires b.Ok? ==> b.body != CouldNotGetResponse && b.body != NetworkIssue
    requires Reply(a) == Reply(b)
    ensures a.Ok? <==> b.Ok?
    ensures a.Thrown? <==> b.Thrown?
  {
    assert CouldNotGetResponse[7] != NetworkIssue[7];
  }

  /** How `sendMessage` can be triggered. */
  datatype Trigger = SendButton | KeyPress(key: string)

  /** `disabled={!input.trim() || loading}` */
  predicate SendButtonDisabled(input: string, loading: bool) {
    IsBlank(input) || loading
  }

  /** Whether the trigger reaches `sendMessage`: the button only when it is
      enabled, a key press whenever the key is Enter, loading or not. */
  predicate Reaches(trigger: Trigger, input: string, loading: bool) {
    match trigger
    case SendButton => !SendButtonDisabled(input, loading)
    case KeyPress(key) => key == "Enter"
  }

  /** While a reply is pending the button cannot send, yet Enter still
      reaches `sendMessage`, which accepts any non-blank input. */
  lemma EnterBypassesLoading(input: string)
    requires !IsBlank(input)
    ensures !Reaches(SendButton, input, true)
    ensures Reaches(KeyPress("Enter"), input, true)
  {
  }

  class Chat {
    var messages: seq<Message>
    var input: string
    var loading: bool

    constructor ()
      ensures messages == [] && input == "" && !loading
    {
      messages, input, loading := [], "", false;
    }

    method SetInput(text: string)
      modifies this`input
      ensures input == text
    {
      input := text;
    }

    /** `sendMessage` up to its request: blank input changes nothing and
        sends nothing; otherwise the untrimmed input is appended as the
        user's message, the field is cleared, loading is shown, and the
        same text is the request's message. */
    method BeginSend() returns (request: Option<string>)
      modifies this`messages, this`input, this`loading
      ensures IsBlank(old(input)) ==>
        (request == None && messages == old(messages) && input == old(input) && loading == old(loading))
      ensures !IsBlank(old(input)) ==>
        (request == Some(old(input)) && messages == old(messages) + [Message(User, old(input))]
         && input == "" && loading)
    {
      if IsBlank(input) {
        return None;
      }
      var text := input;
      messages := messages + [Message(User, text)];
      input := "";
      loading := true;
      request := Some(text);
    }

    /** `sendMessage` after its request: exactly one assistant message is
        appended, and loading ends, whatever the outcome. */
    method CompleteSend(response: Response<string>)
      modifies this`messages, this`loading
      ensures messages == old(messages) + [Reply(response)]
      ensures !loading
    {
      messages := messages + [Reply(response)];
      loading := false;
    }

    /** The whole `sendMessage` handler: an accepted send appends the
        user's message and one reply and nothing else; earlier messages are
        never touched. */
    method SendMessage(response: Response<string>) returns (request: Option<string>)
      modifies this`messages, this`input, this`loading
      ensures |old(messages)| <= |messages| && messages[..|old(messages)|] == old(messages)
      ensures IsBlank(old(input)) ==>
        (request == None && messages == old(messages) && input == old(input) && loading == old(loading))
      ensures !IsBlank(old(input)) ==>
        (request == Some(old(input))
         && messages == old(messages) + [Message(User, old(input)), Reply(response)]
         && input == "" && !loading)
    {
      request := BeginSend();
      if request.Some? {
        CompleteSend(response);
      }
    }
  }
}
