/** The chat transcript hook (src/hooks/useChat.ts): the message list, the
    loading flag, the open history session and the guest token with its
    session-storage copy.  A send is two steps: the user message and a
    loading placeholder go in, then the answer or an apology replaces the
    placeholder.  Message ids and the server's answers are parameters. */
module ChatHook {
  import opened Wrappers
  import opened Text
  import opened Types

  const WelcomeText := "Hello! I'm your FTX Legal AI assistant. I can help you analyze and understand the FTX court case documents. What would you like to know?"
  const ApologyText := "I apologize, but I encountered an error. Please try again later."
  const HistoryErrorText := "Failed to load chat history."

  /** The first message of every new transcript. */
  const Welcome := Message("1", WelcomeText, Assistant, [], false)

  /** `{ ...welcomeMessage, id: 'loading', isLoading: true }`. */
  const Placeholder := Message("loading", WelcomeText, Assistant, [], true)

  /** `{ ...welcomeMessage, id: 'error', content: "Failed to load chat history." }`. */
  const HistoryError := Message("error", HistoryErrorText, Assistant, [], false)

  /** What the chat server answers. */
  datatype ChatResponse = ChatResponse(message: string, citations: seq<Citation>, guestToken: Option<string>)

  /** A message as the history service returns it. */
  datatype StoredMessage = StoredMessage(id: string, role: Role, content: string, citations: seq<Citation>)

  // ---------------------------------------------------------------------
  // The transcript, as values
  // ---------------------------------------------------------------------

  /** `prev.slice(0, -1)`. */
  function DropLast<T>(s: seq<T>): (r: seq<T>)
    ensures s != [] ==> r == s[..|s| - 1]
    ensures s == [] ==> r == []
  {
    if s == [] then [] else s[..|s| - 1]
  }

  /** The transcript after a send begins. */
  function Begun(ms: seq<Message>, userId: string, content: string): seq<Message> {
    ms + [Message(userId, content, User, [], false), Placeholder]
  }

  /** The message that replaces the placeholder: the answer with its
      citations, or the apology without any. */
  function Answer(response: Result<ChatResponse, string>, answerId: string): (m: Message)
    ensures m.role == Assistant && !m.isLoading && m.id == answerId
    ensures response.Success? ==> m.content == response.value.message && m.citations == response.value.citations
    ensures response.Failure? ==> m.content == ApologyText && m.citations == []
  {
    match response
    case Success(r) => Message(answerId, r.message, Assistant, r.citations, false)
    case Failure(_) => Message(answerId, ApologyText, Assistant, [], false)
  }

  /** The transcript after the answer arrives: the last entry is replaced. */
  function Completed(ms: seq<Message>, answer: Message): seq<Message> {
    DropLast(ms) + [answer]
  }

  /** A whole send: the earlier messages stay as they were, and the user
      message and the answer follow them; no placeholder is left behind. */
  lemma SendAppendsExchange(ms: seq<Message>, userId: string, content: string,
                            response: Result<ChatResponse, string>, answerId: string)
    ensures var after := Completed(Begun(ms, userId, content), Answer(response, answerId));
      && after == ms + [Message(userId, content, User, [], false), Answer(response, answerId)]
      && |after| == |ms| + 2
      && after[..|ms|] == ms
      && forall i :: |ms| <= i < |after| ==> !after[i].isLoading
  {
    var begun := Begun(ms, userId, content);
    assert DropLast(begun) == ms + [Message(userId, content, User, [], false)];
  }

  /** The placeholder is the last entry of a begun send, and completing
      replaces exactly that entry. */
  lemma CompleteReplacesPlaceholder(ms: seq<Message>, userId: string, content: string, answer: Message)
    ensures Begun(ms, userId, content)[|ms| + 1] == Placeholder
    ensures var after := Completed(Begun(ms, userId, content), answer);
      |after| == |Begun(ms, userId, content)| && after[|after| - 1] == answer
      && after[..|after| - 1] == Begun(ms, userId, content)[..|after| - 1]
  {
  }

  /** `pastMessages.map(msg => ({ id, content, role, timestamp }))`: the
      stored citations are not carried over. */
  function FromHistory(stored: seq<StoredMessage>): (ms: seq<Message>)
    ensures |ms| == |stored|
    ensures forall i :: 0 <= i < |stored| ==>
      ms[i] == Message(stored[i].id, stored[i].content, stored[i].role, [], false)
  {
    seq(|stored|, i requires 0 <= i < |stored| =>
      Message(stored[i].id, stored[i].content, stored[i].role, [], false))
  }

  /** The token the request carries: the guest token in guest mode only. */
  function TokenToSend(guestMode: bool, guestToken: Option<string>): (t: Option<string>)
    ensures t.Some? ==> guestMode && t == guestToken
    ensures guestMode ==> t == guestToken
  {
    if guestMode then guestToken else None
  }

  /** The guest token after an answer: replaced only in guest mode, and only
      by a non-empty token from a successful answer. */
  function NextToken(guestMode: bool, guestToken: Option<string>, response: Result<ChatResponse, string>): Option<string> {
    if guestMode && response.Success? && response.value.guestToken.Some? && response.value.guestToken.value != [] then
      response.value.guestToken
    else guestToken
  }

  /** The token only ever changes to a non-empty one the server sent in
      guest mode. */
  lemma NextTokenChangesOnlyInGuestMode(guestMode: bool, guestToken: Option<string>, response: Result<ChatResponse, string>)
    ensures NextToken(guestMode, guestToken, response) != guestToken ==>
      && guestMode
      && response.Success?
      && NextToken(guestMode, guestToken, response) == response.value.guestToken
      && response.value.guestToken.Some? && response.value.guestToken.value != []
    ensures !guestMode ==> NextToken(guestMode, guestToken, response) == guestToken
  {
  }

  /** A token is stored when it is non-empty and removed otherwise. */
  function Stored(token: Option<string>): Option<string> {
    if token.Some? && token.value != [] then token else None
  }

  // ---------------------------------------------------------------------
  // The hook's state
  // ---------------------------------------------------------------------

  class Chat {
    var messages: seq<Message>
    var isLoading: bool
    var currentSessionId: Option<string>
    var guestToken: Option<string>
    /** The session-storage copy of the guest token. */
    var storedToken: Option<string>

    /** The guest token is never the empty string, and storage mirrors it. */
    predicate Valid()
      reads this
    {
      && (guestToken.Some? ==> guestToken.value != [])
      && storedToken == guestToken
    }

    /** The hook's initial state, with the token found in session storage. */
    constructor(tokenInStorage: Option<string>)
      ensures Valid()
      ensures messages == [Welcome] && !isLoading && currentSessionId.None?
      ensures guestToken == Stored(tokenInStorage)
    {
      messages := [Welcome];
      isLoading := false;
      currentSessionId := None;
      guestToken := Stored(tokenInStorage);
      storedToken := Stored(tokenInStorage);
    }

    /** The first step of `sendMessage`: blank content changes nothing;
        otherwise the user message and the placeholder are appended and
        the loading flag is raised.  Returns whether a request goes out. */
    method BeginSend(content: string, userId: string) returns (sending: bool)
      modifies this
      ensures sending <==> Trim(content) != []
      ensures sending ==> messages == Begun(old(messages), userId, content) && isLoading
      ensures !sending ==> messages == old(messages) && isLoading == old(isLoading)
      ensures currentSessionId == old(currentSessionId) && guestToken == old(guestToken)
      ensures storedToken == old(storedToken)
    {
      if Trim(content) == [] {
        return false;
      }
      messages := messages + [Message(userId, content, User, [], false), Placeholder];
      isLoading := true;
      sending := true;
    }

    /** The request's token for the current mode. */
    method RequestToken(guestMode: bool) returns (token: Option<string>)
      ensures token == TokenToSend(guestMode, guestToken)
    {
      token := if guestMode then guestToken else None;
    }

    /** The second step of `sendMessage`: the last entry is replaced by the
        answer or the apology, a guest token in the answer is kept in guest
        mode, and the loading flag drops. */
    method CompleteSend(response: Result<ChatResponse, string>, guestMode: bool, answerId: string)
      requires Valid()
      modifies this
      ensures Valid()
      ensures messages == Completed(old(messages), Answer(response, answerId))
      ensures !isLoading
      ensures guestToken == NextToken(guestMode, old(guestToken), response)
      ensures currentSessionId == old(currentSessionId)
    {
      var answer := Answer(response, answerId);
      messages := DropLast(messages) + [answer];
      if guestMode && response.Success? && response.value.guestToken.Some? && response.value.guestToken.value != [] {
        guestToken := response.value.guestToken;
        storedToken := guestToken;
      }
      isLoading := false;
    }

    /** `sendMessage` with the server's answer given: both steps. */
    method SendMessage(content: string, guestMode: bool, userId: string, answerId: string,
                       response: Result<ChatResponse, string>)
      requires Valid()
      modifies this
      ensures Valid()
      ensures Trim(content) == [] ==> messages == old(messages) && isLoading == old(isLoading)
      ensures Trim(content) != [] ==>
        && messages == old(messages) + [Message(userId, content, User, [], false), Answer(response, answerId)]
        && !isLoading
        && guestToken == NextToken(guestMode, old(guestToken), response)
      ensures Trim(content) == [] ==> guestToken == old(guestToken)
      ensures currentSessionId == old(currentSessionId)
    {
      var sending := BeginSend(content, userId);
      if sending {
        ghost var before := old(messages);
        CompleteSend(response, guestMode, answerId);
        SendAppendsExchange(before, userId, content, response, answerId);
      }
    }

    /** `loadMessages`: a loaded history replaces the transcript and opens
        its session; a failed load leaves only the error message and keeps
        the session. */
    method LoadMessages(sessionId: string, loaded: Result<seq<StoredMessage>, string>)
      requires Valid()
      modifies this
      ensures Valid()
      ensures loaded.Success? ==> messages == FromHistory(loaded.value) && currentSessionId == Some(sessionId)
      ensures loaded.Failure? ==> messages == [HistoryError] && currentSessionId == old(currentSessionId)
      ensures !isLoading && guestToken == old(guestToken)
    {
      isLoading := true;
      if loaded.Success? {
        messages := FromHistory(loaded.value);
        currentSessionId := Some(sessionId);
      } else {
        messages := [HistoryError];
      }
      isLoading := false;
    }

    /** `startNewChat`: the welcome message alone and no open session; the
        guest token is kept. */
    method StartNewChat()
      requires Valid()
      modifies this
      ensures Valid()
      ensures messages == [Welcome] && currentSessionId.None?
      ensures guestToken == old(guestToken) && isLoading == old(isLoading)
    {
      messages := [Welcome];
      currentSessionId := None;
    }

    /** `setCurrentSessionId`, exposed to the caller. */
    method SetCurrentSessionId(id: Option<string>)
      modifies this
      ensures currentSessionId == id
      ensures messages == old(messages) && isLoading == old(isLoading) && guestToken == old(guestToken)
      ensures storedToken == old(storedToken)
    {
      currentSessionId := id;
    }
  }
}
