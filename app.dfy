/** The application shell (src/App.tsx): the user mode, the guest query
    counter with its session-storage copy, the chat settings with their
    local-storage copy, and the chat hook it drives.  Storage is modelled as
    plain fields; the stored settings are kept as the parsed object, or as
    text that does not parse. */
module AppShell {
  import opened Wrappers
  import opened Types
  import opened Text
  import opened ChatHook

  const GuestQueryLimit: nat := 7

  datatype Mode = LoggedOut | Guest | Admin

  /** The authentication events the listener distinguishes. */
  datatype AuthEvent = SignedIn | SignedOut | OtherEvent(name: string)

  datatype Settings = Settings(
    model: string,
    temperature: real,
    maxTokens: int,
    knowledgeBase: string,
    maxSources: int,
    systemPrompt: string,
    contextWindow: int)

  const DefaultSettings := Settings(
    "claude-3-opus-20240229", 0.7, 1000, "ftx_documents", 4,
    "You are a helpful AI assistant specializing in legal document analysis.", 4000)

  /** A parsed settings object: each field may be present or not. */
  datatype SettingsPatch = SettingsPatch(
    model: Option<string>,
    temperature: Option<real>,
    maxTokens: Option<int>,
    knowledgeBase: Option<string>,
    maxSources: Option<int>,
    systemPrompt: Option<string>,
    contextWindow: Option<int>)

  /** What local storage holds under the settings key. */
  datatype SavedSettings = SavedObject(patch: SettingsPatch) | Unparsable

  // ---------------------------------------------------------------------
  // Pure rules
  // ---------------------------------------------------------------------

  /** `{ ...defaults, ...parsed }`: every present field wins. */
  function Merge(defaults: Settings, p: SettingsPatch): (s: Settings)
    ensures p.model.Some? ==> s.model == p.model.value
    ensures p.model.None? ==> s.model == defaults.model
    ensures p.systemPrompt.Some? ==> s.systemPrompt == p.systemPrompt.value
    ensures p.temperature.Some? ==> s.temperature == p.temperature.value
    ensures p.temperature.None? ==> s.temperature == defaults.temperature
    ensures p.maxTokens.Some? ==> s.maxTokens == p.maxTokens.value
    ensures p.maxTokens.None? ==> s.maxTokens == defaults.maxTokens
    ensures p.knowledgeBase.Some? ==> s.knowledgeBase == p.knowledgeBase.value
    ensures p.knowledgeBase.None? ==> s.knowledgeBase == defaults.knowledgeBase
    ensures p.maxSources.Some? ==> s.maxSources == p.maxSources.value
    ensures p.maxSources.None? ==> s.maxSources == defaults.maxSources
    ensures p.systemPrompt.None? ==> s.systemPrompt == defaults.systemPrompt
    ensures p.contextWindow.Some? ==> s.contextWindow == p.contextWindow.value
    ensures p.contextWindow.None? ==> s.contextWindow == defaults.contextWindow
  {
    Settings(
      p.model.GetOr(defaults.model),
      p.temperature.GetOr(defaults.temperature),
      p.maxTokens.GetOr(defaults.maxTokens),
      p.knowledgeBase.GetOr(defaults.knowledgeBase),
      p.maxSources.GetOr(defaults.maxSources),
      p.systemPrompt.GetOr(defaults.systemPrompt),
      p.contextWindow.GetOr(defaults.contextWindow))
  }

  /** `JSON.stringify(settings)`, read back: every field present. */
  function Saved(s: Settings): SettingsPatch {
    SettingsPatch(Some(s.model), Some(s.temperature), Some(s.maxTokens), Some(s.knowledgeBase),
                  Some(s.maxSources), Some(s.systemPrompt), Some(s.contextWindow))
  }

  const EmptyPatch := SettingsPatch(None, None, None, None, None, None, None)

  /** Saved settings come back unchanged whatever the defaults; an empty
      object gives the defaults; merging twice is merging once. */
  lemma MergeLaws(defaults: Settings, s: Settings, p: SettingsPatch)
    ensures Merge(defaults, Saved(s)) == s
    ensures Merge(defaults, EmptyPatch) == defaults
    ensures Merge(Merge(defaults, p), p) == Merge(defaults, p)
  {
  }

  /** The settings after the load effect: saved settings override the
      defaults field by field; text that does not parse changes nothing. */
  function LoadedSettings(current: Settings, saved: Option<SavedSettings>): Settings {
    match saved
    case None => current
    case Some(Unparsable) => current
    case Some(SavedObject(p)) => Merge(DefaultSettings, p)
  }

  /** What a send does to the guest counter: the new count and whether the
      message goes out. */
  function GuestSend(mode: Mode, count: int): (r: (int, bool))
    ensures mode == Guest && count >= GuestQueryLimit ==> r == (count, false)
    ensures mode == Guest && count < GuestQueryLimit ==> r == (count + 1, true)
    ensures mode != Guest ==> r == (count, true)
  {
    if mode == Guest && count >= GuestQueryLimit then (count, false)
    else if mode == Guest then (count + 1, true)
    else (count, true)
  }

  /** The counter never passes the limit: a count at most the limit stays at
      most the limit, whatever the number of sends, and a guest at the
      limit sends nothing more. */
  lemma {:induction false} GuestCountBounded(mode: Mode, count: int, sends: nat)
    requires count <= GuestQueryLimit
    ensures CountAfter(mode, count, sends) <= GuestQueryLimit
    ensures mode == Guest && count >= 0 ==> CountAfter(mode, count, sends) == Min(GuestQueryLimit, count + sends)
    ensures mode != Guest ==> CountAfter(mode, count, sends) == count
  {
    if sends > 0 {
      GuestCountBounded(mode, count, sends - 1);
    }
  }

  /** The counter after `sends` sends in one mode. */
  function CountAfter(mode: Mode, count: int, sends: nat): int {
    if sends == 0 then count else GuestSend(mode, CountAfter(mode, count, sends - 1)).0
  }

  /** `isGuestQueryLimitReached`. */
  predicate LimitReached(mode: Mode, count: int) {
    mode == Guest && count >= GuestQueryLimit
  }

  /** A send goes out exactly when the limit is not reached. */
  lemma SendAllowedIffBelowLimit(mode: Mode, count: int)
    ensures GuestSend(mode, count).1 <==> !LimitReached(mode, count)
  {
  }

  // ---------------------------------------------------------------------
  // The component's state
  // ---------------------------------------------------------------------

  class App {
    var mode: Mode
    var queryCount: int
    /** Session storage under `queryCount`. */
    var storedCount: Option<int>
    var settings: Settings
    /** Local storage under `chatSettings`. */
    var savedSettings: Option<SavedSettings>
    const chat: Chat

    predicate Valid()
      reads this, chat
    {
      chat.Valid()
    }

    /** The first render: logged out, no queries, default settings. */
    constructor(tokenInStorage: Option<string>, countInStorage: Option<int>, settingsInStorage: Option<SavedSettings>)
      ensures Valid() && fresh(chat)
      ensures mode == LoggedOut && queryCount == 0 && settings == DefaultSettings
      ensures storedCount == countInStorage && savedSettings == settingsInStorage
      ensures chat.messages == [Welcome] && !chat.isLoading && chat.currentSessionId.None?
      ensures chat.guestToken == Stored(tokenInStorage)
    {
      mode := LoggedOut;
      queryCount := 0;
      storedCount := countInStorage;
      settings := DefaultSettings;
      savedSettings := settingsInStorage;
      chat := new Chat(tokenInStorage);
    }

    /** The mount effect on the session found at start: a session makes the
        user an admin; no session leaves the mode alone. */
    method RestoreSession(hasSession: bool)
      modifies this
      ensures mode == (if hasSession then Admin else old(mode))
      ensures queryCount == old(queryCount) && storedCount == old(storedCount)
      ensures settings == old(settings) && savedSettings == old(savedSettings)
    {
      if hasSession {
        mode := Admin;
      }
    }

    /** The auth listener: signing in makes an admin, signing out logs out
        and starts a new chat, other events change nothing. */
    method OnAuthEvent(event: AuthEvent)
      requires Valid()
      modifies this, chat
      ensures Valid()
      ensures event == SignedIn ==> mode == Admin
      ensures event == SignedOut ==> mode == LoggedOut
      ensures event.OtherEvent? ==> mode == old(mode)
      ensures event == SignedOut ==> chat.messages == [Welcome] && chat.currentSessionId.None?
      ensures event != SignedOut ==> chat.messages == old(chat.messages) && chat.currentSessionId == old(chat.currentSessionId)
      ensures queryCount == old(queryCount) && storedCount == old(storedCount)
      ensures settings == old(settings) && savedSettings == old(savedSettings)
      ensures chat.guestToken == old(chat.guestToken) && chat.isLoading == old(chat.isLoading)
    {
      match event
      case SignedIn =>
        mode := Admin;
      case SignedOut =>
        mode := LoggedOut;
        chat.StartNewChat();
      case OtherEvent(_) =>
    }

    /** The login page's guest button, with the effect that runs when the
        mode becomes guest: the counter is read back from session storage,
        zero when absent. */
    method EnterGuestMode()
      modifies this
      ensures mode == Guest
      ensures old(mode) != Guest ==> queryCount == storedCount.GetOr(0)
      ensures old(mode) == Guest ==> queryCount == old(queryCount)
      ensures storedCount == old(storedCount) && settings == old(settings)
      ensures savedSettings == old(savedSettings)
    {
      if mode != Guest {
        mode := Guest;
        queryCount := storedCount.GetOr(0);
      }
    }

    /** `handleSendMessage`: a guest at the limit sends nothing; a guest
        below it spends one query, stored before the send; an admin's send
        leaves the counter alone.  `response` is the server's answer. */
    method HandleSendMessage(message: string, userId: string, answerId: string,
                             response: Result<ChatResponse, string>) returns (sent: bool)
      requires Valid()
      modifies this, chat
      ensures Valid()
      ensures queryCount == GuestSend(old(mode), old(queryCount)).0
      ensures sent == GuestSend(old(mode), old(queryCount)).1
      ensures mode == old(mode) && settings == old(settings)
      ensures old(mode) == Guest && sent ==> storedCount == Some(queryCount)
      ensures !(old(mode) == Guest && sent) ==> storedCount == old(storedCount)
      ensures savedSettings == old(savedSettings)
      ensures !(sent && Trim(message) != []) ==>
        chat.messages == old(chat.messages) && chat.isLoading == old(chat.isLoading)
      ensures sent && Trim(message) != [] ==>
        && chat.messages == old(chat.messages) + [Message(userId, message, User, [], false), Answer(response, answerId)]
        && !chat.isLoading
      ensures chat.guestToken ==
        if sent && Trim(message) != [] then NextToken(old(mode) == Guest, old(chat.guestToken), response)
        else old(chat.guestToken)
      ensures chat.currentSessionId == old(chat.currentSessionId)
    {
      var guest := mode == Guest;
      if guest && queryCount >= GuestQueryLimit {
        sent := false;
      } else {
        if guest {
          var newCount := queryCount + 1;
          queryCount := newCount;
          storedCount := Some(newCount);
        }
        chat.SendMessage(message, guest, userId, answerId, response);
        sent := true;
      }
    }

    /** `handleGuestLogout`: logged out, counter cleared in state and
        storage, and a new chat. */
    method GuestLogout()
      requires Valid()
      modifies this, chat
      ensures Valid()
      ensures mode == LoggedOut && queryCount == 0 && storedCount.None?
      ensures chat.messages == [Welcome] && chat.currentSessionId.None?
      ensures chat.guestToken == old(chat.guestToken) && chat.isLoading == old(chat.isLoading)
      ensures settings == old(settings) && savedSettings == old(savedSettings)
    {
      mode := LoggedOut;
      queryCount := 0;
      storedCount := None;
      chat.StartNewChat();
    }

    /** The settings load effect. */
    method LoadSettings()
      modifies this
      ensures settings == LoadedSettings(old(settings), savedSettings)
      ensures savedSettings == old(savedSettings) && mode == old(mode) && queryCount == old(queryCount)
      ensures storedCount == old(storedCount)
    {
      match savedSettings
      case None =>
      case Some(Unparsable) =>
      case Some(SavedObject(p)) =>
        settings := Merge(DefaultSettings, p);
    }

    /** `handleSettingsChange`: the new settings, stored as they are. */
    method HandleSettingsChange(newSettings: Settings)
      modifies this
      ensures settings == newSettings && savedSettings == Some(SavedObject(Saved(newSettings)))
      ensures mode == old(mode) && queryCount == old(queryCount) && storedCount == old(storedCount)
    {
      settings := newSettings;
      savedSettings := Some(SavedObject(Saved(newSettings)));
    }
  }

  /** Settings saved and loaded again are the settings saved. */
  lemma SaveThenLoad(current: Settings, s: Settings)
    ensures LoadedSettings(current, Some(SavedObject(Saved(s)))) == s
  {
    MergeLaws(DefaultSettings, s, EmptyPatch);
  }
}
