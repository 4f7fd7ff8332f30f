/** The chat-message lists `generate_plan` sends to the language model:
    a short window for the extractor and the whole conversation for the
    planner, each opened by a system message and closed by the user turn. */
module ChatMessages {

  /** One `{"role": ..., "content": ...}` entry. History entries arrive with
      string content, which `str(...)` leaves as it is. */
  datatype Message = Message(role: string, content: string)

  const SystemRole: string := "system"
  const UserRole: string := "user"

  /** The extractor's fixed instructions (`analysis_messages[0]`). */
  const AnalysisPrompt: string :=
    "\n                You are a data extractor.\n"
    + "                1. If the user mentions a specific city, extract it.\n"
    + "                2. If the user says 'here', 'nearby', 'my location', or asks a generic question WITHOUT a city, set 'city' to 'CURRENT_LOCATION'.\n"
    + "                3. If referring to a previous city (e.g. 'there'), use context.\n"
    + "                \n"
    + "                Output strict JSON:\n"
    + "                {\n"
    + "                    \"city\": \"City Name OR 'CURRENT_LOCATION'\",\n"
    + "                    \"translation\": \"Translate input to opposite language.\",\n"
    + "                    \"day_offset\": 0 (Today), 1 (Tomorrow), etc.\n"
    + "                }\n"
    + "                "

  function Min(a: int, b: int): (r: int) {
    if a <= b then a else b
  }

  /** Python's `s[-n:]`: the last `n` elements, or all of `s` when it is
      shorter; `s[-0:]` is `s[0:]`, the whole of `s`. */
  function Last<T>(s: seq<T>, n: nat): (r: seq<T>)
    ensures |r| == if n == 0 then |s| else Min(n, |s|)
    ensures s == s[..|s| - |r|] + r
  {
    if n == 0 || |s| <= n then s else s[|s| - n..]
  }

  /** `analysis_messages`: the system message, then the last two history
      entries in their order, then the raw user text. */
  method BuildAnalysisMessages(history: seq<Message>, userText: string) returns (msgs: seq<Message>)
    ensures |msgs| == Min(2, |history|) + 2 && |msgs| <= 4
    ensures msgs[0] == Message(SystemRole, AnalysisPrompt)
    ensures msgs[1..|msgs| - 1] == history[|history| - Min(2, |history|)..]
    ensures msgs[|msgs| - 1] == Message(UserRole, userText)
  {
    msgs := [Message(SystemRole, AnalysisPrompt)];
    var recent := Last(history, 2);
    for i := 0 to |recent|
      invariant msgs == [Message(SystemRole, AnalysisPrompt)] + recent[..i]
    {
      msgs := msgs + [Message(recent[i].role, recent[i].content)];
    }
    assert recent[..|recent|] == recent;
    msgs := msgs + [Message(UserRole, userText)];
  }

  /** `plan_messages`: the system prompt, then every history entry in its
      order, then `"User Input: " + user_text`. */
  method BuildPlanMessages(systemPrompt: string, history: seq<Message>, userText: string) returns (msgs: seq<Message>)
    ensures |msgs| == |history| + 2
    ensures msgs[0] == Message(SystemRole, systemPrompt)
    ensures msgs[1..|msgs| - 1] == history
    ensures msgs[|msgs| - 1] == Message(UserRole, "User Input: " + userText)
  {
    msgs := [Message(SystemRole, systemPrompt)];
    for i := 0 to |history|
      invariant msgs == [Message(SystemRole, systemPrompt)] + history[..i]
    {
      msgs := msgs + [Message(history[i].role, history[i].content)];
    }
    assert history[..|history|] == history;
    msgs := msgs + [Message(UserRole, "User Input: " + userText)];
  }
}
