/** The in-memory request payload that both generators build before handing it
    to the JSON serializer and the HTTP client: a `Map<String, Object>` with the
    model name, the two chat messages and the fixed sampling parameters. */
module ChatRequest {

  /** The values a payload entry holds: a String, the list of message maps, a
      Double or an Integer. */
  datatype Value =
    | Text(text: string)
    | MessageList(messages: seq<map<string, string>>)
    | Decimal(number: real)
    | Integer(count: int)

  /** What a generator call ends in: either a fixed advisory text returned
      without any request, or a payload that is serialized and posted, the
      service's reply (or the transport's error text) being returned. */
  datatype Outcome =
    | Advisory(message: string)
    | Send(payload: map<string, Value>)

  const Temperature: real := 0.1
  const TopP: real := 0.2
  const MaxTokens: int := 10000

  /** The keys a payload carries. */
  const PayloadKeys: set<string> := {"model", "messages", "temperature", "top_p", "max_tokens"}

  /** A role-tagged chat message. */
  function Message(role: string, content: string): map<string, string> {
    map["role" := role, "content" := content]
  }

  /** The payload as a value: what the `put`/`add` sequence leaves behind. */
  function Payload(model: string, systemContent: string, userContent: string): map<string, Value> {
    map[
      "model" := Text(model),
      "messages" := MessageList([Message("system", systemContent), Message("user", userContent)]),
      "temperature" := Decimal(Temperature),
      "top_p" := Decimal(TopP),
      "max_tokens" := Integer(MaxTokens)
    ]
  }

  /** Fills the message maps, the message list and the payload map in place,
      entry by entry, in the order the generators do. */
  method BuildPayload(model: string, systemContent: string, userContent: string)
    returns (payload: map<string, Value>)
    ensures payload.Keys == PayloadKeys
    ensures payload["model"] == Text(model)
    ensures payload["messages"] == MessageList([Message("system", systemContent), Message("user", userContent)])
    ensures payload["temperature"] == Decimal(0.1) && payload["top_p"] == Decimal(0.2)
    ensures payload["max_tokens"] == Integer(10000)
    ensures payload == Payload(model, systemContent, userContent)
  {
    var messages: seq<map<string, string>> := [];
    var systemMessage: map<string, string> := map[];
    systemMessage := systemMessage["role" := "system"];
    systemMessage := systemMessage["content" := systemContent];
    messages := messages + [systemMessage];

    var userMessage: map<string, string> := map[];
    userMessage := userMessage["role" := "user"];
    userMessage := userMessage["content" := userContent];
    messages := messages + [userMessage];

    payload := map[];
    payload := payload["model" := Text(model)];
    payload := payload["messages" := MessageList(messages)];
    payload := payload["temperature" := Decimal(0.1)];
    payload := payload["top_p" := Decimal(0.2)];
    payload := payload["max_tokens" := Integer(10000)];
  }

  /** The system message comes first and the user message second, and each
      carries exactly its role and its content. */
  lemma MessagesInOrder(model: string, systemContent: string, userContent: string)
    ensures var m := Payload(model, systemContent, userContent)["messages"].messages;
      && |m| == 2
      && m[0].Keys == m[1].Keys == {"role", "content"}
      && m[0]["role"] == "system" && m[0]["content"] == systemContent
      && m[1]["role"] == "user" && m[1]["content"] == userContent
  {
  }
}
