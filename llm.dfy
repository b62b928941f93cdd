/**
 * The LLM clients: the response record, the message list `generate` sends,
 * the error results that replace every failure, the fail-open query
 * rewording, and the process-wide client instance.  The network exchange
 * itself is an input: `Exchange` is what the provider answered, or the
 * exception the call raised.
 */
module Llm {
  import opened Wrappers
  import opened Strings

  /** `LLMResponse(content, error, meta)`; a missing `meta` becomes an empty dictionary. */
  datatype LlmResponse = LlmResponse(content: string, error: Option<string>, meta: map<string, string>)

  function Response(content: string, error: Option<string> := None): (r: LlmResponse)
    ensures r.content == content && r.error == error && r.meta == map[]
  {
    LlmResponse(content, error, map[])
  }

  datatype Message = Message(role: string, content: string)

  /** The `messages` list of `generate`: the system prompt, when truthy, then the user prompt. */
  function Messages(prompt: string, systemPrompt: Option<string>): (ms: seq<Message>)
    ensures |ms| >= 1 && ms[|ms| - 1] == Message("user", prompt)
    ensures |ms| == 2 <==> Truthy(systemPrompt)
    ensures |ms| <= 2
    ensures |ms| == 2 ==> ms[0] == Message("system", systemPrompt.value)
  {
    var system := if Truthy(systemPrompt) then [Message("system", systemPrompt.value)] else [];
    system + [Message("user", prompt)]
  }

  /**
   * What the provider did with a request: answered with an HTTP status, a
   * body and the text at `choices[0].message.content` ("" when absent), or
   * raised.  The Groq SDK raises on an error status, so an `Answered` given
   * to the Groq client is a successful call.
   */
  datatype Exchange = Answered(status: int, body: string, content: string) | Raised(message: string)

  /**
   * The two clients, as the state their constructors leave: whether the
   * Groq SDK client was created, and the Sanctuary API key.
   */
  datatype Client = Groq(initialized: bool) | Sanctuary(apiKey: Option<string>)

  /** `GroqClient()`: the SDK client exists only if the key is set and its construction did not raise. */
  function NewGroq(apiKey: Option<string>, sdkRaises: bool): (c: Client)
    ensures c.Groq? && (c.initialized <==> Truthy(apiKey) && !sdkRaises)
  {
    Groq(Truthy(apiKey) && !sdkRaises)
  }

  /** The outcome of `generate`: the messages sent, if a request was made, and the response. */
  datatype Generated = Generated(sent: Option<seq<Message>>, response: LlmResponse)

  const GroqNotInitialized := "Groq Client not initialized (Missing API Key?)"
  const SanctuaryKeyMissing := "Sanctuary API Key missing"
  const EmptyResponse := "Empty response from provider"

  /** `generate(prompt, system_prompt)` of either client, given the provider's answer. */
  function Generate(client: Client, prompt: string, systemPrompt: Option<string>, ex: Exchange): Generated {
    match client
    case Groq(initialized) =>
      if !initialized then Generated(None, Response("", Some(GroqNotInitialized)))
      else
        var sent := Some(Messages(prompt, systemPrompt));
        (match ex
         case Raised(m) => Generated(sent, Response("", Some(m)))
         case Answered(_, _, content) => Generated(sent, Response(content)))
    case Sanctuary(apiKey) =>
      if !Truthy(apiKey) then Generated(None, Response("", Some(SanctuaryKeyMissing)))
      else
        var sent := Some(Messages(prompt, systemPrompt));
        match ex
        case Raised(m) => Generated(sent, Response("", Some(m)))
        case Answered(status, body, content) =>
          if status != 200 then Generated(sent, Response("", Some("Status " + IntToString(status) + ": " + body)))
          else if content == "" then Generated(sent, Response("", Some(EmptyResponse)))
          else Generated(sent, Response(content))
  }

  /**
   * `generate` never raises: every failure is a response with empty
   * content and an error, and a request, when one is made, ends with the
   * user prompt.  A Groq call succeeds exactly when its client exists and
   * the SDK returned; a Sanctuary call exactly when the key is set and the
   * provider answered 200 with non-empty content.
   */
  lemma GenerateFailsSoft(client: Client, prompt: string, systemPrompt: Option<string>, ex: Exchange)
    ensures var g := Generate(client, prompt, systemPrompt, ex);
            && (g.response.error.Some? ==> g.response.content == "")
            && (g.sent.Some? ==> g.sent.value[|g.sent.value| - 1] == Message("user", prompt))
            && (g.sent.Some? <==> (if client.Groq? then client.initialized else Truthy(client.apiKey)))
            && (client.Groq? ==> (g.response.error.None? <==> client.initialized && ex.Answered?))
            && (client.Sanctuary? ==>
                  (g.response.error.None? <==> Truthy(client.apiKey) && ex.Answered? && ex.status == 200 && ex.content != ""))
  {
  }

  /**
   * The process-wide client of `get_llm_client`: created on the first call,
   * Groq when the provider setting is "groq" and Sanctuary otherwise.
   */
  class LlmRegistry {
    var instance: Option<Client>

    constructor()
      ensures instance == None
    {
      instance := None;
    }

    method GetLlmClient(provider: string, groqKey: Option<string>, groqSdkRaises: bool, sanctuaryKey: Option<string>)
      returns (c: Client)
      modifies this
      ensures old(instance).Some? ==> c == old(instance).value && instance == old(instance)
      ensures old(instance).None? ==> instance == Some(c)
      ensures old(instance).None? ==> (c.Groq? <==> provider == "groq")
      ensures old(instance).None? && c.Groq? ==> c == NewGroq(groqKey, groqSdkRaises)
      ensures old(instance).None? && c.Sanctuary? ==> c.apiKey == sanctuaryKey
    {
      if instance.None? {
        if provider == "groq" {
          instance := Some(NewGroq(groqKey, groqSdkRaises));
        } else {
          instance := Some(Sanctuary(sanctuaryKey));
        }
      }
      c := instance.value;
    }
  }

  // ---------------------------------------------------------- query rewording

  const MaxRewordChars := 2000

  const RewordSystemPrompt :=
    "You are a Query Optimization Expert for a RAG system. "
    + "Your goal is to rewrite the user's raw query into a precise, semantically dense search query.\n"
    + "1. Remove conversational filler (e.g., 'I was wondering if you could tell me...').\n"
    + "2. Resolve ambiguous references if possible.\n"
    + "3. Focus on entities, specific terminology, and relationships.\n"
    + "4. Do NOT answer the question. Output ONLY the rewritten query text."

  /** A query over 2000 characters is cut to its first 2000. */
  function CutQuery(query: string): (q: string)
    ensures |q| == if |query| > MaxRewordChars then MaxRewordChars else |query|
    ensures q == query[..|q|]
  {
    if |query| > MaxRewordChars then query[..MaxRewordChars] else query
  }

  /** What `reword_query` asked `generate` (prompt and system prompt), if anything, and what it returned. */
  datatype Reworded = Reworded(asked: Option<(string, string)>, result: string)

  /**
   * `reword_query(q)`, given what `generate` answers if it is called: blank
   * input gives "" without a call; over-long input is cut to 2000
   * characters; a failed or empty answer gives back the (cut) query; else
   * the answer stripped, with its double quotes removed.
   */
  function RewordQuery(query: string, answer: LlmResponse): (r: Reworded)
    ensures IsBlank(query) ==> r == Reworded(None, "")
    ensures !IsBlank(query) ==> r.asked.Some? && r.asked.value.1 == RewordSystemPrompt
    ensures !IsBlank(query) ==> |r.asked.value.0| == if |query| > MaxRewordChars then MaxRewordChars else |query|
    ensures !IsBlank(query) ==> r.asked.value.0 == query[..|r.asked.value.0|]
    ensures !IsBlank(query) && (Truthy(answer.error) || answer.content == "") ==> r.result == r.asked.value.0
    ensures !IsBlank(query) && !Truthy(answer.error) && answer.content != "" ==> r.result == Without(Strip(answer.content), '"')
  {
    if query == "" || IsBlank(query) then Reworded(None, "")
    else
      var q := CutQuery(query);
      var asked := Some((q, RewordSystemPrompt));
      if Truthy(answer.error) || answer.content == "" then Reworded(asked, q)
      else
        ReplaceCharByNothing(Strip(answer.content), '"');
        Reworded(asked, Replace(Strip(answer.content), "\"", ""))
  }

  /**
   * Rewording is fail-open: whatever the client answers, the result is the
   * query itself (cut to 2000 characters) or a text free of double quotes;
   * and a client that fails gives back the query unchanged when it is short.
   */
  lemma RewordFailsOpen(client: Client, query: string, ex: Exchange)
    requires !IsBlank(query)
    ensures var g := Generate(client, CutQuery(query), Some(RewordSystemPrompt), ex);
            var r := RewordQuery(query, g.response);
            && r.asked == Some((CutQuery(query), RewordSystemPrompt))
            && (r.result == CutQuery(query) || forall i :: 0 <= i < |r.result| ==> r.result[i] != '"')
            && (g.response.error.Some? ==> r.result == CutQuery(query))
            && (|query| <= MaxRewordChars ==> CutQuery(query) == query)
  {
    GenerateFailsSoft(client, CutQuery(query), Some(RewordSystemPrompt), ex);
  }
}
