/** The natural-language-to-SQL step: the prompt built from the question and
    the schema, the request sent to the hosted model, the lazily created
    client, and the clean-up of the model's reply. */
module Llm {
  import opened Common
  import opened Frames

  const ModelName := "llama-3.1-8b-instant"
  const SystemMessage := "Output only a raw SQL SELECT query. No explanation, no markdown, no backticks."
  const Temperature: real := 0.1
  const MaxTokens: nat := 300
  const PlaceholderKey := "your-groq-api-key-here"
  const KeyMissingMessage := "GROQ_API_KEY is not set. Please add your Groq API key to python-service/.env"
  const ApiErrorPrefix := "Groq API error: "

  /** One chat-completion request: model, system message, user message,
      temperature and token cap. */
  datatype ChatRequest = ChatRequest(model: string, system: string, user: string, temperature: real, maxTokens: nat)

  // ---------------------------------------------------------------------
  // The prompt
  // ---------------------------------------------------------------------

  /** `f"{col} ({dtype})"` */
  function ColumnEntry(col: string, dtype: string): string {
    col + " (" + dtype + ")"
  }

  function SchemaEntries(schema: Dict<string, string>): (r: seq<string>)
    ensures |r| == |schema|
    ensures forall i :: 0 <= i < |r| ==> r[i] == ColumnEntry(schema[i].0, schema[i].1)
  {
    seq(|schema|, i requires 0 <= i < |schema| => ColumnEntry(schema[i].0, schema[i].1))
  }

  /** The schema line: the entries in dictionary order, comma separated. */
  function SchemaString(schema: Dict<string, string>): string {
    Join(", ", SchemaEntries(schema))
  }

  const PromptHead := "Table: data\nColumns: "
  const PromptRules := "\n\nRules: SELECT only. SQLite syntax. Use exact column names. Use AS for aliases.\n\nQuestion: "
  const PromptTail := "\n\nSQL:"

  /** The user message: table name, schema line, rules, question. Sample rows
      are not part of it. */
  function Prompt(question: string, schema: Dict<string, string>): string {
    PromptHead + SchemaString(schema) + PromptRules + question + PromptTail
  }

  /** The request `nl_to_sql` sends for a question. */
  function RequestFor(question: string, schema: Dict<string, string>): ChatRequest {
    ChatRequest(ModelName, SystemMessage, Prompt(question, schema), Temperature, MaxTokens)
  }

  /** Each part of a join occurs in it, at an offset the lemma returns. */
  lemma {:induction false} JoinHasPart(sep: string, parts: seq<string>, i: nat) returns (off: nat)
    requires i < |parts|
    ensures off + |parts[i]| <= |Join(sep, parts)|
    ensures Join(sep, parts)[off..off + |parts[i]|] == parts[i]
    decreases |parts|
  {
    if |parts| == 1 {
      off := 0;
    } else {
      var init := parts[..|parts| - 1];
      var head := Join(sep, init);
      assert Join(sep, parts) == head + sep + parts[|parts| - 1];
      if i == |parts| - 1 {
        off := |head| + |sep|;
      } else {
        assert parts[i] == init[i];
        off := JoinHasPart(sep, init, i);
        assert (head + sep + parts[|parts| - 1])[off..off + |parts[i]|] == head[off..off + |parts[i]|];
      }
    }
  }

  /** The question is in the prompt, verbatim. */
  lemma PromptHasQuestion(question: string, schema: Dict<string, string>)
    ensures Contains(Prompt(question, schema), question)
  {
    var p := Prompt(question, schema);
    var qOff := |PromptHead| + |SchemaString(schema)| + |PromptRules|;
    assert p[qOff..qOff + |question|] == question;
    ContainsAt(p, question, qOff);
  }

  /** Every column of the schema is named in the prompt, with its type. */
  lemma PromptHasColumn(question: string, schema: Dict<string, string>, i: nat)
    requires i < |schema|
    ensures Contains(Prompt(question, schema), ColumnEntry(schema[i].0, schema[i].1))
  {
    var s := SchemaString(schema);
    var p := PromptHead + s + (PromptRules + question + PromptTail);
    assert p == Prompt(question, schema);
    var e := ColumnEntry(schema[i].0, schema[i].1);
    var off := JoinHasPart(", ", SchemaEntries(schema), i);
    assert s[off..off + |e|] == e;
    assert p[|PromptHead| + off..|PromptHead| + off + |e|] == s[off..off + |e|];
    ContainsAt(p, e, |PromptHead| + off);
  }

  /** Different questions over one schema give different prompts. */
  lemma PromptDeterminesQuestion(q1: string, q2: string, schema: Dict<string, string>)
    requires Prompt(q1, schema) == Prompt(q2, schema)
    ensures q1 == q2
  {
    var off := |PromptHead| + |SchemaString(schema)| + |PromptRules|;
    assert |q1| == |q2|;
    assert Prompt(q1, schema)[off..off + |q1|] == q1;
    assert Prompt(q2, schema)[off..off + |q2|] == q2;
  }

  // ---------------------------------------------------------------------
  // Cleaning the reply
  // ---------------------------------------------------------------------

  /** The length of the longest run of word characters at the start of `s`
      (what `\w*` consumes). */
  function WordRun(s: string): (n: nat)
    ensures n <= |s|
    ensures forall i :: 0 <= i < n ==> IsWordChar(s[i])
    ensures n < |s| ==> !IsWordChar(s[n])
    decreases |s|
  {
    if |s| > 0 && IsWordChar(s[0]) then 1 + WordRun(s[1..]) else 0
  }

  /** `re.sub(r'^```\w*\n?', '', s)`: an opening fence, its language tag and
      the newline after it are removed. */
  function DropOpeningFence(s: string): string {
    if !StartsWith(s, "```") then s
    else
      var n := 3 + WordRun(s[3..]);
      if n < |s| && s[n] == '\n' then s[n + 1..] else s[n..]
  }

  /** `re.sub(r'\n?```$', '', t)`. `$` matches at the end and before a final
      newline, and the leftmost match is the one removed. */
  function DropClosingFence(t: string): string {
    if EndsWith(t, "\n```\n") then t[..|t| - 5] + "\n"
    else if EndsWith(t, "```\n") then t[..|t| - 4] + "\n"
    else if EndsWith(t, "\n```") then t[..|t| - 4]
    else if EndsWith(t, "```") then t[..|t| - 3]
    else t
  }

  /** The reply clean-up: strip, drop the fences, strip again, drop trailing
      semicolons. */
  function CleanSql(reply: string): string {
    RStripChar(Strip(DropClosingFence(DropOpeningFence(Strip(reply)))), ';')
  }

  lemma StripFirst(s: string)
    ensures |Strip(s)| > 0 ==> !IsSpace(Strip(s)[0])
  {
    var a, b := StripShape(s);
  }

  /** The cleaned SQL never ends with a semicolon and never starts with white
      space. */
  lemma CleanSqlEnds(reply: string)
    ensures var r := CleanSql(reply); |r| > 0 ==> r[|r| - 1] != ';' && !IsSpace(r[0])
  {
    var t := Strip(DropClosingFence(DropOpeningFence(Strip(reply))));
    RStripCharShape(t, ';');
    StripFirst(DropClosingFence(DropOpeningFence(Strip(reply))));
  }

  /** A fenced reply, with any word-character language tag, comes back as its
      body, stripped and without trailing semicolons. */
  lemma FencedReply(tag: string, body: string)
    requires forall i :: 0 <= i < |tag| ==> IsWordChar(tag[i])
    ensures CleanSql("```" + tag + "\n" + body + "\n```") == RStripChar(Strip(body), ';')
  {
    var s := "```" + tag + "\n" + body + "\n```";
    assert Strip(s) == s by {
      assert LStrip(s) == s;
      assert RStrip(s) == s;
    }
    OpeningFenceDropped(tag, body + "\n```");
    assert s == "```" + tag + "\n" + (body + "\n```");
    ClosingFenceDropped(body);
  }

  /** An opening fence with a word-character tag and a newline goes. */
  lemma OpeningFenceDropped(tag: string, rest: string)
    requires forall i :: 0 <= i < |tag| ==> IsWordChar(tag[i])
    ensures DropOpeningFence("```" + tag + "\n" + rest) == rest
  {
    var s := "```" + tag + "\n" + rest;
    assert StartsWith(s, "```");
    assert s[3..] == tag + ("\n" + rest);
    TagRun(tag, "\n" + rest);
    assert s[3 + |tag|] == '\n';
    assert s[3 + |tag| + 1..] == rest;
  }

  /** A closing fence on its own line goes, with the newline before it. */
  lemma ClosingFenceDropped(body: string)
    ensures DropClosingFence(body + "\n```") == body
  {
    var t := body + "\n```";
    assert t[|t| - 1] == '`';
    assert EndsWith(t, "\n```");
    assert t[..|t| - 4] == body;
  }

  lemma {:induction false} TagRun(tag: string, rest: string)
    requires forall i :: 0 <= i < |tag| ==> IsWordChar(tag[i])
    requires |rest| > 0 && !IsWordChar(rest[0])
    ensures WordRun(tag + rest) == |tag|
    decreases |tag|
  {
    if |tag| > 0 {
      assert (tag + rest)[1..] == tag[1..] + rest;
      TagRun(tag[1..], rest);
    }
  }

  /** A reply with no fence at either end is only stripped and has its
      trailing semicolons removed. */
  lemma UnfencedReply(reply: string)
    requires !StartsWith(Strip(reply), "```") && !EndsWith(Strip(reply), "```")
    ensures CleanSql(reply) == RStripChar(Strip(reply), ';')
  {
    var s := Strip(reply);
    var a, b := StripShape(reply);
    assert |s| > 0 ==> s[|s| - 1] != '\n';
    assert DropClosingFence(s) == s;
    StripIdempotent(reply);
  }

  // ---------------------------------------------------------------------
  // The client and the call
  // ---------------------------------------------------------------------

  /** A key `get_client` accepts: present, non-empty, not the placeholder. */
  predicate KeyUsable(envKey: Option<string>) {
    envKey.Some? && envKey.value != "" && envKey.value != PlaceholderKey
  }

  /** A client of the hosted model, holding its API key. */
  class LlmClient {
    const apiKey: string

    constructor (apiKey: string)
      ensures this.apiKey == apiKey
    {
      this.apiKey := apiKey;
    }
  }

  /** The module-level `client` variable: empty until the first successful
      `get_client`. */
  class ClientSlot {
    var client: LlmClient?

    constructor ()
      ensures client == null
    {
      client := null;
    }

    /** `get_client`: reuse the client, or create one from the environment's
        key, or fail when the key is missing or the placeholder. */
    method GetClient(envKey: Option<string>) returns (r: Result<LlmClient, string>)
      modifies this
      ensures old(client) != null ==> r.Ok? && r.value == old(client) && client == old(client)
      ensures old(client) == null && !KeyUsable(envKey) ==> r == Err(KeyMissingMessage) && client == null
      ensures old(client) == null && KeyUsable(envKey) ==>
                r.Ok? && fresh(r.value) && r.value.apiKey == envKey.value && client == r.value
    {
      if client == null {
        if !KeyUsable(envKey) {
          return Err(KeyMissingMessage);
        }
        client := new LlmClient(envKey.value);
      }
      r := Ok(client);
    }
  }

  /** The key the call is made with: the existing client's, else a usable
      key from the environment, else none. */
  function ActiveKey(current: Option<string>, envKey: Option<string>): (k: Option<string>)
    ensures current.Some? ==> k == current
    ensures current.None? ==> (k.Some? <==> KeyUsable(envKey)) && (k.Some? ==> k == envKey)
  {
    if current.Some? then current else if KeyUsable(envKey) then envKey else None
  }

  /** The key held by the client slot, if there is a client. */
  function HeldKey(client: LlmClient?): Option<string>
    reads client
  {
    if client == null then None else Some(client.apiKey)
  }

  /** What `nl_to_sql` returns with a given key: the cleaned reply, or the
      error text behind `Groq API error: `. */
  function SqlFor(key: Option<string>, question: string, schema: Dict<string, string>,
                  complete: (string, ChatRequest) -> Result<string, string>): (r: Result<string, string>)
    ensures key.None? ==> r == Err(ApiErrorPrefix + KeyMissingMessage)
    ensures r.Err? ==> StartsWith(r.error, ApiErrorPrefix)
    ensures r.Ok? ==> key.Some? && complete(key.value, RequestFor(question, schema)).Ok?
                      && r.value == CleanSql(complete(key.value, RequestFor(question, schema)).value)
  {
    match key
    case None => Err(ApiErrorPrefix + KeyMissingMessage)
    case Some(k) =>
      match complete(k, RequestFor(question, schema))
      case Err(e) => Err(ApiErrorPrefix + e)
      case Ok(reply) => Ok(CleanSql(reply))
  }

  /** `nl_to_sql`. `complete` stands for the hosted model: given the API key
      and the request it yields the reply text or the text of the exception
      raised. Every failure becomes `Groq API error: ...`; the sample rows
      take no part. */
  method NlToSql(question: string, schema: Dict<string, string>, sampleRows: seq<Row>,
                 slot: ClientSlot, envKey: Option<string>,
                 complete: (string, ChatRequest) -> Result<string, string>)
    returns (r: Result<string, string>)
    modifies slot
    ensures r == SqlFor(ActiveKey(HeldKey(old(slot.client)), envKey), question, schema, complete)
    ensures HeldKey(slot.client) == ActiveKey(HeldKey(old(slot.client)), envKey)
    ensures old(slot.client) != null ==> slot.client == old(slot.client)
  {
    var c := slot.GetClient(envKey);
    if c.Err? {
      return Err(ApiErrorPrefix + c.error);
    }
    var reply := complete(c.value.apiKey, RequestFor(question, schema));
    match reply {
      case Err(e) => r := Err(ApiErrorPrefix + e);
      case Ok(text) => r := Ok(CleanSql(text));
    }
  }
}
