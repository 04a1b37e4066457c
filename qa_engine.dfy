/**
 * The RAG question-answering engine: the model configuration it starts
 * with, the cache-first `ask`, the shaping of source documents and the
 * conversation context.
 *
 * The LLM chain and the retriever are outside the model: `ask` is given
 * them as functions (`search` for `get_relevant_documents`' similarity
 * search, `chain` for the `RetrievalQA` call), and records each chain
 * invocation in a ghost log so that "the chain was not called" can be
 * stated.
 */
module QaEngine {
  import opened Wrappers
  import opened CacheTables
  import opened Cache
  import opened Documents
  import Config
  import Text

  // ---- Start-up: key and effective model configuration -----------------------

  /** The per-request overrides: `api_key`, `provider`, `api_base_url`, `model`. */
  datatype Overrides = Overrides(apiKey: Option<string>, provider: Option<string>, apiBaseUrl: Option<string>,
                                 model: Option<string>)

  const NoOverrides: Overrides := Overrides(None, None, None, None)

  /** The keyword arguments given to `ChatOpenAI`. */
  datatype ChatSetup = ChatSetup(model: string, apiKey: string, temperature: real, maxTokens: int,
                                 baseUrl: Option<string>, organization: Option<string>)

  /** What `_initialize_llm` leaves behind: the effective configuration and the chat model's arguments. */
  datatype LlmInit = LlmInit(config: Config.ModelConfig, chat: ChatSetup)

  /** An override replaces a value only when it is truthy. */
  function Override(o: Option<string>, v: string): (r: string)
    ensures Config.Truthy(o) ==> r == o.value
    ensures !Config.Truthy(o) ==> r == v
  {
    if Config.Truthy(o) then o.value else v
  }

  /**
   * The configuration with the truthy overrides merged in, starting from
   * `get_model_config()` as written: `Config.GetModelConfig`, whose
   * `api_base_url` is the configured one even where a provider default
   * was meant (see `Config.DeepSeekEndpointMissing`).
   */
  function EffectiveConfig(s: Config.Settings, o: Overrides): (c: Config.ModelConfig)
    ensures var base := Config.GetModelConfig(s);
            && c.provider == Override(o.provider, base.provider)
            && c.chatModel == Override(o.model, base.chatModel)
            && c.apiBaseUrl == (if Config.Truthy(o.apiBaseUrl) then o.apiBaseUrl else base.apiBaseUrl)
            && c.(provider := base.provider, chatModel := base.chatModel, apiBaseUrl := base.apiBaseUrl) == base
  {
    var base := Config.GetModelConfig(s);
    base.(provider := Override(o.provider, base.provider),
          chatModel := Override(o.model, base.chatModel),
          apiBaseUrl := if Config.Truthy(o.apiBaseUrl) then o.apiBaseUrl else base.apiBaseUrl)
  }

  /** The `ChatOpenAI` arguments: a custom endpoint, with an empty organization, unless it is OpenAI's own. */
  function ChatSetupFor(c: Config.ModelConfig, apiKey: string): (chat: ChatSetup)
    ensures chat.model == c.chatModel && chat.apiKey == apiKey
    ensures chat.baseUrl.Some? <==> Config.Truthy(c.apiBaseUrl) && c.apiBaseUrl.value != Config.OpenAiBaseUrl
    ensures chat.baseUrl.Some? ==> chat.baseUrl == c.apiBaseUrl && chat.organization == Some("")
    ensures chat.baseUrl.None? ==> chat.organization.None?
  {
    var custom := Config.Truthy(c.apiBaseUrl) && c.apiBaseUrl.value != Config.OpenAiBaseUrl;
    ChatSetup(c.chatModel, apiKey, 0.1, 1000, if custom then c.apiBaseUrl else None,
              if custom then Some("") else None)
  }

  /** `_initialize_llm`: the override key or the configured one, then the merged configuration. */
  function InitializeLlm(s: Config.Settings, env: Config.Environment, o: Overrides): (r: Result<LlmInit>)
    ensures r.Raised? <==> !Config.Truthy(o.apiKey) && Config.GetApiKey(s, env).None?
    ensures r.Raised? ==> r.message == "API key not configured for " + s.llmProvider
    ensures r.Ok? ==> r.value.config == EffectiveConfig(s, o)
    ensures r.Ok? && Config.Truthy(o.apiKey) ==> r.value.chat.apiKey == o.apiKey.value
    ensures r.Ok? && !Config.Truthy(o.apiKey) ==> Some(r.value.chat.apiKey) == Config.FirstTruthy(Config.KeyCandidates(s, env))
    ensures r.Ok? ==> r.value.chat.apiKey != "" && r.value.chat == ChatSetupFor(r.value.config, r.value.chat.apiKey)
  {
    Config.GetApiKeyIsFirstSource(s, env);
    var key := if Config.Truthy(o.apiKey) then o.apiKey else Config.GetApiKey(s, env);
    if !Config.Truthy(key) then Raised("API key not configured for " + s.llmProvider)
    else
      var c := EffectiveConfig(s, o);
      Ok(LlmInit(c, ChatSetupFor(c, key.value)))
  }

  /** Without overrides the engine runs on the settings' own configuration. */
  lemma NoOverridesKeepSettings(s: Config.Settings)
    ensures EffectiveConfig(s, NoOverrides) == Config.GetModelConfig(s)
  {
  }

  /**
   * The visible effect of the missing endpoint default: an engine started
   * on the default settings with the deepseek provider and no endpoint
   * gives `ChatOpenAI` no `base_url` and no `organization`, so the client
   * talks to OpenAI's endpoint with the model `deepseek-chat`. With the
   * intended configuration it would be given the deepseek endpoint.
   */
  lemma DeepSeekEngineGetsNoBaseUrl(env: Config.Environment, key: string)
    requires key != ""
    ensures var s := Config.DefaultSettings.(llmProvider := "deepseek", apiKey := Some(key));
            var r := InitializeLlm(s, env, NoOverrides);
            && r.Ok?
            && r.value.chat.model == "deepseek-chat"
            && r.value.chat.baseUrl == None && r.value.chat.organization == None
            && ChatSetupFor(Config.GetModelConfigIntended(s), key).baseUrl == Some(Config.DeepSeekBaseUrl)
  {
    var s := Config.DefaultSettings.(llmProvider := "deepseek", apiKey := Some(key));
    assert Config.GetModelConfig(s).apiBaseUrl == None;
    assert Config.GetModelConfigIntended(s).apiBaseUrl == Some(Config.DeepSeekBaseUrl);
    assert Config.DeepSeekBaseUrl != Config.OpenAiBaseUrl;
  }

  /** An empty override string is no override. */
  lemma EmptyOverrideIsIgnored(s: Config.Settings, o: Overrides)
    ensures EffectiveConfig(s, o.(provider := Some(""))) == EffectiveConfig(s, o.(provider := None))
    ensures EffectiveConfig(s, o.(model := Some(""))) == EffectiveConfig(s, o.(model := None))
    ensures EffectiveConfig(s, o.(apiBaseUrl := Some(""))) == EffectiveConfig(s, o.(apiBaseUrl := None))
  {
  }

  /** The name QA rows are stored under: `provider/chat_model`. */
  function ModelName(c: Config.ModelConfig): string {
    c.provider + "/" + c.chatModel
  }

  /** For a provider name without `/`, the model name gives the provider back. */
  lemma ModelNameNamesProvider(c: Config.ModelConfig)
    requires '/' !in c.provider
    ensures Text.Split(ModelName(c), '/')[0] == c.provider
  {
    Text.SplitHead(c.provider, '/', c.chatModel);
  }

  // ---- Source documents ---------------------------------------------------------------

  /** Characters of a source's content kept in the response. */
  const ContentKept: nat := 300
  const Ellipsis: string := "..."
  /** The document name of a source whose metadata has no `filename`. */
  const UnknownName: string := "Unknown"

  /** The content shown for a source: the first 300 characters and `...` when longer. */
  function Truncate(c: string): (r: string)
    ensures |r| == if |c| <= ContentKept then |c| else ContentKept + |Ellipsis|
    ensures Text.Take(r, ContentKept) == Text.Take(c, ContentKept)
    ensures r == c <==> |c| <= ContentKept || c[ContentKept..] == Ellipsis
  {
    if |c| > ContentKept then c[..ContentKept] + Ellipsis else c
  }

  /** Truncating shown content again leaves it as it is. */
  lemma TruncateIdempotent(c: string)
    ensures Truncate(Truncate(c)) == Truncate(c)
  {
    if |c| > ContentKept {
      assert Truncate(c)[ContentKept..] == Ellipsis;
    }
  }

  /** `metadata.get('filename', 'Unknown')`, when the response schema accepts it as a `str`. */
  function FilenameOf(m: Metadata): Option<string> {
    match Get(m, "filename", MStr(UnknownName))
    case MStr(name) => Some(name)
    case _ => None
  }

  /** `metadata.get('page', None)`, when the response schema accepts it as an optional `int`. */
  function PageOf(m: Metadata): Option<Option<int>> {
    match Get(m, "page", MNone)
    case MInt(p) => Some(Some(p))
    case MNone => Some(None)
    case _ => None
  }

  /** One source entry, or `None` when building it raises and the document is skipped. */
  function SourceOf(d: Document): (r: Option<SourceDocument>)
    reads d
  {
    var name, page := FilenameOf(d.metadata), PageOf(d.metadata);
    if name.Some? && page.Some? then Some(SourceDocument(name.value, Truncate(d.pageContent), 1.0, page.value))
    else None
  }

  /** `_process_source_documents`: one entry per usable document, in order. */
  function ProcessSourceDocuments(docs: seq<Document>): (r: seq<SourceDocument>)
    reads docs
    ensures |r| <= |docs|
    ensures forall i :: 0 <= i < |r| ==> r[i].similarityScore == 1.0 && |r[i].content| <= ContentKept + |Ellipsis|
    ensures |r| == |docs| <==> forall i :: 0 <= i < |docs| ==> SourceOf(docs[i]).Some?
  {
    if docs == [] then []
    else
      var rest := ProcessSourceDocuments(docs[1..]);
      assert forall i :: 1 <= i < |docs| ==> docs[i] == docs[1..][i - 1];
      Shown(docs[0]) + rest
  }

  /** The entry of one document: none when it is skipped. */
  function Shown(d: Document): (r: seq<SourceDocument>)
    reads d
    ensures |r| <= 1 && (|r| == 1 <==> SourceOf(d).Some?)
    ensures r != [] ==> r[0] == SourceOf(d).value
  {
    match SourceOf(d)
    case Some(src) => [src]
    case None => []
  }

  /** The entries of a batch are those of its two halves, one after the other. */
  lemma {:induction false} ProcessAppend(a: seq<Document>, b: seq<Document>)
    ensures ProcessSourceDocuments(a + b) == ProcessSourceDocuments(a) + ProcessSourceDocuments(b)
    decreases |a|
  {
    if a != [] {
      assert (a + b)[0] == a[0];
      assert (a + b)[1..] == a[1..] + b;
      ProcessAppend(a[1..], b);
      calc {
        ProcessSourceDocuments(a + b);
        Shown(a[0]) + ProcessSourceDocuments(a[1..] + b);
        Shown(a[0]) + (ProcessSourceDocuments(a[1..]) + ProcessSourceDocuments(b));
        (Shown(a[0]) + ProcessSourceDocuments(a[1..])) + ProcessSourceDocuments(b);
      }
    } else {
      assert a + b == b;
    }
  }

  /** A document that cannot be shown is dropped without disturbing the others. */
  lemma SkippedDocumentLeavesNoTrace(a: seq<Document>, d: Document, b: seq<Document>)
    requires SourceOf(d).None?
    ensures ProcessSourceDocuments(a + [d] + b) == ProcessSourceDocuments(a) + ProcessSourceDocuments(b)
  {
    var one := [d];
    assert ProcessSourceDocuments(one) == [] by {
      assert one[0] == d && one[1..] == [];
      assert ProcessSourceDocuments(one) == Shown(d) + ProcessSourceDocuments([]);
    }
    ProcessAppend(a + one, b);
    ProcessAppend(a, one);
    assert ProcessSourceDocuments(a + one) == ProcessSourceDocuments(a);
  }

  /** When every document can be shown, entry `i` is built from document `i`. */
  lemma {:induction false} ProcessSourceDocumentsInOrder(docs: seq<Document>)
    requires forall i :: 0 <= i < |docs| ==> SourceOf(docs[i]).Some?
    ensures forall i :: 0 <= i < |docs| ==> ProcessSourceDocuments(docs)[i] == SourceOf(docs[i]).value
    decreases |docs|
  {
    if docs != [] {
      ProcessSourceDocumentsInOrder(docs[1..]);
      forall i | 1 <= i < |docs|
        ensures ProcessSourceDocuments(docs)[i] == SourceOf(docs[i]).value
      {
        assert docs[i] == docs[1..][i - 1];
      }
    }
  }

  // ---- Conversation context --------------------------------------------------------

  /** One turn of the history; a missing key reads as the empty string. */
  datatype Turn = Turn(question: string, answer: string)

  /** Turns of the history that are used. */
  const TurnsKept: nat := 3

  /** `history[-3:]`. */
  function LastTurns(history: seq<Turn>): (r: seq<Turn>)
    ensures |r| == if |history| <= TurnsKept then |history| else TurnsKept
    ensures history == history[..|history| - |r|] + r
  {
    if |history| <= TurnsKept then history else history[|history| - TurnsKept..]
  }

  predicate Complete(t: Turn) {
    t.question != "" && t.answer != ""
  }

  /** The `Q:`/`A:` lines of the complete turns, in order. */
  function ContextLines(turns: seq<Turn>): (lines: seq<string>)
    ensures |lines| % 2 == 0
    ensures lines == [] <==> forall i :: 0 <= i < |turns| ==> !Complete(turns[i])
    ensures forall i :: 0 <= i < |lines| ==> Text.StartsWith(lines[i], if i % 2 == 0 then "Q: " else "A: ")
  {
    if turns == [] then []
    else
      var rest := ContextLines(turns[1..]);
      assert forall i :: 1 <= i < |turns| ==> turns[i] == turns[1..][i - 1];
      if Complete(turns[0]) then
        var pair := ["Q: " + turns[0].question, "A: " + turns[0].answer];
        assert Text.StartsWith(pair[0], "Q: ") && Text.StartsWith(pair[1], "A: ");
        pair + rest
      else rest
  }

  /** `get_conversation_context`: the lines of the last three turns, one per line. */
  function GetConversationContext(history: seq<Turn>): (r: string)
    ensures r == "" <==> forall i :: 0 <= i < |LastTurns(history)| ==> !Complete(LastTurns(history)[i])
  {
    var lines := ContextLines(LastTurns(history));
    JoinNonEmpty(lines, "\n");
    Text.Join(lines, "\n")
  }

  /** Joining lines that are all non-empty gives the empty string only for no lines. */
  lemma {:induction false} JoinNonEmpty(lines: seq<string>, sep: string)
    requires forall i :: 0 <= i < |lines| ==> lines[i] != ""
    ensures Text.Join(lines, sep) == "" <==> lines == []
    decreases |lines|
  {
    if |lines| > 1 {
      assert |Text.Join(lines, sep)| >= |lines[0]|;
    }
  }

  /** Turns older than the last three never reach the context. */
  lemma OlderTurnsIgnored(older: seq<Turn>, recent: seq<Turn>)
    requires |recent| >= TurnsKept
    ensures GetConversationContext(older + recent) == GetConversationContext(recent)
  {
    assert LastTurns(older + recent) == LastTurns(recent);
  }

  /**
   * When no question or answer spans lines, the context splits back into
   * its lines: two per complete turn, question before answer.
   */
  lemma ContextSplitsIntoLines(history: seq<Turn>)
    requires forall i :: 0 <= i < |history| ==> '\n' !in history[i].question && '\n' !in history[i].answer
    requires GetConversationContext(history) != ""
    ensures Text.Split(GetConversationContext(history), '\n') == ContextLines(LastTurns(history))
  {
    var turns := LastTurns(history);
    assert forall i :: 0 <= i < |turns| ==> turns[i] == history[|history| - |turns| + i];
    LinesHaveNoBreak(turns);
    Text.SplitJoin(ContextLines(turns), '\n');
  }

  lemma {:induction false} LinesHaveNoBreak(turns: seq<Turn>)
    requires forall i :: 0 <= i < |turns| ==> '\n' !in turns[i].question && '\n' !in turns[i].answer
    ensures forall i :: 0 <= i < |ContextLines(turns)| ==> '\n' !in ContextLines(turns)[i]
    decreases |turns|
  {
    if turns != [] {
      assert forall i :: 1 <= i < |turns| ==> turns[i] == turns[1..][i - 1];
      LinesHaveNoBreak(turns[1..]);
    }
  }

  // ---- Asking ---------------------------------------------------------------------

  /** The response schema's fields the model keeps (`processing_time` is a clock reading). */
  datatype QuestionResponse = QuestionResponse(answer: string, sources: seq<SourceDocument>)

  /** What the chain gives: its `result` and `source_documents` keys, or the exception it raised. */
  datatype ChainReply = ChainResult(result: Option<string>, sourceDocuments: seq<Document>) | ChainRaised(message: string)

  const ErrorPrefix: string := "抱歉，处理您的问题时发生了错误："
  const EmptyQuestion: string := "Question cannot be empty"
  /** The answer used when the chain's reply has no `result`. */
  const NoAnswer: string := "抱歉，我无法找到相关信息来回答这个问题。"

  /** The response an exception inside `ask` turns into. */
  function ErrorResponse(message: string): (r: QuestionResponse)
    ensures r.sources == [] && Text.StartsWith(r.answer, ErrorPrefix)
    ensures r.answer[|ErrorPrefix|..] == message
  {
    QuestionResponse(ErrorPrefix + message, [])
  }

  /** `k = max_sources or settings.max_sources`: a missing or zero request uses the configured count. */
  function RetrievalSize(maxSources: Option<int>, configured: int): (k: int)
    ensures maxSources.Some? && maxSources.value != 0 ==> k == maxSources.value
    ensures maxSources.None? || maxSources.value == 0 ==> k == configured
  {
    if maxSources.Some? && maxSources.value != 0 then maxSources.value else configured
  }

  /** `get_relevant_documents`: the search's result, or no documents when it raises. */
  function Retrieved(search: (string, int) -> Option<seq<Document>>, question: string, k: int): seq<Document> {
    search(question, k).GetOr([])
  }

  /** What the context fingerprint sees of the retrieved documents: their page contents. */
  function ContextItems(docs: seq<Document>): (items: seq<ContextItem>)
    reads docs
    ensures |items| == |docs|
    ensures forall i :: 0 <= i < |docs| ==> items[i] == WithPageContent(docs[i].pageContent)
  {
    seq(|docs|, i reads docs requires 0 <= i < |docs| => WithPageContent(docs[i].pageContent))
  }

  class QAEngine {
    /** The process-wide response cache. */
    const cache: CacheManager
    /** `settings.max_sources`. */
    const configuredSources: int
    /** `_effective_model_config`. */
    const config: Config.ModelConfig
    /** The chat model's arguments. */
    const chat: ChatSetup
    /** Every question the chain has been asked, oldest first. */
    ghost var chainCalls: seq<string>

    constructor (cache: CacheManager, configuredSources: int, init: LlmInit)
      ensures this.cache == cache && this.configuredSources == configuredSources
      ensures config == init.config && chat == init.chat && chainCalls == []
    {
      this.cache := cache;
      this.configuredSources := configuredSources;
      config := init.config;
      chat := init.chat;
      chainCalls := [];
    }

    /** The context fingerprint `ask` computes: the digest of the retrieved documents' contents. */
    function ContextHashFor(question: string, maxSources: Option<int>, search: (string, int) -> Option<seq<Document>>)
      : string
      reads Retrieved(search, question, RetrievalSize(maxSources, configuredSources))
    {
      cache.GetContextHash(ContextItems(Retrieved(search, question, RetrievalSize(maxSources, configuredSources))))
    }

    /** `ask`, given the similarity search, the chain and the current time. */
    method Ask(question: string, maxSources: Option<int>, search: (string, int) -> Option<seq<Document>>,
               chain: string -> ChainReply, now: int) returns (r: QuestionResponse)
      modifies cache`qa, this`chainCalls
      ensures Text.Strip(question) == [] ==>
                r == ErrorResponse(EmptyQuestion) && cache.qa == old(cache.qa) && chainCalls == old(chainCalls)
      ensures Text.Strip(question) != [] ==>
                var key := cache.QuestionHash(question, old(ContextHashFor(question, maxSources, search)), ModelName(config));
                var hit := QaRead(old(cache.qa), key, ModelName(config), cache.qaTtl, now);
                hit.Some? ==> r == QuestionResponse(hit.value.answer, hit.value.sources) && chainCalls == old(chainCalls)
                              && cache.qa == Probe(old(cache.qa), key, ModelName(config), cache.qaTtl, now)
      ensures Text.Strip(question) != [] ==>
                var hash := old(ContextHashFor(question, maxSources, search));
                var key := cache.QuestionHash(question, hash, ModelName(config));
                var probed := Probe(old(cache.qa), key, ModelName(config), cache.qaTtl, now);
                QaRead(old(cache.qa), key, ModelName(config), cache.qaTtl, now).None? ==>
                  && chainCalls == old(chainCalls) + [question]
                  && (chain(question).ChainRaised? ==> r == ErrorResponse(chain(question).message) && cache.qa == probed)
                  && (chain(question).ChainResult? ==>
                        && r == QuestionResponse(chain(question).result.GetOr(NoAnswer),
                                                 ProcessSourceDocuments(chain(question).sourceDocuments))
                        && cache.qa == Put(probed, key, Text.Take(question, QuestionKept),
                                           QaColumns(hash, r.answer, Encoded(r.sources)), ModelName(config), now))
                  && (chain(question).ChainResult? && cache.qaTtl > 0 ==>
                        QaRead(cache.qa, key, ModelName(config), cache.qaTtl, now) == Some(QaHit(r.answer, r.sources)))
    {
      if Text.Strip(question) == [] {
        r := ErrorResponse(EmptyQuestion);
        return;
      }
      var k := RetrievalSize(maxSources, configuredSources);
      var docs := Retrieved(search, question, k);
      var contextHash := cache.GetContextHash(ContextItems(docs));
      var model := ModelName(config);
      var cached := cache.GetQaCache(question, contextHash, model, now);
      if cached.Some? {
        r := QuestionResponse(cached.value.answer, cached.value.sources);
        return;
      }
      r := RunChain(question, contextHash, model, chain, now);
    }

    /** The miss path of `ask`: one chain call, and on success the answer written back under the same key. */
    method RunChain(question: string, contextHash: string, model: string, chain: string -> ChainReply, now: int)
      returns (r: QuestionResponse)
      modifies cache`qa, this`chainCalls
      ensures chainCalls == old(chainCalls) + [question]
      ensures chain(question).ChainRaised? ==> r == ErrorResponse(chain(question).message) && cache.qa == old(cache.qa)
      ensures chain(question).ChainResult? ==>
                && r == QuestionResponse(chain(question).result.GetOr(NoAnswer),
                                         ProcessSourceDocuments(chain(question).sourceDocuments))
                && cache.qa == Put(old(cache.qa), cache.QuestionHash(question, contextHash, model),
                                   Text.Take(question, QuestionKept), QaColumns(contextHash, r.answer, Encoded(r.sources)),
                                   model, now)
      ensures chain(question).ChainResult? && cache.qaTtl > 0 ==>
                QaRead(cache.qa, cache.QuestionHash(question, contextHash, model), model, cache.qaTtl, now)
                == Some(QaHit(r.answer, r.sources))
    {
      chainCalls := chainCalls + [question];
      match chain(question)
      case ChainRaised(message) =>
        r := ErrorResponse(message);
      case ChainResult(result, sourceDocuments) =>
        var answer := result.GetOr(NoAnswer);
        var sources := ProcessSourceDocuments(sourceDocuments);
        cache.SetQaCache(question, contextHash, answer, sources, model, now);
        r := QuestionResponse(answer, sources);
    }
  }

  /** `QAEngine(vector_store, overrides)`: an engine, or the error `_initialize_llm` raises. */
  method Open(cache: CacheManager, s: Config.Settings, env: Config.Environment, o: Overrides)
    returns (r: Result<QAEngine>)
    ensures r.Raised? <==> InitializeLlm(s, env, o).Raised?
    ensures r.Raised? ==> r.message == InitializeLlm(s, env, o).message
    ensures r.Ok? ==> fresh(r.value) && r.value.cache == cache && r.value.configuredSources == s.maxSources
    ensures r.Ok? ==> r.value.config == InitializeLlm(s, env, o).value.config
                      && r.value.chat == InitializeLlm(s, env, o).value.chat && r.value.chainCalls == []
  {
    var init := InitializeLlm(s, env, o);
    if init.Raised? {
      r := Raised(init.message);
    } else {
      var engine := new QAEngine(cache, s.maxSources, init.value);
      r := Ok(engine);
    }
  }
}
