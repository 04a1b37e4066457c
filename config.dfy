/**
 * The settings object: where the API key comes from, and the model
 * configuration derived from the provider names.
 *
 * Every read the key lookup makes outside the settings (a key file, a
 * Docker secret, a base64 decode, the system keyring) is a function in
 * `Environment`; a read or decode that raises is `None` there, and falls
 * through to the next source as the code's `except` clauses do.
 */
module Config {
  import opened Wrappers
  import Text

  /** The settings fields the core reads (`Optional[str]` fields are `Option<string>`). */
  datatype Settings = Settings(
    llmProvider: string,
    embeddingProvider: string,
    apiKey: Option<string>,
    apiKeyFile: Option<string>,
    apiKeyBase64: Option<string>,
    zhipuApiKey: Option<string>,
    openaiApiKey: Option<string>,
    openaiApiKeyFile: Option<string>,
    openaiApiKeyBase64: Option<string>,
    apiBaseUrl: Option<string>,
    embeddingApiBaseUrl: Option<string>,
    chatModel: string,
    embeddingModel: string,
    maxSources: int)

  const DefaultChatModel: string := "gpt-3.5-turbo"
  const DefaultEmbeddingModel: string := "text-embedding-ada-002"
  const OpenAiBaseUrl: string := "https://api.openai.com/v1"
  const DeepSeekBaseUrl: string := "https://api.deepseek.com"
  const ZhipuBaseUrl: string := "https://open.bigmodel.cn/api/paas/v4"

  /** The settings with every field at its declared default. */
  const DefaultSettings: Settings :=
    Settings("openai", "openai", None, None, None, None, None, None, None, None, None,
             DefaultChatModel, DefaultEmbeddingModel, 3)

  /** A keyring lookup: a password or NULL, or an error the lookup raised. */
  datatype KeyringReply = Password(password: Option<string>) | KeyringFailed

  /** The world outside the settings, as the key lookup sees it. */
  datatype Environment = Environment(
    readFile: string -> Option<string>,      // the whole file, or None when it is missing or unreadable
    decodeBase64: string -> Option<string>,  // base64 then UTF-8 decode, or None when either fails
    keyringInstalled: bool,                  // whether `import keyring` succeeds
    keyring: string -> KeyringReply)         // `keyring.get_password("rag-kb", name)`

  /** Python truthiness of an `Optional[str]`: present and not empty. */
  predicate Truthy(o: Option<string>) {
    o.Some? && o.value != ""
  }

  function NonEmpty(s: string): (r: Option<string>)
    ensures Truthy(r) <==> s != ""
  {
    if s != "" then Some(s) else None
  }

  /** A key as the sources hand it out: not empty, and no whitespace at either end. */
  predicate Trimmed(k: string) {
    k != "" && !Text.IsSpace(k[0]) && !Text.IsSpace(k[|k| - 1])
  }

  /** What a file or a decoded secret yields: its stripped text, unless it is blank. */
  function KeyFrom(contents: string): (r: Option<string>)
    ensures r.Some? ==> Trimmed(r.value)
    ensures r.None? <==> Text.AllSpace(contents)
  {
    Text.StripTrims(contents);
    Text.StripEmpty(contents);
    NonEmpty(Text.Strip(contents))
  }

  /** A key file named by a truthy setting: its stripped contents, when readable and not blank. */
  function FromFile(path: Option<string>, env: Environment): (r: Option<string>)
    ensures r.Some? ==> Truthy(r) && Trimmed(r.value)
    ensures r.Some? <==> Truthy(path) && env.readFile(path.value).Some? && !Text.AllSpace(env.readFile(path.value).value)
  {
    if Truthy(path) then
      match env.readFile(path.value)
      case Some(contents) => KeyFrom(contents)
      case None => None
    else None
  }

  /** A base64 setting: the stripped decoded text, when it decodes and is not blank. */
  function FromBase64(encoded: Option<string>, env: Environment): (r: Option<string>)
    ensures r.Some? ==> Truthy(r) && Trimmed(r.value)
    ensures r.Some? <==> Truthy(encoded) && env.decodeBase64(encoded.value).Some? && !Text.AllSpace(env.decodeBase64(encoded.value).value)
  {
    if Truthy(encoded) then
      match env.decodeBase64(encoded.value)
      case Some(text) => KeyFrom(text)
      case None => None
    else None
  }

  /** The Docker secret of the provider; the name is `openai_api_key` for openai and `<provider>_api_key` otherwise. */
  function SecretPath(provider: string): string {
    "/run/secrets/" + (if provider != "openai" then provider + "_api_key" else "openai_api_key")
  }

  function FromDockerSecret(s: Settings, env: Environment): (r: Option<string>)
    ensures r.Some? ==> Truthy(r) && Trimmed(r.value)
    ensures r.Some? <==> env.readFile(SecretPath(s.llmProvider)).Some? && !Text.AllSpace(env.readFile(SecretPath(s.llmProvider)).value)
  {
    match env.readFile(SecretPath(s.llmProvider))
    case Some(contents) => KeyFrom(contents)
    case None => None
  }

  /**
   * The keyring: the provider's entry, then, for a provider other than
   * openai whose entry is empty, the openai entry. A failing lookup or a
   * missing `keyring` package gives nothing.
   */
  function FromKeyring(s: Settings, env: Environment): (r: Option<string>)
    ensures r.Some? ==> Truthy(r) && env.keyringInstalled
                        && (|| env.keyring(s.llmProvider + "_api_key") == Password(r)
                            || (s.llmProvider != "openai" && env.keyring("openai_api_key") == Password(r)))
    ensures env.keyringInstalled && env.keyring(s.llmProvider + "_api_key").Password?
            && Truthy(env.keyring(s.llmProvider + "_api_key").password)
            ==> r == env.keyring(s.llmProvider + "_api_key").password
  {
    if !env.keyringInstalled then None
    else
      match env.keyring(s.llmProvider + "_api_key")
      case KeyringFailed => None
      case Password(first) =>
        if !Truthy(first) && s.llmProvider != "openai" then
          (match env.keyring("openai_api_key")
           case KeyringFailed => None
           case Password(second) => if Truthy(second) then second else None)
        else if Truthy(first) then first
        else None
  }

  /** `get_api_key()`: the sources tried in order, the first with a key winning. */
  function GetApiKey(s: Settings, env: Environment): (r: Option<string>)
    ensures r.None? || Truthy(r)
  {
    if Truthy(s.apiKey) then s.apiKey
    else if FromFile(s.apiKeyFile, env).Some? then FromFile(s.apiKeyFile, env)
    else if FromBase64(s.apiKeyBase64, env).Some? then FromBase64(s.apiKeyBase64, env)
    else if Truthy(s.openaiApiKey) then s.openaiApiKey
    else if FromFile(s.openaiApiKeyFile, env).Some? then FromFile(s.openaiApiKeyFile, env)
    else if FromBase64(s.openaiApiKeyBase64, env).Some? then FromBase64(s.openaiApiKeyBase64, env)
    else if FromDockerSecret(s, env).Some? then FromDockerSecret(s, env)
    else FromKeyring(s, env)
  }

  /** What each source would give, in priority order. */
  function KeyCandidates(s: Settings, env: Environment): seq<Option<string>> {
    [s.apiKey, FromFile(s.apiKeyFile, env), FromBase64(s.apiKeyBase64, env),
     s.openaiApiKey, FromFile(s.openaiApiKeyFile, env), FromBase64(s.openaiApiKeyBase64, env),
     FromDockerSecret(s, env), FromKeyring(s, env)]
  }

  /** The first truthy entry of a list, or `None`. */
  function FirstTruthy(xs: seq<Option<string>>): (r: Option<string>)
    ensures r.Some? ==> Truthy(r) && exists i :: 0 <= i < |xs| && xs[i] == r && forall j :: 0 <= j < i ==> !Truthy(xs[j])
    ensures r.None? <==> forall i :: 0 <= i < |xs| ==> !Truthy(xs[i])
  {
    if xs == [] then None
    else if Truthy(xs[0]) then xs[0]
    else
      var r := FirstTruthy(xs[1..]);
      if r.Some? then
        var i :| 0 <= i < |xs[1..]| && xs[1..][i] == r && forall j :: 0 <= j < i ==> !Truthy(xs[1..][j]);
        assert xs[i + 1] == r && forall j :: 0 <= j < i + 1 ==> !Truthy(xs[j]);
        r
      else
        assert forall i :: 1 <= i < |xs| ==> xs[i] == xs[1..][i - 1];
        r
  }

  /** The key is the first source that yields one, and `None` when none does. */
  lemma GetApiKeyIsFirstSource(s: Settings, env: Environment)
    ensures GetApiKey(s, env) == FirstTruthy(KeyCandidates(s, env))
  {
    FirstTruthyOfChain(s.apiKey, FromFile(s.apiKeyFile, env), FromBase64(s.apiKeyBase64, env),
                       s.openaiApiKey, FromFile(s.openaiApiKeyFile, env), FromBase64(s.openaiApiKeyBase64, env),
                       FromDockerSecret(s, env), FromKeyring(s, env));
  }

  /** The first truthy of eight candidates, where the ones read from outside are either truthy or absent. */
  lemma FirstTruthyOfChain(a: Option<string>, b: Option<string>, c: Option<string>, d: Option<string>,
                           e: Option<string>, f: Option<string>, g: Option<string>, h: Option<string>)
    requires b.None? || Truthy(b)
    requires c.None? || Truthy(c)
    requires e.None? || Truthy(e)
    requires f.None? || Truthy(f)
    requires g.None? || Truthy(g)
    requires h.None? || Truthy(h)
    ensures FirstTruthy([a, b, c, d, e, f, g, h])
            == if Truthy(a) then a else if b.Some? then b else if c.Some? then c else if Truthy(d) then d
               else if e.Some? then e else if f.Some? then f else if g.Some? then g else h
  {
    FirstTruthyOfFront(a, b, c, d, [e, f, g, h]);
    FirstTruthyOfFallbacks(e, f, g, h);
    assert [a, b, c, d, e, f, g, h] == [a, b, c, d] + [e, f, g, h];
  }

  /** The first four candidates of that chain, in front of the rest. */
  lemma FirstTruthyOfFront(a: Option<string>, b: Option<string>, c: Option<string>, d: Option<string>,
                           rest: seq<Option<string>>)
    requires b.None? || Truthy(b)
    requires c.None? || Truthy(c)
    ensures FirstTruthy([a, b, c, d] + rest)
            == if Truthy(a) then a else if b.Some? then b else if c.Some? then c else if Truthy(d) then d
               else FirstTruthy(rest)
  {
    var xs := [a, b, c, d] + rest;
    FirstTruthyStep(xs);
    FirstTruthyStep(xs[1..]);
    FirstTruthyStep(xs[2..]);
    FirstTruthyStep(xs[3..]);
    assert xs[1..][1..] == xs[2..] && xs[2..][1..] == xs[3..] && xs[3..][1..] == rest;
  }

  /** The last four candidates of that chain, each either truthy or absent but the plain variable. */
  lemma FirstTruthyOfFallbacks(e: Option<string>, f: Option<string>, g: Option<string>, h: Option<string>)
    requires e.None? || Truthy(e)
    requires f.None? || Truthy(f)
    requires g.None? || Truthy(g)
    requires h.None? || Truthy(h)
    ensures FirstTruthy([e, f, g, h]) == if e.Some? then e else if f.Some? then f else if g.Some? then g else h
  {
    FirstTruthyStep([h]);
    assert [h][1..] == [];
    FirstTruthyStep([g, h]);
    assert [g, h][1..] == [h];
    FirstTruthyStep([f, g, h]);
    assert [f, g, h][1..] == [g, h];
    FirstTruthyStep([e, f, g, h]);
    assert [e, f, g, h][1..] == [f, g, h];
  }

  lemma FirstTruthyStep(xs: seq<Option<string>>)
    requires xs != []
    ensures FirstTruthy(xs) == if Truthy(xs[0]) then xs[0] else FirstTruthy(xs[1..])
  {
  }

  /**
   * When any source before the keyring yields a key, the keyring is never
   * consulted: the result is the same whatever it would answer.
   */
  lemma KeyringIsLastResort(s: Settings, env: Environment, other: string -> KeyringReply)
    requires exists i :: 0 <= i < 7 && Truthy(KeyCandidates(s, env)[i])
    ensures GetApiKey(s, env) == GetApiKey(s, env.(keyring := other))
  {
    var env' := env.(keyring := other);
    assert forall i :: 0 <= i < 7 ==> KeyCandidates(s, env)[i] == KeyCandidates(s, env')[i];
    GetApiKeyIsFirstSource(s, env);
    GetApiKeyIsFirstSource(s, env');
    var i :| 0 <= i < 7 && Truthy(KeyCandidates(s, env)[i]);
    FirstTruthyPrefix(KeyCandidates(s, env), KeyCandidates(s, env'), i);
  }

  /** Two lists that agree up to a truthy entry have the same first truthy entry. */
  lemma {:induction false} FirstTruthyPrefix(xs: seq<Option<string>>, ys: seq<Option<string>>, i: nat)
    requires i < |xs| && i < |ys| && Truthy(xs[i])
    requires forall j :: 0 <= j <= i ==> xs[j] == ys[j]
    ensures FirstTruthy(xs) == FirstTruthy(ys)
    decreases i
  {
    if !Truthy(xs[0]) {
      FirstTruthyPrefix(xs[1..], ys[1..], i - 1);
    }
  }

  /** A keyring entry for the provider wins over the openai entry, and a non-openai provider falls back to it. */
  lemma KeyringFallback(s: Settings, env: Environment)
    requires env.keyringInstalled && s.llmProvider != "openai"
    requires env.keyring(s.llmProvider + "_api_key") == Password(None)
    requires env.keyring("openai_api_key") == Password(Some("sk-fallback"))
    ensures FromKeyring(s, env) == Some("sk-fallback")
  {
  }

  /** `get_embedding_api_key()`: the zhipu key for zhipu embeddings, the general key otherwise. */
  function GetEmbeddingApiKey(s: Settings, env: Environment): (r: Option<string>)
    ensures s.embeddingProvider == "zhipu" ==> r == s.zhipuApiKey
    ensures s.embeddingProvider != "zhipu" ==> r == FirstTruthy(KeyCandidates(s, env))
  {
    GetApiKeyIsFirstSource(s, env);
    if s.embeddingProvider == "zhipu" then s.zhipuApiKey else GetApiKey(s, env)
  }

  // ---- Model configuration ------------------------------------------------------

  /** The dictionary `get_model_config()` returns. */
  datatype ModelConfig = ModelConfig(provider: string, embeddingProvider: string, chatModel: string,
                                     embeddingModel: string, apiBaseUrl: Option<string>,
                                     embeddingApiBaseUrl: Option<string>)

  /** The chat model: the provider's own model replaces the untouched default. */
  function ChatModelFor(s: Settings): (m: string)
    ensures s.chatModel != DefaultChatModel ==> m == s.chatModel
    ensures m != s.chatModel <==> s.chatModel == DefaultChatModel && s.llmProvider in {"deepseek", "zhipu"}
  {
    if s.llmProvider == "deepseek" && s.chatModel == DefaultChatModel then "deepseek-chat"
    else if s.llmProvider == "zhipu" && s.chatModel == DefaultChatModel then "glm-4"
    else s.chatModel
  }

  /** The embedding model and endpoint: zhipu and openai get their endpoint when none is configured. */
  function EmbeddingModelFor(s: Settings): (m: string)
    ensures s.embeddingModel != DefaultEmbeddingModel ==> m == s.embeddingModel
    ensures m != s.embeddingModel <==> s.embeddingModel == DefaultEmbeddingModel && s.embeddingProvider == "zhipu"
  {
    if s.embeddingProvider == "zhipu" && s.embeddingModel == DefaultEmbeddingModel then "embedding-3"
    else s.embeddingModel
  }

  function EmbeddingBaseUrlFor(s: Settings): (u: Option<string>)
    ensures Truthy(s.embeddingApiBaseUrl) ==> u == s.embeddingApiBaseUrl
    ensures s.embeddingProvider in {"zhipu", "openai"} ==> Truthy(u)
    ensures s.embeddingProvider !in {"zhipu", "openai"} ==> u == s.embeddingApiBaseUrl
  {
    if Truthy(s.embeddingApiBaseUrl) then s.embeddingApiBaseUrl
    else if s.embeddingProvider == "zhipu" then Some(ZhipuBaseUrl)
    else if s.embeddingProvider == "openai" then Some(OpenAiBaseUrl)
    else s.embeddingApiBaseUrl
  }

  /**
   * `get_model_config()` as written. The `setdefault` calls for the chat
   * endpoint find the key already present (holding the configured value,
   * possibly `None`), so the endpoint is always the configured one.
   */
  function GetModelConfig(s: Settings): (c: ModelConfig)
    ensures c.provider == s.llmProvider && c.embeddingProvider == s.embeddingProvider
    ensures c.apiBaseUrl == s.apiBaseUrl
  {
    ModelConfig(s.llmProvider, s.embeddingProvider, ChatModelFor(s), EmbeddingModelFor(s), s.apiBaseUrl,
                EmbeddingBaseUrlFor(s))
  }

  /** The endpoint each known provider defaults to. */
  function ProviderBaseUrl(provider: string): Option<string> {
    if provider == "deepseek" then Some(DeepSeekBaseUrl)
    else if provider == "zhipu" then Some(ZhipuBaseUrl)
    else if provider == "openai" then Some(OpenAiBaseUrl)
    else None
  }

  /**
   * `get_model_config()` as its `setdefault` calls intend: the provider's
   * endpoint when none is configured, the configured one otherwise.
   */
  function GetModelConfigIntended(s: Settings): (c: ModelConfig)
    ensures c.provider == s.llmProvider && c.embeddingProvider == s.embeddingProvider
    ensures s.apiBaseUrl.Some? ==> c.apiBaseUrl == s.apiBaseUrl
    ensures s.apiBaseUrl.None? && s.llmProvider in {"deepseek", "zhipu", "openai"} ==> Truthy(c.apiBaseUrl)
    ensures c.(apiBaseUrl := s.apiBaseUrl) == GetModelConfig(s)
  {
    var configured := GetModelConfig(s);
    if s.apiBaseUrl.None? then configured.(apiBaseUrl := ProviderBaseUrl(s.llmProvider)) else configured
  }

  /** The default deepseek settings get no deepseek endpoint as written, and the deepseek one as intended. */
  lemma DeepSeekEndpointMissing()
    ensures GetModelConfig(DefaultSettings.(llmProvider := "deepseek")).apiBaseUrl == None
    ensures GetModelConfigIntended(DefaultSettings.(llmProvider := "deepseek")).apiBaseUrl == Some(DeepSeekBaseUrl)
  {
  }

  /** With default settings throughout, the intended configuration is the one the zhipu test expects. */
  lemma ZhipuDefaults()
    ensures var c := GetModelConfigIntended(DefaultSettings.(llmProvider := "zhipu", embeddingProvider := "zhipu"));
            c == ModelConfig("zhipu", "zhipu", "glm-4", "embedding-3", Some(ZhipuBaseUrl), Some(ZhipuBaseUrl))
  {
  }
}
