/**
 * The provider-neutral LLM service: one entry point for translation and one for session
 * metadata, each handing the call to the adapter of the model's provider.
 *
 * The three vendor adapters are opaque: each is a pair of functions from the forwarded
 * arguments to the settled outcome of the call, a value or a thrown error.
 */
module Llm {
  import opened Wrappers
  import opened Strings
  import opened Constants
  import opened TranslatePrompt
  import opened SessionStore

  /** `TranslateOptions`. */
  datatype TranslateOptions = TranslateOptions(
    apiKey: string,
    text: string,
    isKorean: bool,
    model: Model,
    tone: ToneSettings,
    context: seq<TranslationPair>,
    userInstruction: Option<string>,
    concise: Option<bool>,
    previousTranslation: Option<string>)

  /** The arguments of `generateSessionMetadata(apiKey, text, model)`. */
  datatype MetadataArgs = MetadataArgs(apiKey: string, text: string, model: Model)

  /** One vendor's `translate` and `generateSessionMetadata`. */
  datatype Adapter = Adapter(
    translate: TranslateOptions -> Attempt<string>,
    metadata: MetadataArgs -> Attempt<SessionMetadata>)

  /** The three adapters. */
  datatype Adapters = Adapters(openai: Adapter, claude: Adapter, gemini: Adapter)

  function AdapterFor(a: Adapters, p: Provider): (r: Adapter)
    ensures p == OpenAI ==> r == a.openai
    ensures p == Claude ==> r == a.claude
    ensures p == Gemini ==> r == a.gemini
  {
    match p
    case Claude => a.claude
    case Gemini => a.gemini
    case OpenAI => a.openai
  }

  /**
   * `translate(options)`: the outcome is exactly that of the routed adapter called on the
   * unchanged options; there is no retry and no fallback to another provider.
   */
  function Translate(a: Adapters, o: TranslateOptions): (r: Attempt<string>)
    ensures StartsWith(ModelName(o.model), "claude-") ==> r == a.claude.translate(o)
    ensures StartsWith(ModelName(o.model), "gemini-") ==> r == a.gemini.translate(o)
    ensures !StartsWith(ModelName(o.model), "claude-") && !StartsWith(ModelName(o.model), "gemini-") ==>
      r == a.openai.translate(o)
  {
    AdapterFor(a, GetProvider(o.model)).translate(o)
  }

  /** `generateSessionMetadata(apiKey, text, model)`, routed the same way. */
  function GenerateSessionMetadata(a: Adapters, apiKey: string, text: string, model: Model): (r: Attempt<SessionMetadata>)
    ensures StartsWith(ModelName(model), "claude-") ==> r == a.claude.metadata(MetadataArgs(apiKey, text, model))
    ensures StartsWith(ModelName(model), "gemini-") ==> r == a.gemini.metadata(MetadataArgs(apiKey, text, model))
    ensures !StartsWith(ModelName(model), "claude-") && !StartsWith(ModelName(model), "gemini-") ==>
      r == a.openai.metadata(MetadataArgs(apiKey, text, model))
  {
    AdapterFor(a, GetProvider(model)).metadata(MetadataArgs(apiKey, text, model))
  }

  /** The route of every model: GPT models to OpenAI, Claude models to Claude, Gemini models to Gemini. */
  lemma RoutesByModel(a: Adapters, o: TranslateOptions)
    ensures o.model in {Gpt52, Gpt5Mini, Gpt5Nano} ==> Translate(a, o) == a.openai.translate(o)
    ensures o.model in {ClaudeOpus46, ClaudeSonnet46} ==> Translate(a, o) == a.claude.translate(o)
    ensures o.model in {Gemini3ProPreview, Gemini3FlashPreview} ==> Translate(a, o) == a.gemini.translate(o)
  {
    ModelProviders();
  }

  /**
   * Only the routed adapter matters: replacing the other two adapters changes neither outcome,
   * so a failure of the routed adapter reaches the caller unchanged.
   */
  lemma OnlyRoutedAdapterMatters(a: Adapters, b: Adapters, o: TranslateOptions, args: MetadataArgs)
    requires AdapterFor(a, GetProvider(o.model)) == AdapterFor(b, GetProvider(o.model))
    requires AdapterFor(a, GetProvider(args.model)) == AdapterFor(b, GetProvider(args.model))
    ensures Translate(a, o) == Translate(b, o)
    ensures GenerateSessionMetadata(a, args.apiKey, args.text, args.model)
         == GenerateSessionMetadata(b, args.apiKey, args.text, args.model)
  {
  }
}
