/**
 * The shared constants of the application: the closed set of model identifiers, the
 * model-to-provider routing rule, the three tone axes with their options and defaults, and the
 * session-size thresholds.
 */
module Constants {
  import opened Wrappers
  import opened Strings

  /** The seven model identifiers, as a closed enumeration. */
  datatype Model =
    | Gpt52 | Gpt5Mini | Gpt5Nano
    | ClaudeOpus46 | ClaudeSonnet46
    | Gemini3ProPreview | Gemini3FlashPreview

  /** The identifier string of each model. */
  function ModelName(m: Model): string {
    match m
    case Gpt52 => "gpt-5.2"
    case Gpt5Mini => "gpt-5-mini"
    case Gpt5Nano => "gpt-5-nano"
    case ClaudeOpus46 => "claude-opus-4-6"
    case ClaudeSonnet46 => "claude-sonnet-4-6"
    case Gemini3ProPreview => "gemini-3-pro-preview"
    case Gemini3FlashPreview => "gemini-3-flash-preview"
  }

  /** `MODELS`, in declaration order. */
  const MODELS: seq<Model> :=
    [Gpt52, Gpt5Mini, Gpt5Nano, ClaudeOpus46, ClaudeSonnet46, Gemini3ProPreview, Gemini3FlashPreview]

  const DEFAULT_MODEL: Model := Gpt52

  /** Distinct models have distinct identifiers, and `MODELS` lists every model exactly once. */
  lemma ModelsEnumerated()
    ensures forall m, n :: ModelName(m) == ModelName(n) ==> m == n
    ensures forall m :: m in MODELS
    ensures forall i, j :: 0 <= i < j < |MODELS| ==> MODELS[i] != MODELS[j]
  {
    forall m ensures m in MODELS {
      match m
      case Gpt52 => assert MODELS[0] == m;
      case Gpt5Mini => assert MODELS[1] == m;
      case Gpt5Nano => assert MODELS[2] == m;
      case ClaudeOpus46 => assert MODELS[3] == m;
      case ClaudeSonnet46 => assert MODELS[4] == m;
      case Gemini3ProPreview => assert MODELS[5] == m;
      case Gemini3FlashPreview => assert MODELS[6] == m;
    }
  }

  /** `z.enum(MODELS)` on a string: accepts exactly the seven identifiers. */
  function ParseModel(s: string): (r: Option<Model>)
    ensures r.Some? ==> ModelName(r.value) == s
    ensures r.None? ==> forall m :: ModelName(m) != s
  {
    if s == "gpt-5.2" then Some(Gpt52)
    else if s == "gpt-5-mini" then Some(Gpt5Mini)
    else if s == "gpt-5-nano" then Some(Gpt5Nano)
    else if s == "claude-opus-4-6" then Some(ClaudeOpus46)
    else if s == "claude-sonnet-4-6" then Some(ClaudeSonnet46)
    else if s == "gemini-3-pro-preview" then Some(Gemini3ProPreview)
    else if s == "gemini-3-flash-preview" then Some(Gemini3FlashPreview)
    else None
  }

  /** Parsing the identifier of a model gives back that model. */
  lemma ParseModelName(m: Model)
    ensures ParseModel(ModelName(m)) == Some(m)
  {
    ModelsEnumerated();
  }

  datatype Provider = OpenAI | Claude | Gemini

  /** The routing rule on an identifier: `claude-` first, then `gemini-`, otherwise OpenAI. */
  function ProviderOf(name: string): (p: Provider)
    ensures p == Claude <==> StartsWith(name, "claude-")
    ensures p == Gemini <==> StartsWith(name, "gemini-")
    ensures p == OpenAI <==> !StartsWith(name, "claude-") && !StartsWith(name, "gemini-")
  {
    if StartsWith(name, "claude-") then Claude
    else if StartsWith(name, "gemini-") then Gemini
    else OpenAI
  }

  /** `getProvider(model)`. */
  function GetProvider(m: Model): Provider {
    ProviderOf(ModelName(m))
  }

  function CountProvider(ms: seq<Model>, p: Provider): nat {
    if |ms| == 0 then 0
    else (if GetProvider(ms[0]) == p then 1 else 0) + CountProvider(ms[1..], p)
  }

  /** The provider of each model, by its identifier's prefix. */
  lemma ModelProviders()
    ensures GetProvider(Gpt52) == OpenAI && GetProvider(Gpt5Mini) == OpenAI && GetProvider(Gpt5Nano) == OpenAI
    ensures GetProvider(ClaudeOpus46) == Claude && GetProvider(ClaudeSonnet46) == Claude
    ensures GetProvider(Gemini3ProPreview) == Gemini && GetProvider(Gemini3FlashPreview) == Gemini
  {
    forall m: Model | m.Gpt52? || m.Gpt5Mini? || m.Gpt5Nano? ensures GetProvider(m) == OpenAI {
      NotPrefixAt(ModelName(m), "claude-", 0);
      NotPrefixAt(ModelName(m), "gemini-", 1);
    }
    forall m: Model | m.ClaudeOpus46? || m.ClaudeSonnet46? ensures GetProvider(m) == Claude {
      assert ModelName(m)[..7] == "claude-";
    }
    forall m: Model | m.Gemini3ProPreview? || m.Gemini3FlashPreview? ensures GetProvider(m) == Gemini {
      assert ModelName(m)[..7] == "gemini-";
    }
  }

  /** Three models route to OpenAI, two to Claude and two to Gemini; the default is an OpenAI model. */
  lemma ProviderCensus()
    ensures CountProvider(MODELS, OpenAI) == 3
    ensures CountProvider(MODELS, Claude) == 2
    ensures CountProvider(MODELS, Gemini) == 2
    ensures DEFAULT_MODEL in MODELS && GetProvider(DEFAULT_MODEL) == OpenAI
  {
    ModelProviders();
    var tail := MODELS;
    assert tail[1..] == [Gpt5Mini, Gpt5Nano, ClaudeOpus46, ClaudeSonnet46, Gemini3ProPreview, Gemini3FlashPreview];
    assert tail[2..] == [Gpt5Nano, ClaudeOpus46, ClaudeSonnet46, Gemini3ProPreview, Gemini3FlashPreview];
    assert tail[3..] == [ClaudeOpus46, ClaudeSonnet46, Gemini3ProPreview, Gemini3FlashPreview];
    assert tail[4..] == [ClaudeSonnet46, Gemini3ProPreview, Gemini3FlashPreview];
    assert tail[5..] == [Gemini3ProPreview, Gemini3FlashPreview];
    assert tail[6..] == [Gemini3FlashPreview];
    assert tail[1..][1..] == tail[2..] && tail[2..][1..] == tail[3..] && tail[3..][1..] == tail[4..];
    assert tail[4..][1..] == tail[5..] && tail[5..][1..] == tail[6..] && tail[6..][1..] == [];
  }

  // Tone settings: three independent axes with two options each.

  datatype TranslationStyle = Paraphrase | Literal
  datatype Formality = Casual | Formal
  datatype Domain = Technical | General

  datatype ToneSettings = ToneSettings(translationStyle: TranslationStyle, formality: Formality, domain: Domain)

  function StyleName(s: TranslationStyle): string {
    match s
    case Paraphrase => "paraphrase"
    case Literal => "literal"
  }

  function FormalityName(f: Formality): string {
    match f
    case Casual => "casual"
    case Formal => "formal"
  }

  function DomainName(d: Domain): string {
    match d
    case Technical => "technical"
    case General => "general"
  }

  /** `TONE_OPTIONS`: the option strings of each axis. */
  const STYLE_OPTIONS: seq<string> := ["paraphrase", "literal"]
  const FORMALITY_OPTIONS: seq<string> := ["casual", "formal"]
  const DOMAIN_OPTIONS: seq<string> := ["technical", "general"]

  const DEFAULT_TONE: ToneSettings := ToneSettings(Paraphrase, Casual, Technical)

  /** `z.enum(TONE_OPTIONS.translationStyle)`. */
  function ParseStyle(s: string): (r: Option<TranslationStyle>)
    ensures r.Some? <==> s in STYLE_OPTIONS
    ensures r.Some? ==> StyleName(r.value) == s
  {
    if s == "paraphrase" then Some(Paraphrase) else if s == "literal" then Some(Literal) else None
  }

  /** `z.enum(TONE_OPTIONS.formality)`. */
  function ParseFormality(s: string): (r: Option<Formality>)
    ensures r.Some? <==> s in FORMALITY_OPTIONS
    ensures r.Some? ==> FormalityName(r.value) == s
  {
    if s == "casual" then Some(Casual) else if s == "formal" then Some(Formal) else None
  }

  /** `z.enum(TONE_OPTIONS.domain)`. */
  function ParseDomain(s: string): (r: Option<Domain>)
    ensures r.Some? <==> s in DOMAIN_OPTIONS
    ensures r.Some? ==> DomainName(r.value) == s
  {
    if s == "technical" then Some(Technical) else if s == "general" then Some(General) else None
  }

  /**
   * Each axis has exactly two distinct options, every axis value is named by one of them and
   * parses back to itself, and each default is one of its axis's options.
   */
  lemma ToneOptionsWellFormed()
    ensures |STYLE_OPTIONS| == 2 && STYLE_OPTIONS[0] != STYLE_OPTIONS[1]
    ensures |FORMALITY_OPTIONS| == 2 && FORMALITY_OPTIONS[0] != FORMALITY_OPTIONS[1]
    ensures |DOMAIN_OPTIONS| == 2 && DOMAIN_OPTIONS[0] != DOMAIN_OPTIONS[1]
    ensures forall s :: StyleName(s) in STYLE_OPTIONS && ParseStyle(StyleName(s)) == Some(s)
    ensures forall f :: FormalityName(f) in FORMALITY_OPTIONS && ParseFormality(FormalityName(f)) == Some(f)
    ensures forall d :: DomainName(d) in DOMAIN_OPTIONS && ParseDomain(DomainName(d)) == Some(d)
    ensures StyleName(DEFAULT_TONE.translationStyle) in STYLE_OPTIONS
    ensures FormalityName(DEFAULT_TONE.formality) in FORMALITY_OPTIONS
    ensures DomainName(DEFAULT_TONE.domain) in DOMAIN_OPTIONS
  {
  }

  /** Session length warning threshold, in UTF-16 code units of translated text. */
  const SESSION_WARNING_THRESHOLD: nat := 40000
  const SESSION_MAX_CONTEXT_SIZE: nat := 50000

  /** The warning fires strictly before the context budget is exhausted. */
  lemma ThresholdsOrdered()
    ensures 0 < SESSION_WARNING_THRESHOLD < SESSION_MAX_CONTEXT_SIZE
  {
  }
}
