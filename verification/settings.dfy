/**
 * Process configuration of the backend: the selected provider, the two
 * credentials, the model ids, and the fallback list parsed from its
 * comma-separated environment value.
 */
module Settings {
  import opened Options
  import opened Text

  /** A model id as `FALLBACK_MODELS` can contain it: non-empty, no comma,
      no surrounding whitespace. */
  predicate IsCleanId(id: string) {
    id != "" && IsStripped(id) && ',' !in id
  }

  /** The contribution of one piece: its stripped form, or nothing when that is empty. */
  function CleanPiece(piece: string): (ids: seq<string>)
    ensures |ids| <= 1
    ensures forall k | 0 <= k < |ids| :: ids[k] != "" && IsStripped(ids[k])
  {
    var t := Strip(piece);
    if t == "" then [] else [t]
  }

  /** Strip every piece and drop the ones that become empty, keeping order. */
  function CleanIds(pieces: seq<string>): (ids: seq<string>)
    ensures |ids| <= |pieces|
    ensures forall k | 0 <= k < |ids| :: ids[k] != "" && IsStripped(ids[k])
  {
    if |pieces| == 0 then [] else CleanPiece(pieces[0]) + CleanIds(pieces[1..])
  }

  lemma {:induction false} CleanIdsAppend(a: seq<string>, b: seq<string>)
    ensures CleanIds(a + b) == CleanIds(a) + CleanIds(b)
  {
    if |a| == 0 {
      assert a + b == b;
    } else {
      assert (a + b)[0] == a[0];
      assert (a + b)[1..] == a[1..] + b;
      CleanIdsAppend(a[1..], b);
    }
  }

  /** `[m.strip() for m in env.split(",") if m.strip()]`. */
  function ParseFallbacks(env: string): (ids: seq<string>)
    ensures forall k | 0 <= k < |ids| :: IsCleanId(ids[k])
  {
    var pieces := Split(env, ',');
    var ids := CleanIds(pieces);
    assert forall k | 0 <= k < |ids| :: ',' !in ids[k] by {
      CleanIdsSubPieces(pieces, ',');
    }
    ids
  }

  /** Every cleaned id is the stripped form of one of the pieces, so it has no
      character that no piece has. */
  lemma {:induction false} CleanIdsSubPieces(pieces: seq<string>, c: char)
    requires forall k | 0 <= k < |pieces| :: c !in pieces[k]
    ensures forall k | 0 <= k < |CleanIds(pieces)| :: c !in CleanIds(pieces)[k]
  {
    if |pieces| > 0 {
      CleanIdsSubPieces(pieces[1..], c);
      var i, j := StripIsInfix(pieces[0]);
      assert Strip(pieces[0]) == pieces[0][i..j];
      assert forall x | x in pieces[0][i..j] :: x in pieces[0];
    }
  }

  /** Parsing distributes over a comma: the ids of `a + "," + b` are the ids
      of `a` followed by the ids of `b`, so the configured order is kept. */
  lemma ParseFallbacksAtComma(a: string, b: string)
    ensures ParseFallbacks(a + [','] + b) == ParseFallbacks(a) + ParseFallbacks(b)
  {
    SplitAtSeparator(a, b, ',');
    CleanIdsAppend(Split(a, ','), Split(b, ','));
  }

  /** A comma-free piece contributes its stripped form, unless that is empty. */
  lemma ParseFallbacksPiece(p: string)
    requires ',' !in p
    ensures ParseFallbacks(p) == if Strip(p) == "" then [] else [Strip(p)]
  {
  }

  lemma {:induction false} CleanIdsOfCleanIds(ids: seq<string>)
    requires forall k | 0 <= k < |ids| :: IsCleanId(ids[k])
    ensures CleanIds(ids) == ids
  {
    if |ids| > 0 {
      StrippedIsFixpoint(ids[0]);
      assert CleanPiece(ids[0]) == [ids[0]];
      CleanIdsOfCleanIds(ids[1..]);
      assert ids == [ids[0]] + ids[1..];
    }
  }

  /** An empty setting gives no fallbacks. */
  lemma ParseEmpty()
    ensures ParseFallbacks("") == []
  {
    assert Split("", ',') == [""];
    assert CleanPiece("") == [] by {
      assert AllSpace("");
    }
    assert CleanIds([""]) == CleanPiece("") + CleanIds([]);
  }

  /** Round trip: parsing the comma-join of clean ids gives the ids back. */
  lemma ParseJoinedFallbacks(ids: seq<string>)
    requires forall k | 0 <= k < |ids| :: IsCleanId(ids[k])
    ensures ParseFallbacks(Join(ids, ',')) == ids
  {
    if |ids| == 0 {
      assert ids == [];
      ParseJoinedNone();
    } else {
      ParseJoinedSome(ids);
    }
  }

  lemma ParseJoinedNone()
    ensures ParseFallbacks(Join([], ',')) == []
  {
    assert Join([], ',') == "";
    ParseEmpty();
  }

  lemma ParseJoinedSome(ids: seq<string>)
    requires |ids| >= 1
    requires forall k | 0 <= k < |ids| :: IsCleanId(ids[k])
    ensures ParseFallbacks(Join(ids, ',')) == ids
  {
    assert forall k | 0 <= k < |ids| :: ',' !in ids[k];
    SplitJoin(ids, ',');
    CleanIdsOfCleanIds(ids);
  }

  const DefaultProvider := "hf"
  const DefaultHfModelId := "google/flan-t5-large"
  const DefaultFallbackList: seq<string> := [
    "google/flan-t5-large",
    "google/flan-t5-xl",
    "tiiuae/falcon-7b-instruct",
    "mistralai/Mistral-7B-Instruct-v0.2"
  ]
  const DefaultGroqModelId := "llama3-8b-8192"

  /** Configuration as read once at start-up. `provider` is already
      lower-cased; a credential that is absent is `None`. */
  datatype Config = Config(
    provider: string,
    hfToken: Option<string>,
    hfModelId: string,
    fallbackModels: seq<string>,
    groqKey: Option<string>,
    groqModelId: string)

  /** `os.getenv(name, default)`. */
  function GetEnv(env: map<string, string>, name: string, default: string): string {
    if name in env then env[name] else default
  }

  function GetEnvOpt(env: map<string, string>, name: string): Option<string> {
    if name in env then Some(env[name]) else None
  }

  /** A credential is usable only when it is present and non-empty (`if not TOKEN`). */
  predicate HasCredential(c: Option<string>) {
    c.Some? && c.value != ""
  }

  /** Builds the configuration from the process environment. */
  function LoadConfig(env: map<string, string>): (cfg: Config)
    ensures forall k | 0 <= k < |cfg.fallbackModels| :: IsCleanId(cfg.fallbackModels[k])
    ensures "HF_MODEL_ID" !in env ==> cfg.hfModelId == DefaultHfModelId
    ensures "GROQ_MODEL_ID" !in env ==> cfg.groqModelId == DefaultGroqModelId
    ensures "PROVIDER" !in env ==> cfg.provider == DefaultProvider
    ensures "HF_FALLBACK_MODELS" !in env ==> cfg.fallbackModels == DefaultFallbackList
    ensures "HF_MODEL_ID" in env ==> cfg.hfModelId == env["HF_MODEL_ID"]
    ensures "GROQ_MODEL_ID" in env ==> cfg.groqModelId == env["GROQ_MODEL_ID"]
    ensures "HF_FALLBACK_MODELS" in env ==> cfg.fallbackModels == ParseFallbacks(env["HF_FALLBACK_MODELS"])
    ensures HasCredential(cfg.hfToken) <==> "HF_API_TOKEN" in env && env["HF_API_TOKEN"] != ""
    ensures HasCredential(cfg.groqKey) <==> "GROQ_API_KEY" in env && env["GROQ_API_KEY"] != ""
    ensures UsesGroq(cfg) <==> "PROVIDER" in env && AsciiLower(env["PROVIDER"]) == "groq"
  {
    ParseJoinedFallbacks(DefaultFallbackList);
    assert AsciiLower(DefaultProvider) == DefaultProvider;
    Config(
      AsciiLower(GetEnv(env, "PROVIDER", DefaultProvider)),
      GetEnvOpt(env, "HF_API_TOKEN"),
      GetEnv(env, "HF_MODEL_ID", DefaultHfModelId),
      ParseFallbacks(GetEnv(env, "HF_FALLBACK_MODELS", Join(DefaultFallbackList, ','))),
      GetEnvOpt(env, "GROQ_API_KEY"),
      GetEnv(env, "GROQ_MODEL_ID", DefaultGroqModelId))
  }

  /** The handler takes the Groq path exactly when the lower-cased provider is "groq". */
  predicate UsesGroq(cfg: Config) {
    cfg.provider == "groq"
  }
}
