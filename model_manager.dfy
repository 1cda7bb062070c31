/** ModelManager: the object that holds an optional code model and its
    tokenizer with the device they run on, the load and unload steps that
    set and clear them, and the text-similarity fallback used when no model
    is loaded. What the libraries do (whether they are installed, whether a
    model loads, whether CUDA is present, the embeddings and their cosine)
    is given as input. */
module ModelManager {
  import opened Seqs
  import opened Text
  import opened Helpers

  /** A loaded tokenizer and a loaded model, named by what they were loaded
      from; the model also records the device it was moved to. */
  datatype TokenizerHandle = TokenizerHandle(source: string)
  datatype ModelHandle = ModelHandle(source: string, onDevice: string)

  /** A code embedding produced by the model. */
  datatype Embedding = Embedding(values: seq<real>)

  /** What each step of load_model meets: the import of the libraries, the
      two from_pretrained calls, torch.cuda.is_available(), the move to the
      GPU and the switch to evaluation mode. */
  datatype LoadEnvironment = LoadEnvironment(
    librariesInstalled: bool, tokenizerLoads: bool, modelLoads: bool,
    cudaAvailable: bool, moveSucceeds: bool, evalSucceeds: bool)

  /** The three fields that load_model and unload_model change. */
  datatype Slots = Slots(model: Option<ModelHandle>, tokenizer: Option<TokenizerHandle>, device: string)

  /** A model is never held without its tokenizer, and the device is one of
      the two the manager uses. */
  predicate SlotsValid(s: Slots) {
    (s.model.Some? ==> s.tokenizer.Some?) && (s.device == "cpu" || s.device == "cuda")
  }

  const DefaultModelName := "microsoft/codebert-base"

  /** The result and the new fields of load_model, step by step: a failing
      step returns false and keeps whatever earlier steps assigned. */
  function AfterLoad(useLocalModel: bool, name: string, s: Slots, env: LoadEnvironment): (bool, Slots) {
    if !useLocalModel then (false, s)
    else if !env.librariesInstalled then (false, s)
    else if !env.tokenizerLoads then (false, s)
    else
      var s1 := s.(tokenizer := Some(TokenizerHandle(name)));
      if !env.modelLoads then (false, s1)
      else
        var s2 := s1.(model := Some(ModelHandle(name, "cpu")));
        if env.cudaAvailable then
          var s3 := s2.(device := "cuda");
          if !env.moveSucceeds then (false, s3)
          else
            var s4 := s3.(model := Some(ModelHandle(name, "cuda")));
            (env.evalSucceeds, s4)
        else (env.evalSucceeds, s2)
  }

  /** Every step keeps the fields valid: the tokenizer is set before the
      model, and the device only ever becomes 'cuda'. */
  lemma AfterLoadValid(useLocalModel: bool, name: string, s: Slots, env: LoadEnvironment)
    requires SlotsValid(s)
    ensures SlotsValid(AfterLoad(useLocalModel, name, s, env).1)
  {
  }

  /** With the local model disabled, load_model reports failure and changes
      nothing. It succeeds exactly when every step succeeds, and then holds
      the named model and tokenizer, on the GPU when CUDA is present. */
  lemma LoadOutcome(useLocalModel: bool, name: string, s: Slots, env: LoadEnvironment)
    ensures !useLocalModel ==> AfterLoad(useLocalModel, name, s, env) == (false, s)
    ensures AfterLoad(useLocalModel, name, s, env).0 <==>
      useLocalModel && env.librariesInstalled && env.tokenizerLoads && env.modelLoads
      && (env.cudaAvailable ==> env.moveSucceeds) && env.evalSucceeds
    ensures AfterLoad(useLocalModel, name, s, env).0 ==>
      var t := AfterLoad(useLocalModel, name, s, env).1;
      t.tokenizer == Some(TokenizerHandle(name))
      && t.model == Some(ModelHandle(name, if env.cudaAvailable then "cuda" else "cpu"))
      && t.device == (if env.cudaAvailable then "cuda" else s.device)
  {
  }

  /** A failing model download leaves the previous model (if any) in place
      beside the new tokenizer. */
  lemma ModelFailureKeepsModel(name: string, s: Slots, env: LoadEnvironment)
    requires env.librariesInstalled && env.tokenizerLoads && !env.modelLoads
    ensures AfterLoad(true, name, s, env) == (false, Slots(s.model, Some(TokenizerHandle(name)), s.device))
  {
  }

  /** unload_model: both handles are dropped when a model is held; the
      device is kept. */
  function AfterUnload(s: Slots): Slots {
    if s.model.Some? then Slots(None, None, s.device) else s
  }

  /** After unloading no model is held; the tokenizer is dropped with a
      model, and a tokenizer left by a failed model download stays. The
      device is never reset. Unloading twice is unloading once. */
  lemma UnloadSpec(s: Slots)
    ensures AfterUnload(s).model.None? && AfterUnload(s).device == s.device
    ensures s.model.Some? ==> AfterUnload(s).tokenizer.None?
    ensures s.model.None? ==> AfterUnload(s).tokenizer == s.tokenizer
    ensures SlotsValid(s) ==> SlotsValid(AfterUnload(s))
    ensures AfterUnload(AfterUnload(s)) == AfterUnload(s)
  {
  }

  /** get_model_info. */
  datatype ModelInfo = ModelInfo(modelName: string, loaded: bool, device: string, useLocalModel: bool)

  function InfoOf(name: string, useLocalModel: bool, s: Slots): ModelInfo {
    ModelInfo(name, s.model.Some?, s.device, useLocalModel)
  }

  /** The info reports a model as loaded after a successful load and as not
      loaded after an unload. */
  lemma InfoAfterLoadAndUnload(useLocalModel: bool, name: string, s: Slots, env: LoadEnvironment)
    ensures AfterLoad(useLocalModel, name, s, env).0 ==> InfoOf(name, useLocalModel, AfterLoad(useLocalModel, name, s, env).1).loaded
    ensures !InfoOf(name, useLocalModel, AfterUnload(s)).loaded
    ensures InfoOf(name, useLocalModel, AfterUnload(s)).device == s.device
  {
  }

  // ---------------------------------------------------------------------
  // _jaccard_similarity
  // ---------------------------------------------------------------------

  function Tokens(text: string): set<string> {
    ToSet(SplitWhitespace(text))
  }

  /** |A ∩ B| / |A ∪ B| over the whitespace-separated token sets, and 0
      when there are no tokens at all. */
  function Jaccard(text1: string, text2: string): real {
    var a, b := Tokens(text1), Tokens(text2);
    if |a + b| == 0 then 0.0 else (|a * b| as real) / (|a + b| as real)
  }

  /** A subset is no larger than its superset, and one as large is equal to it. */
  lemma {:induction false} SubsetCard<T>(x: set<T>, y: set<T>)
    requires x <= y
    ensures |x| <= |y|
    ensures |x| == |y| ==> x == y
    decreases |y|
  {
    if y != {} {
      var e :| e in y;
      SubsetCard(x - {e}, y - {e});
      if e in x {
        assert |x - {e}| == |x| - 1;
        assert x == (x - {e}) + {e} && y == (y - {e}) + {e};
      } else {
        assert x - {e} == x;
      }
    }
  }

  lemma DivBounds(p: nat, q: nat)
    requires 0 < q && p <= q
    ensures 0.0 <= (p as real) / (q as real) <= 1.0
    ensures (p as real) / (q as real) == 1.0 <==> p == q
    ensures (p as real) / (q as real) == 0.0 <==> p == 0
  {
  }

  /** The similarity lies in [0, 1] and is symmetric; it is 1 exactly when
      both texts have the same non-empty token set and 0 exactly when they
      share no token. */
  lemma JaccardSpec(text1: string, text2: string)
    ensures 0.0 <= Jaccard(text1, text2) <= 1.0
    ensures Jaccard(text1, text2) == Jaccard(text2, text1)
    ensures Jaccard(text1, text2) == 1.0 <==> Tokens(text1) == Tokens(text2) && Tokens(text1) != {}
    ensures Jaccard(text1, text2) == 0.0 <==> Tokens(text1) * Tokens(text2) == {}
  {
    var a, b := Tokens(text1), Tokens(text2);
    assert b + a == a + b && b * a == a * b;
    if |a + b| > 0 {
      SubsetCard(a * b, a + b);
      DivBounds(|a * b|, |a + b|);
      if a * b == a + b {
        assert forall x :: x in a ==> x in b;
        assert forall x :: x in b ==> x in a;
      }
    } else {
      assert a + b == {};
      assert a == {};
    }
  }

  // ---------------------------------------------------------------------
  // The manager
  // ---------------------------------------------------------------------

  class ModelManager {
    var modelName: string
    var useLocalModel: bool
    var model: Option<ModelHandle>
    var tokenizer: Option<TokenizerHandle>
    var device: string

    function State(): Slots
      reads this
    {
      Slots(model, tokenizer, device)
    }

    ghost predicate Valid()
      reads this
    {
      SlotsValid(State())
    }

    /** __init__: the 'ai' entries with their defaults; nothing is loaded and
        the device is the CPU. */
    constructor (config: Config)
      ensures Valid()
      ensures modelName == GetOr(config.ai.modelName, DefaultModelName)
      ensures useLocalModel == UseLocalModel(config)
      ensures model.None? && tokenizer.None? && device == "cpu"
    {
      modelName := GetOr(config.ai.modelName, DefaultModelName);
      useLocalModel := UseLocalModel(config);
      model := None;
      tokenizer := None;
      device := "cpu";
    }

    /** load_model. */
    method LoadModel(env: LoadEnvironment) returns (ok: bool)
      requires Valid()
      modifies this
      ensures Valid()
      ensures modelName == old(modelName) && useLocalModel == old(useLocalModel)
      ensures (ok, State()) == AfterLoad(useLocalModel, modelName, old(State()), env)
    {
      AfterLoadValid(useLocalModel, modelName, State(), env);
      if !useLocalModel {
        return false;
      }
      if !env.librariesInstalled {
        return false;
      }
      if !env.tokenizerLoads {
        return false;
      }
      tokenizer := Some(TokenizerHandle(modelName));
      if !env.modelLoads {
        return false;
      }
      model := Some(ModelHandle(modelName, "cpu"));
      if env.cudaAvailable {
        device := "cuda";
        if !env.moveSucceeds {
          return false;
        }
        model := Some(ModelHandle(modelName, device));
      }
      if !env.evalSucceeds {
        return false;
      }
      return true;
    }

    /** unload_model. */
    method UnloadModel()
      requires Valid()
      modifies this
      ensures Valid()
      ensures modelName == old(modelName) && useLocalModel == old(useLocalModel)
      ensures State() == AfterUnload(old(State()))
    {
      if model.Some? {
        model := None;
        tokenizer := None;
      }
    }

    /** get_model_info: 'loaded' says whether a model is held. */
    function GetModelInfo(): (info: ModelInfo)
      reads this
      ensures info.loaded <==> model.Some?
      ensures info.modelName == modelName && info.device == device && info.useLocalModel == useLocalModel
    {
      InfoOf(modelName, useLocalModel, State())
    }

    /** encode_code: nothing without both a model and a tokenizer; otherwise
        whatever the model produces, or nothing when it raises. */
    function EncodeCode(code: string, produced: Option<Embedding>): (r: Option<Embedding>)
      reads this
      ensures (model.None? || tokenizer.None?) ==> r.None?
      ensures model.Some? && tokenizer.Some? ==> r == produced
    {
      if model.None? || tokenizer.None? then None else produced
    }

    /** generate_summary: the fixed fallback text exactly when no model is
        held, and the fixed placeholder text when one is. */
    function GenerateSummary(code: string, maxLength: int): (r: string)
      reads this
      ensures r == "Model not loaded. Using rule-based summarization." <==> model.None?
      ensures model.Some? ==> r == "AI-generated summary (requires fine-tuned model)"
    {
      if model.None? then "Model not loaded. Using rule-based summarization."
      else "AI-generated summary (requires fine-tuned model)"
    }

    /** calculate_similarity: the Jaccard fallback without a model; with one,
        0 when either snippet cannot be encoded, else the cosine of the two
        embeddings. */
    function CalculateSimilarity(code1: string, code2: string,
                                 produced1: Option<Embedding>, produced2: Option<Embedding>,
                                 cosine: real): (r: real)
      reads this
      ensures model.None? ==> r == Jaccard(code1, code2) && 0.0 <= r <= 1.0
      ensures model.Some? && (produced1.None? || produced2.None?) ==> r == 0.0
    {
      JaccardSpec(code1, code2);
      if model.None? then Jaccard(code1, code2)
      else if EncodeCode(code1, produced1).None? || EncodeCode(code2, produced2).None? then 0.0
      else cosine
    }
  }
}
