/**
 * The model registry (llm_factory.py): first-match dispatch of a model name to its vendor,
 * the filtered catalog, and the vendor-ordered listings of the latest models. The Together
 * module is the one of this model; the GPT, Gemini and Perplexity modules the registry imports
 * are given as `VendorModule` values.
 */
module LlmFactory {
  import opened Wrappers
  import opened LlmCall
  import TogetherLlmCall

  /**
   * What the registry uses of one vendor module: its catalog, its `order_models` (for
   * Perplexity, `order_perplexity_models`), its `display_name`, and what calling its
   * `parallelism()` method returns.
   */
  datatype VendorModule = VendorModule(
    knownModels: set<string>,
    orderModels: seq<string> -> seq<string>,
    displayName: string -> string,
    parallelism: int)

  /** The three vendor modules outside this model, and Perplexity's `model_vendor`. */
  datatype Vendors = Vendors(
    gpt: VendorModule,
    gemini: VendorModule,
    perplexity: VendorModule,
    perplexityVendor: string -> string)

  datatype Backend = GptBackend | GeminiBackend | TogetherBackend | PerplexityBackend

  /** The catalog of a backend; Together's is its own one-model set. */
  function Catalog(v: Vendors, b: Backend): set<string>
  {
    match b
    case GptBackend => v.gpt.knownModels
    case GeminiBackend => v.gemini.knownModels
    case TogetherBackend => TogetherLlmCall.KnownModels()
    case PerplexityBackend => v.perplexity.knownModels
  }

  /** The first backend of `order` whose catalog holds `name`: the reference for first-match dispatch. */
  function FirstOwner(v: Vendors, name: string, order: seq<Backend>): (r: Option<Backend>)
    ensures r.None? <==> forall i :: 0 <= i < |order| ==> name !in Catalog(v, order[i])
    ensures r.Some? ==> exists i :: 0 <= i < |order| && order[i] == r.value && name in Catalog(v, r.value)
                          && forall j :: 0 <= j < i ==> name !in Catalog(v, order[j])
  {
    if order == [] then None
    else if name in Catalog(v, order[0]) then Some(order[0])
    else
      var r := FirstOwner(v, name, order[1..]);
      assert forall i :: 1 <= i < |order| ==> order[i] == order[1..][i - 1];
      if r.Some? then
        ghost var i :| 0 <= i < |order[1..]| && order[1..][i] == r.value && name in Catalog(v, r.value)
                       && forall j :: 0 <= j < i ==> name !in Catalog(v, order[1..][j]);
        assert order[i + 1] == r.value;
        r
      else r
  }

  /** First-match over four backends, written out. */
  lemma FirstOwnerOfFour(v: Vendors, name: string, a: Backend, b: Backend, c: Backend, d: Backend)
    ensures FirstOwner(v, name, [a, b, c, d]) ==
              if name in Catalog(v, a) then Some(a)
              else if name in Catalog(v, b) then Some(b)
              else if name in Catalog(v, c) then Some(c)
              else if name in Catalog(v, d) then Some(d)
              else None
  {
    assert [d][1..] == [];
    assert FirstOwner(v, name, [d]) == if name in Catalog(v, d) then Some(d) else None;
    assert [c, d][1..] == [d];
    assert FirstOwner(v, name, [c, d]) == if name in Catalog(v, c) then Some(c) else FirstOwner(v, name, [d]);
    assert [b, c, d][1..] == [c, d];
    assert FirstOwner(v, name, [b, c, d]) == if name in Catalog(v, b) then Some(b) else FirstOwner(v, name, [c, d]);
    assert [a, b, c, d][1..] == [b, c, d];
  }

  /** The order `get_model` tries the catalogs in. */
  const GetModelOrder: seq<Backend> := [TogetherBackend, GptBackend, GeminiBackend, PerplexityBackend]

  /** The order `display_name` tries the catalogs in. */
  const DisplayOrder: seq<Backend> := [GptBackend, GeminiBackend, TogetherBackend, PerplexityBackend]

  /** A constructed model: its backend, the name it was built for, and its parallelism. */
  datatype Selected = Selected(backend: Backend, modelName: string, parallelism: int)

  function UnknownModel(name: string): Error
  {
    ValueError("Unknown model " + name)
  }

  /**
   * `get_model` as written: Together's `parallelism` is a property, so `model.parallelism()`
   * calls the integer 100 and raises a TypeError for the Llama model.
   */
  function GetModelAsWritten(v: Vendors, name: string): (r: Result<Selected, Error>)
    ensures FirstOwner(v, name, GetModelOrder).None? <==> r == Err(UnknownModel(name))
    ensures FirstOwner(v, name, GetModelOrder) == Some(TogetherBackend) <==>
              r == Err(TypeError("'int' object is not callable"))
  {
    FirstOwnerOfFour(v, name, TogetherBackend, GptBackend, GeminiBackend, PerplexityBackend);
    if name in TogetherLlmCall.KnownModels() then Err(TypeError("'int' object is not callable"))
    else if name in v.gpt.knownModels then Ok(Selected(GptBackend, name, v.gpt.parallelism))
    else if name in v.gemini.knownModels then Ok(Selected(GeminiBackend, name, v.gemini.parallelism))
    else if name in v.perplexity.knownModels then Ok(Selected(PerplexityBackend, name, v.perplexity.parallelism))
    else Err(UnknownModel(name))
  }

  /** The Llama name the Together catalog holds cannot be obtained from `get_model` as written. */
  lemma GetModelAsWrittenRejectsLlama(v: Vendors)
    ensures GetModelAsWritten(v, TogetherLlmCall.InternalName).Err?
    ensures GetModelAsWritten(v, TogetherLlmCall.InternalName).error.TypeError?
  {
  }

  /**
   * `get_model` as intended: the first catalog holding the name, tried in the order Together,
   * GPT, Gemini, Perplexity, decides the model; its parallelism is read as a value (100 for
   * Together). A name in no catalog raises "Unknown model".
   */
  function GetModel(v: Vendors, name: string): (r: Result<Selected, Error>)
    ensures r.Err? <==> FirstOwner(v, name, GetModelOrder).None?
    ensures r.Err? ==> r.error == UnknownModel(name)
    ensures r.Ok? ==> r.value.backend == FirstOwner(v, name, GetModelOrder).value
    ensures r.Ok? && r.value.backend == TogetherBackend ==>
              r.value == Selected(TogetherBackend, TogetherLlmCall.InternalName, TogetherLlmCall.Parallelism)
    ensures r.Ok? && r.value.backend == GptBackend ==> r.value == Selected(GptBackend, name, v.gpt.parallelism)
    ensures r.Ok? && r.value.backend == GeminiBackend ==> r.value == Selected(GeminiBackend, name, v.gemini.parallelism)
    ensures r.Ok? && r.value.backend == PerplexityBackend ==>
              r.value == Selected(PerplexityBackend, name, v.perplexity.parallelism)
  {
    FirstOwnerOfFour(v, name, TogetherBackend, GptBackend, GeminiBackend, PerplexityBackend);
    if name in TogetherLlmCall.KnownModels()
    then Ok(Selected(TogetherBackend, TogetherLlmCall.InternalName, TogetherLlmCall.Parallelism))
    else if name in v.gpt.knownModels then Ok(Selected(GptBackend, name, v.gpt.parallelism))
    else if name in v.gemini.knownModels then Ok(Selected(GeminiBackend, name, v.gemini.parallelism))
    else if name in v.perplexity.knownModels then Ok(Selected(PerplexityBackend, name, v.perplexity.parallelism))
    else Err(UnknownModel(name))
  }

  /** The corrected `get_model` returns the Llama model with parallelism 100, and agrees with the original elsewhere. */
  lemma GetModelCorrected(v: Vendors, name: string)
    ensures GetModel(v, TogetherLlmCall.InternalName) ==
              Ok(Selected(TogetherBackend, TogetherLlmCall.InternalName, 100))
    ensures FirstOwner(v, name, GetModelOrder) != Some(TogetherBackend) ==>
              GetModel(v, name) == GetModelAsWritten(v, name)
  {
  }

  /**
   * `display_name`: the vendor label and the display name, from the first catalog holding the
   * name in the order GPT, Gemini, Together, Perplexity; Perplexity's vendor comes from its
   * `model_vendor`. A name in no catalog raises "Unknown model".
   */
  function DisplayName(v: Vendors, name: string): (r: Result<(string, string), Error>)
    ensures r.Err? <==> FirstOwner(v, name, DisplayOrder).None?
    ensures r.Err? ==> r.error == UnknownModel(name)
    ensures FirstOwner(v, name, DisplayOrder) == Some(GptBackend) ==> r == Ok(("Open AI", v.gpt.displayName(name)))
    ensures FirstOwner(v, name, DisplayOrder) == Some(GeminiBackend) ==> r == Ok(("Google", v.gemini.displayName(name)))
    ensures FirstOwner(v, name, DisplayOrder) == Some(TogetherBackend) ==>
              r == Ok(("Meta", TogetherLlmCall.DisplayName(name)))
    ensures FirstOwner(v, name, DisplayOrder) == Some(PerplexityBackend) ==>
              r == Ok((v.perplexityVendor(name), v.perplexity.displayName(name)))
  {
    FirstOwnerOfFour(v, name, GptBackend, GeminiBackend, TogetherBackend, PerplexityBackend);
    if name in v.gpt.knownModels then Ok(("Open AI", v.gpt.displayName(name)))
    else if name in v.gemini.knownModels then Ok(("Google", v.gemini.displayName(name)))
    else if name in TogetherLlmCall.KnownModels() then Ok(("Meta", TogetherLlmCall.DisplayName(name)))
    else if name in v.perplexity.knownModels then Ok((v.perplexityVendor(name), v.perplexity.displayName(name)))
    else Err(UnknownModel(name))
  }

  /** Both lookups fail on exactly the same names. */
  lemma LookupsFailTogether(v: Vendors, name: string)
    ensures GetModel(v, name).Err? <==> DisplayName(v, name).Err?
  {
    FirstOwnerOfFour(v, name, TogetherBackend, GptBackend, GeminiBackend, PerplexityBackend);
    FirstOwnerOfFour(v, name, GptBackend, GeminiBackend, TogetherBackend, PerplexityBackend);
  }

  /**
   * The two precedences differ: a name in both the GPT and the Together catalogs is built as
   * the Together model but displayed under the Open AI vendor.
   */
  lemma PrecedencesDisagree(v: Vendors)
    requires TogetherLlmCall.InternalName in v.gpt.knownModels
    ensures GetModel(v, TogetherLlmCall.InternalName).value.backend == TogetherBackend
    ensures DisplayName(v, TogetherLlmCall.InternalName).value.0 == "Open AI"
  {
  }

  // ------------------------------------------------------------------
  // known_models
  // ------------------------------------------------------------------

  /** The name prefixes of models the registry does not offer. */
  const BadPrefixes: seq<string> :=
    ["babbage", "dall-e", "davinci", "mistral", "mixtral", "text-embedding", "tts-", "whisper", "codellama"]

  /** `any(m.startswith(p) for p in prefixes)`. */
  function AnyPrefix(m: string, prefixes: seq<string>): (b: bool)
    ensures b <==> exists i :: 0 <= i < |prefixes| && prefixes[i] <= m
  {
    if prefixes == [] then false
    else if prefixes[0] <= m then true
    else
      var b := AnyPrefix(m, prefixes[1..]);
      assert forall i :: 1 <= i < |prefixes| ==> prefixes[i] == prefixes[1..][i - 1];
      b
  }

  /** The union of the four catalogs. */
  function AllCatalogs(v: Vendors): set<string>
  {
    v.gpt.knownModels + v.gemini.knownModels + TogetherLlmCall.KnownModels() + v.perplexity.knownModels
  }

  /** `known_models`: every catalogued name that starts with none of the bad prefixes, and no other. */
  function KnownModels(v: Vendors): (r: set<string>)
    ensures r <= AllCatalogs(v)
    ensures forall m :: m in r <==>
              && (exists b: Backend :: m in Catalog(v, b))
              && forall i :: 0 <= i < |BadPrefixes| ==> !(BadPrefixes[i] <= m)
  {
    var r := set m | m in AllCatalogs(v) && !AnyPrefix(m, BadPrefixes);
    assert forall m :: m in AllCatalogs(v) <==> exists b: Backend :: m in Catalog(v, b) by {
      forall m | m in AllCatalogs(v) ensures exists b: Backend :: m in Catalog(v, b) {
        if m in v.gpt.knownModels { assert m in Catalog(v, GptBackend); }
        else if m in v.gemini.knownModels { assert m in Catalog(v, GeminiBackend); }
        else if m in TogetherLlmCall.KnownModels() { assert m in Catalog(v, TogetherBackend); }
        else { assert m in Catalog(v, PerplexityBackend); }
      }
    }
    r
  }

  /** The Llama model survives the filter; a DaVinci model in the GPT catalog does not. */
  lemma KnownModelsExamples(v: Vendors)
    ensures TogetherLlmCall.InternalName in KnownModels(v)
    ensures "davinci-002" !in KnownModels(v)
  {
    assert TogetherLlmCall.InternalName in Catalog(v, TogetherBackend);
    forall i | 0 <= i < |BadPrefixes| ensures !(BadPrefixes[i] <= TogetherLlmCall.InternalName) {
      assert BadPrefixes[i][0] != TogetherLlmCall.InternalName[0];
    }
    assert BadPrefixes[2] <= "davinci-002";
  }

  // ------------------------------------------------------------------
  // latest_models and sort_by_latest_models
  // ------------------------------------------------------------------

  /** The vendor label the registry prints for a backend's models. */
  function Label(b: Backend): string
  {
    match b
    case GptBackend => "Open AI"
    case GeminiBackend => "Google"
    case TogetherBackend => "Meta"
    case PerplexityBackend => "Perplexity"
  }

  /** A backend's ordered models among `models` (Perplexity's `order_perplexity_models`). */
  function OrderOf(v: Vendors, models: seq<string>, b: Backend): seq<string>
  {
    match b
    case GptBackend => v.gpt.orderModels(models)
    case GeminiBackend => v.gemini.orderModels(models)
    case TogetherBackend => TogetherLlmCall.OrderModels(models)
    case PerplexityBackend => v.perplexity.orderModels(models)
  }

  /** A backend's `display_name`. */
  function DisplayOf(v: Vendors, b: Backend): string -> string
  {
    match b
    case GptBackend => v.gpt.displayName
    case GeminiBackend => v.gemini.displayName
    case TogetherBackend => TogetherLlmCall.DisplayName
    case PerplexityBackend => v.perplexity.displayName
  }

  /**
   * `latest_models`: under each vendor label, the first of that vendor's ordered models and its
   * display name, for exactly the vendors with at least one.
   */
  method LatestModels(v: Vendors, models: seq<string>) returns (result: map<string, (string, string)>)
    ensures result.Keys <= {"Open AI", "Google", "Meta", "Perplexity"}
    ensures forall b: Backend :: Label(b) in result <==> OrderOf(v, models, b) != []
    ensures forall b: Backend :: Label(b) in result ==>
              result[Label(b)] == (OrderOf(v, models, b)[0], DisplayOf(v, b)(OrderOf(v, models, b)[0]))
  {
    result := map[];
    var gpt := v.gpt.orderModels(models);
    if |gpt| > 0 {
      result := result["Open AI" := (gpt[0], v.gpt.displayName(gpt[0]))];
    }
    var gemini := v.gemini.orderModels(models);
    if |gemini| > 0 {
      result := result["Google" := (gemini[0], v.gemini.displayName(gemini[0]))];
    }
    var llama := TogetherLlmCall.OrderModels(models);
    if |llama| > 0 {
      result := result["Meta" := (llama[0], TogetherLlmCall.DisplayName(llama[0]))];
    }
    var perplexity := v.perplexity.orderModels(models);
    if |perplexity| > 0 {
      result := result["Perplexity" := (perplexity[0], v.perplexity.displayName(perplexity[0]))];
    }
  }

  /** A listing: the backend whose label it carries, the model name, the display name. */
  type Listing = (Backend, (string, string))

  /** Every model of `ms` with its display name, under backend `b`. */
  function Labelled(v: Vendors, b: Backend, ms: seq<string>): (r: seq<Listing>)
    ensures |r| == |ms|
    ensures forall i :: 0 <= i < |ms| ==> r[i] == (b, (ms[i], DisplayOf(v, b)(ms[i])))
  {
    if ms == [] then [] else [(b, (ms[0], DisplayOf(v, b)(ms[0])))] + Labelled(v, b, ms[1..])
  }

  /** `ms[1:]`. */
  function Rest(ms: seq<string>): seq<string>
  {
    ms[Min(1, |ms|)..]
  }

  /** `[... for m in xs[:1]]` for one vendor. */
  function HeadOf(v: Vendors, models: seq<string>, b: Backend): seq<Listing>
  {
    Labelled(v, b, PyPrefix(OrderOf(v, models, b), 1))
  }

  /** `[... for m in xs[:1]]` per vendor, in the order Open AI, Google, Meta, Perplexity. */
  function Heads(v: Vendors, models: seq<string>): seq<Listing>
  {
    HeadOf(v, models, GptBackend) + HeadOf(v, models, GeminiBackend)
    + HeadOf(v, models, TogetherBackend) + HeadOf(v, models, PerplexityBackend)
  }

  /** `[... for m in xs[1:]]` per vendor, in the same vendor order. */
  function Tails(v: Vendors, models: seq<string>): seq<Listing>
  {
    Labelled(v, GptBackend, Rest(OrderOf(v, models, GptBackend)))
    + Labelled(v, GeminiBackend, Rest(OrderOf(v, models, GeminiBackend)))
    + Labelled(v, TogetherBackend, Rest(OrderOf(v, models, TogetherBackend)))
    + Labelled(v, PerplexityBackend, Rest(OrderOf(v, models, PerplexityBackend)))
  }

  /**
   * `sort_by_latest_models`: the head of each vendor's ordered models in the order Open AI,
   * Google, Meta, Perplexity, then the rest of each vendor's models in the same vendor order.
   */
  function SortByLatestModels(v: Vendors, models: seq<string>): (r: seq<Listing>)
    ensures |r| == |OrderOf(v, models, GptBackend)| + |OrderOf(v, models, GeminiBackend)|
                   + |OrderOf(v, models, TogetherBackend)| + |OrderOf(v, models, PerplexityBackend)|
  {
    Heads(v, models) + Tails(v, models)
  }

  /** The model name of one listing when it is under backend `b`. */
  function Own(b: Backend, l: Listing): seq<string>
  {
    if l.0 == b then [l.1.0] else []
  }

  /** The model names of the listings under backend `b`, in order. */
  function ModelsUnder(b: Backend, ls: seq<Listing>): seq<string>
  {
    if ls == [] then [] else Own(b, ls[0]) + ModelsUnder(b, ls[1..])
  }

  lemma ModelsUnderCons(b: Backend, l: Listing, zs: seq<Listing>)
    ensures ModelsUnder(b, [l] + zs) == Own(b, l) + ModelsUnder(b, zs)
  {
    assert ([l] + zs)[0] == l && ([l] + zs)[1..] == zs;
  }

  lemma {:induction false} ModelsUnderAppend(b: Backend, xs: seq<Listing>, ys: seq<Listing>)
    ensures ModelsUnder(b, xs + ys) == ModelsUnder(b, xs) + ModelsUnder(b, ys)
    decreases |xs|
  {
    if xs == [] {
      assert xs + ys == ys;
    } else {
      var t := xs[1..];
      assert xs == [xs[0]] + t;
      assert xs + ys == [xs[0]] + (t + ys);
      ModelsUnderAppend(b, t, ys);
      ModelsUnderCons(b, xs[0], t + ys);
      ModelsUnderCons(b, xs[0], t);
      assert Own(b, xs[0]) + (ModelsUnder(b, t) + ModelsUnder(b, ys))
          == (Own(b, xs[0]) + ModelsUnder(b, t)) + ModelsUnder(b, ys);
    }
  }

  lemma {:induction false} ModelsUnderLabelled(b: Backend, other: Backend, v: Vendors, ms: seq<string>)
    ensures ModelsUnder(b, Labelled(v, other, ms)) == if b == other then ms else []
    decreases |ms|
  {
    if ms != [] {
      var hd: Listing := (other, (ms[0], DisplayOf(v, other)(ms[0])));
      var rest := Labelled(v, other, ms[1..]);
      assert Labelled(v, other, ms) == [hd] + rest;
      ModelsUnderLabelled(b, other, v, ms[1..]);
      ModelsUnderCons(b, hd, rest);
      if b == other {
        assert ms == [ms[0]] + ms[1..];
      }
    }
  }

  /** The one of four per-vendor values that belongs to `b`. */
  function Pick<T>(b: Backend, x0: T, x1: T, x2: T, x3: T): T
  {
    match b
    case GptBackend => x0
    case GeminiBackend => x1
    case TogetherBackend => x2
    case PerplexityBackend => x3
  }

  /** The models under one backend of four parts labelled in vendor order. */
  lemma ModelsUnderFour(b: Backend, v: Vendors, m0: seq<string>, m1: seq<string>, m2: seq<string>, m3: seq<string>)
    ensures ModelsUnder(b, Labelled(v, GptBackend, m0) + Labelled(v, GeminiBackend, m1)
                           + Labelled(v, TogetherBackend, m2) + Labelled(v, PerplexityBackend, m3))
            == Pick(b, m0, m1, m2, m3)
  {
    var l0 := Labelled(v, GptBackend, m0);
    var l1 := Labelled(v, GeminiBackend, m1);
    var l2 := Labelled(v, TogetherBackend, m2);
    var l3 := Labelled(v, PerplexityBackend, m3);
    ModelsUnderLabelled(b, GptBackend, v, m0);
    ModelsUnderLabelled(b, GeminiBackend, v, m1);
    ModelsUnderLabelled(b, TogetherBackend, v, m2);
    ModelsUnderLabelled(b, PerplexityBackend, v, m3);
    ModelsUnderPick(b, l0, l1, l2, l3, m0, m1, m2, m3);
  }

  /** Four listings, each holding models under its own vendor only, joined in vendor order. */
  lemma ModelsUnderPick(b: Backend, l0: seq<Listing>, l1: seq<Listing>, l2: seq<Listing>, l3: seq<Listing>,
                        m0: seq<string>, m1: seq<string>, m2: seq<string>, m3: seq<string>)
    requires ModelsUnder(b, l0) == if b == GptBackend then m0 else []
    requires ModelsUnder(b, l1) == if b == GeminiBackend then m1 else []
    requires ModelsUnder(b, l2) == if b == TogetherBackend then m2 else []
    requires ModelsUnder(b, l3) == if b == PerplexityBackend then m3 else []
    ensures ModelsUnder(b, l0 + l1 + l2 + l3) == Pick(b, m0, m1, m2, m3)
  {
    ModelsUnderJoin(b, l0, l1, l2, l3);
    match b
    case GptBackend => assert m0 + [] + [] + [] == m0;
    case GeminiBackend => assert [] + m1 + [] + [] == m1;
    case TogetherBackend => assert [] + [] + m2 + [] == m2;
    case PerplexityBackend => assert [] + [] + [] + m3 == m3;
  }

  /** The models under `b` of four joined listings are those of each listing, joined. */
  lemma ModelsUnderJoin(b: Backend, l0: seq<Listing>, l1: seq<Listing>, l2: seq<Listing>, l3: seq<Listing>)
    ensures ModelsUnder(b, l0 + l1 + l2 + l3)
            == ModelsUnder(b, l0) + ModelsUnder(b, l1) + ModelsUnder(b, l2) + ModelsUnder(b, l3)
  {
    ModelsUnderAppend(b, l0 + l1 + l2, l3);
    ModelsUnderAppend(b, l0 + l1, l2);
    ModelsUnderAppend(b, l0, l1);
  }

  /** Splitting off the head and rejoining it gives the list back. */
  lemma HeadRest(ms: seq<string>)
    ensures PyPrefix(ms, 1) + Rest(ms) == ms
  {
  }

  lemma PickOrder(v: Vendors, models: seq<string>, b: Backend)
    ensures Pick(b, OrderOf(v, models, GptBackend), OrderOf(v, models, GeminiBackend),
                 OrderOf(v, models, TogetherBackend), OrderOf(v, models, PerplexityBackend)) == OrderOf(v, models, b)
  {
  }

  /** The models under `b` in the head part and in the tail part of the listing. */
  lemma ModelsUnderHeadsTails(v: Vendors, models: seq<string>, b: Backend)
    ensures ModelsUnder(b, Heads(v, models)) == PyPrefix(OrderOf(v, models, b), 1)
    ensures ModelsUnder(b, Tails(v, models)) == Rest(OrderOf(v, models, b))
  {
    var o0, o1, o2, o3 := OrderOf(v, models, GptBackend), OrderOf(v, models, GeminiBackend),
                          OrderOf(v, models, TogetherBackend), OrderOf(v, models, PerplexityBackend);
    ModelsUnderFour(b, v, PyPrefix(o0, 1), PyPrefix(o1, 1), PyPrefix(o2, 1), PyPrefix(o3, 1));
    ModelsUnderFour(b, v, Rest(o0), Rest(o1), Rest(o2), Rest(o3));
    PickOrder(v, models, b);
    assert Pick(b, PyPrefix(o0, 1), PyPrefix(o1, 1), PyPrefix(o2, 1), PyPrefix(o3, 1))
           == PyPrefix(Pick(b, o0, o1, o2, o3), 1);
    assert Pick(b, Rest(o0), Rest(o1), Rest(o2), Rest(o3)) == Rest(Pick(b, o0, o1, o2, o3));
  }

  /**
   * Under each vendor the listing holds exactly that vendor's ordered models, in their order:
   * nothing is lost, duplicated or moved across vendors.
   */
  lemma SortByLatestModelsPerVendor(v: Vendors, models: seq<string>, b: Backend)
    ensures ModelsUnder(b, SortByLatestModels(v, models)) == OrderOf(v, models, b)
  {
    ModelsUnderAppend(b, Heads(v, models), Tails(v, models));
    ModelsUnderHeadsTails(v, models, b);
    HeadRest(OrderOf(v, models, b));
  }

  /** How many of the four vendors have at least one ordered model. */
  function VendorsWithModels(v: Vendors, models: seq<string>): nat
  {
    (if OrderOf(v, models, GptBackend) != [] then 1 else 0)
    + (if OrderOf(v, models, GeminiBackend) != [] then 1 else 0)
    + (if OrderOf(v, models, TogetherBackend) != [] then 1 else 0)
    + (if OrderOf(v, models, PerplexityBackend) != [] then 1 else 0)
  }

  /** The position of a backend in the listing's vendor order. */
  function Rank(b: Backend): int
  {
    match b
    case GptBackend => 0
    case GeminiBackend => 1
    case TogetherBackend => 2
    case PerplexityBackend => 3
  }

  /** Every listing of `s` is its vendor's first model, of a vendor ranked `lo` or later. */
  ghost predicate AreHeads(v: Vendors, models: seq<string>, s: seq<Listing>, lo: int)
  {
    forall i :: 0 <= i < |s| ==>
      && lo <= Rank(s[i].0)
      && OrderOf(v, models, s[i].0) != []
      && s[i].1.0 == OrderOf(v, models, s[i].0)[0]
  }

  /** The vendors of `s` are strictly in the listing's vendor order. */
  ghost predicate StrictlyRanked(s: seq<Listing>)
  {
    forall i, j :: 0 <= i < j < |s| ==> Rank(s[i].0) < Rank(s[j].0)
  }

  /** The head part of one vendor: at most one listing, that vendor's first model. */
  lemma HeadPart(v: Vendors, models: seq<string>, b: Backend)
    ensures var h := Labelled(v, b, PyPrefix(OrderOf(v, models, b), 1));
            && |h| <= 1
            && (|h| == 1 <==> OrderOf(v, models, b) != [])
            && (|h| == 1 ==> h[0].0 == b && h[0].1.0 == OrderOf(v, models, b)[0])
  {
  }

  /** What `HeadPart` says of a vendor's head part `h`. */
  ghost predicate IsHeadPart(v: Vendors, models: seq<string>, b: Backend, h: seq<Listing>)
  {
    && |h| <= 1
    && (|h| == 1 ==> h[0].0 == b && OrderOf(v, models, b) != [] && h[0].1.0 == OrderOf(v, models, b)[0])
  }

  lemma AreHeadsPrepend(v: Vendors, models: seq<string>, b: Backend, h: seq<Listing>, s: seq<Listing>)
    requires IsHeadPart(v, models, b, h) && AreHeads(v, models, s, Rank(b) + 1)
    ensures AreHeads(v, models, h + s, Rank(b))
  {
    var t := h + s;
    forall i | 0 <= i < |t|
      ensures Rank(b) <= Rank(t[i].0)
      ensures OrderOf(v, models, t[i].0) != [] && t[i].1.0 == OrderOf(v, models, t[i].0)[0]
    {
      if i < |h| {
        assert t[i] == h[0];
      } else {
        assert t[i] == s[i - |h|];
      }
    }
  }

  /** Every listing of `s` has a vendor ranked `lo` or later. */
  ghost predicate RankedFrom(s: seq<Listing>, lo: int)
  {
    forall i :: 0 <= i < |s| ==> lo <= Rank(s[i].0)
  }

  lemma StrictlyRankedPrepend(v: Vendors, models: seq<string>, b: Backend, h: seq<Listing>, s: seq<Listing>)
    requires IsHeadPart(v, models, b, h) && RankedFrom(s, Rank(b) + 1) && StrictlyRanked(s)
    ensures StrictlyRanked(h + s)
  {
    if |h| == 0 {
      assert h + s == s;
    } else {
      var t := h + s;
      forall i, j | 0 <= i < j < |t| ensures Rank(t[i].0) < Rank(t[j].0) {
        assert t[j] == s[j - 1];
        if i == 0 {
          assert t[i] == h[0];
        } else {
          assert t[i] == s[i - 1];
        }
      }
    }
  }

  lemma HeadsPrepend(v: Vendors, models: seq<string>, b: Backend, s: seq<Listing>)
    requires AreHeads(v, models, s, Rank(b) + 1) && StrictlyRanked(s)
    ensures var t := HeadOf(v, models, b) + s;
            AreHeads(v, models, t, Rank(b)) && StrictlyRanked(t)
  {
    var h := HeadOf(v, models, b);
    HeadPart(v, models, b);
    assert IsHeadPart(v, models, b, h);
    AreHeadsPrepend(v, models, b, h, s);
    assert RankedFrom(s, Rank(b) + 1);
    StrictlyRankedPrepend(v, models, b, h, s);
  }

  /** The head part has one listing per vendor with models. */
  lemma HeadsLength(v: Vendors, models: seq<string>)
    ensures |Heads(v, models)| == VendorsWithModels(v, models)
  {
    HeadPart(v, models, GptBackend);
    HeadPart(v, models, GeminiBackend);
    HeadPart(v, models, TogetherBackend);
    HeadPart(v, models, PerplexityBackend);
  }

  lemma HeadsFromPerplexity(v: Vendors, models: seq<string>)
    ensures var t := HeadOf(v, models, PerplexityBackend);
            AreHeads(v, models, t, 3) && StrictlyRanked(t)
  {
    assert AreHeads(v, models, [], 4) && StrictlyRanked([]);
    HeadsPrepend(v, models, PerplexityBackend, []);
    assert HeadOf(v, models, PerplexityBackend) + [] == HeadOf(v, models, PerplexityBackend);
  }

  lemma HeadsFromTogether(v: Vendors, models: seq<string>)
    ensures var t := HeadOf(v, models, TogetherBackend) + HeadOf(v, models, PerplexityBackend);
            AreHeads(v, models, t, 2) && StrictlyRanked(t)
  {
    HeadsFromPerplexity(v, models);
    HeadsPrepend(v, models, TogetherBackend, HeadOf(v, models, PerplexityBackend));
  }

  lemma HeadsFromGemini(v: Vendors, models: seq<string>)
    ensures var t := HeadOf(v, models, GeminiBackend)
                     + (HeadOf(v, models, TogetherBackend) + HeadOf(v, models, PerplexityBackend));
            AreHeads(v, models, t, 1) && StrictlyRanked(t)
  {
    HeadsFromTogether(v, models);
    HeadsPrepend(v, models, GeminiBackend, HeadOf(v, models, TogetherBackend) + HeadOf(v, models, PerplexityBackend));
  }

  /** Concatenation of four listings, regrouped to the right. */
  lemma Associate(a: seq<Listing>, b: seq<Listing>, c: seq<Listing>, d: seq<Listing>)
    ensures a + b + c + d == a + (b + (c + d))
  {
  }

  lemma HeadsAssociate(v: Vendors, models: seq<string>)
    ensures Heads(v, models) == HeadOf(v, models, GptBackend) + (HeadOf(v, models, GeminiBackend)
              + (HeadOf(v, models, TogetherBackend) + HeadOf(v, models, PerplexityBackend)))
  {
    Associate(HeadOf(v, models, GptBackend), HeadOf(v, models, GeminiBackend),
              HeadOf(v, models, TogetherBackend), HeadOf(v, models, PerplexityBackend));
  }

  /** The head part lists vendors by their first model, in vendor order. */
  lemma HeadsInOrder(v: Vendors, models: seq<string>)
    ensures AreHeads(v, models, Heads(v, models), 0) && StrictlyRanked(Heads(v, models))
  {
    var l0, l1 := HeadOf(v, models, GptBackend), HeadOf(v, models, GeminiBackend);
    var l2, l3 := HeadOf(v, models, TogetherBackend), HeadOf(v, models, PerplexityBackend);
    HeadsAssociate(v, models);
    HeadsFromGemini(v, models);
    HeadsPrepend(v, models, GptBackend, l1 + (l2 + l3));
  }

  /**
   * The heads come first: each of the first k listings, k the number of vendors with models,
   * is its vendor's first model, and their vendors follow the order Open AI, Google, Meta,
   * Perplexity, so each such vendor appears there once.
   */
  lemma SortByLatestModelsHeadsFirst(v: Vendors, models: seq<string>)
    ensures var r := SortByLatestModels(v, models);
            var k := VendorsWithModels(v, models);
            && k <= |r|
            && (forall i :: 0 <= i < k ==>
                  && OrderOf(v, models, r[i].0) != []
                  && r[i].1.0 == OrderOf(v, models, r[i].0)[0])
            && (forall i, j :: 0 <= i < j < k ==> Rank(r[i].0) < Rank(r[j].0))
  {
    HeadsInOrder(v, models);
    HeadsLength(v, models);
    var heads := Heads(v, models);
    var r := SortByLatestModels(v, models);
    assert forall i :: 0 <= i < |heads| ==> r[i] == heads[i];
  }

  /** The vendors of `s` never go back in the listing's vendor order. */
  ghost predicate RankOrdered(s: seq<Listing>)
  {
    forall i, j :: 0 <= i < j < |s| ==> Rank(s[i].0) <= Rank(s[j].0)
  }

  /** Putting one vendor's block in front of later-ranked listings keeps the vendor order. */
  lemma RankOrderedPrepend(h: seq<Listing>, b: Backend, s: seq<Listing>)
    requires forall i :: 0 <= i < |h| ==> h[i].0 == b
    requires RankOrdered(s) && RankedFrom(s, Rank(b))
    ensures RankOrdered(h + s) && RankedFrom(h + s, Rank(b))
  {
    var t := h + s;
    forall i | 0 <= i < |t| ensures Rank(b) <= Rank(t[i].0) {
      if i < |h| {
        assert t[i] == h[i];
      } else {
        assert t[i] == s[i - |h|];
      }
    }
    forall i, j | 0 <= i < j < |t| ensures Rank(t[i].0) <= Rank(t[j].0) {
      if j < |h| {
        assert t[i] == h[i] && t[j] == h[j];
      } else if i < |h| {
        assert t[i] == h[i] && t[j] == s[j - |h|];
      } else {
        assert t[i] == s[i - |h|] && t[j] == s[j - |h|];
      }
    }
  }

  /** The tail part lists the vendors in the order Open AI, Google, Meta, Perplexity. */
  lemma TailsInOrder(v: Vendors, models: seq<string>)
    ensures RankOrdered(Tails(v, models))
  {
    var l0 := Labelled(v, GptBackend, Rest(OrderOf(v, models, GptBackend)));
    var l1 := Labelled(v, GeminiBackend, Rest(OrderOf(v, models, GeminiBackend)));
    var l2 := Labelled(v, TogetherBackend, Rest(OrderOf(v, models, TogetherBackend)));
    var l3 := Labelled(v, PerplexityBackend, Rest(OrderOf(v, models, PerplexityBackend)));
    var s3 := l3 + [];
    RankOrderedPrepend(l3, PerplexityBackend, []);
    var s2 := l2 + s3;
    RankOrderedPrepend(l2, TogetherBackend, s3);
    var s1 := l1 + s2;
    RankOrderedPrepend(l1, GeminiBackend, s2);
    RankOrderedPrepend(l0, GptBackend, s1);
    assert s3 == l3;
    Associate(l0, l1, l2, l3);
  }

  /**
   * After the heads, the remaining listings follow the vendor order Open AI, Google, Meta,
   * Perplexity. With the per-vendor contents and the heads part, this fixes the listing.
   */
  lemma SortByLatestModelsTailsInOrder(v: Vendors, models: seq<string>)
    ensures var r := SortByLatestModels(v, models);
            var k := VendorsWithModels(v, models);
            forall i, j :: k <= i < j < |r| ==> Rank(r[i].0) <= Rank(r[j].0)
  {
    HeadsLength(v, models);
    TailsInOrder(v, models);
    SuffixRankOrdered(Heads(v, models), Tails(v, models));
  }

  /** Listings after a prefix `h` keep the vendor order of the suffix `t`. */
  lemma SuffixRankOrdered(h: seq<Listing>, t: seq<Listing>)
    requires RankOrdered(t)
    ensures forall i, j :: |h| <= i < j < |h + t| ==> Rank((h + t)[i].0) <= Rank((h + t)[j].0)
  {
    forall i, j | |h| <= i < j < |h + t| ensures Rank((h + t)[i].0) <= Rank((h + t)[j].0) {
      assert (h + t)[i] == t[i - |h|] && (h + t)[j] == t[j - |h|];
    }
  }

  /** Every listing of `s` carries its vendor's display name of its model. */
  ghost predicate DisplayOk(v: Vendors, s: seq<Listing>)
  {
    forall i :: 0 <= i < |s| ==> s[i].1.1 == DisplayOf(v, s[i].0)(s[i].1.0)
  }

  lemma DisplayOkAppend(v: Vendors, a: seq<Listing>, b: seq<Listing>)
    requires DisplayOk(v, a) && DisplayOk(v, b)
    ensures DisplayOk(v, a + b)
  {
    forall i | 0 <= i < |a + b| ensures (a + b)[i].1.1 == DisplayOf(v, (a + b)[i].0)((a + b)[i].1.0) {
      if i < |a| {
        assert (a + b)[i] == a[i];
      } else {
        assert (a + b)[i] == b[i - |a|];
      }
    }
  }

  /** Four one-vendor blocks, one per vendor in vendor order, carry the right display names. */
  lemma DisplayOkFour(v: Vendors, m0: seq<string>, m1: seq<string>, m2: seq<string>, m3: seq<string>)
    ensures DisplayOk(v, Labelled(v, GptBackend, m0) + Labelled(v, GeminiBackend, m1)
                         + Labelled(v, TogetherBackend, m2) + Labelled(v, PerplexityBackend, m3))
  {
    var l0, l1 := Labelled(v, GptBackend, m0), Labelled(v, GeminiBackend, m1);
    var l2, l3 := Labelled(v, TogetherBackend, m2), Labelled(v, PerplexityBackend, m3);
    assert DisplayOk(v, l0) && DisplayOk(v, l1) && DisplayOk(v, l2) && DisplayOk(v, l3);
    DisplayOkAppend(v, l0, l1);
    DisplayOkAppend(v, l0 + l1, l2);
    DisplayOkAppend(v, l0 + l1 + l2, l3);
  }

  /** Every listing of `sort_by_latest_models` carries its vendor's display name of its model. */
  lemma SortByLatestModelsDisplayNames(v: Vendors, models: seq<string>)
    ensures var r := SortByLatestModels(v, models);
            forall i :: 0 <= i < |r| ==> r[i].1.1 == DisplayOf(v, r[i].0)(r[i].1.0)
  {
    var o0, o1 := OrderOf(v, models, GptBackend), OrderOf(v, models, GeminiBackend);
    var o2, o3 := OrderOf(v, models, TogetherBackend), OrderOf(v, models, PerplexityBackend);
    DisplayOkFour(v, PyPrefix(o0, 1), PyPrefix(o1, 1), PyPrefix(o2, 1), PyPrefix(o3, 1));
    DisplayOkFour(v, Rest(o0), Rest(o1), Rest(o2), Rest(o3));
    DisplayOkAppend(v, Heads(v, models), Tails(v, models));
  }
}
