// Python's `from module import a, b, ...` as it applies to the reranker
// service: the statement binds its names in order and raises `ImportError`
// at the first one the module does not define. The backend's retrieval
// router and the diversification evaluation both import
// `score_candidates` from apps/backend/app/services/reranker.py, which
// defines no such name.
module ModuleImports {
  import opened Wrappers

  datatype ImportError = ImportError(name: string)

  /** `from m import names`, where `bound` is every top-level name of `m`:
      the names themselves, or an `ImportError` for the first name that
      `m` lacks. */
  function ImportFrom(bound: set<string>, names: seq<string>): (r: Result<seq<string>, ImportError>)
    ensures r.Ok? <==> forall i :: 0 <= i < |names| ==> names[i] in bound
    ensures r.Ok? ==> r.value == names
    ensures r.Err? ==> exists i :: 0 <= i < |names| && names[i] == r.error.name && names[i] !in bound
                                   && forall j :: 0 <= j < i ==> names[j] in bound
  {
    if names == [] then Ok([])
    else if names[0] !in bound then Err(ImportError(names[0]))
    else match ImportFrom(bound, names[1..])
      case Err(e) => Err(e)
      case Ok(rest) => Ok([names[0]] + rest)
  }

  /** Every top-level name of apps/backend/app/services/reranker.py: its
      imports, constants, caches, logger and functions. */
  const RerankerNames: set<string> := {
    "json", "logging", "os", "datetime", "joblib", "np",
    "build_user_vector", "get_user_click_history", "parse_time", "parse_vector",
    "DEFAULT_MODEL_PATH", "DEFAULT_CONFIG_PATH", "_MODEL", "_CONFIG", "logger",
    "load_model", "get_item_embeddings", "get_news_categories", "compute_features", "rerank"}

  /** The names the retrieval router takes from the reranker module. */
  const RouterImport: seq<string> := ["rerank", "score_candidates"]

  /** The name the diversification evaluation takes from it. */
  const EvalImport: seq<string> := ["score_candidates"]

  /** As written, both imports fail on `score_candidates`, so the retrieval
      router does not load, and neither does the application that imports
      it. */
  lemma ScoreCandidatesUnbound()
    ensures ImportFrom(RerankerNames, RouterImport) == Err(ImportError("score_candidates"))
    ensures ImportFrom(RerankerNames, EvalImport) == Err(ImportError("score_candidates"))
  {
    assert "score_candidates" !in RerankerNames;
    assert "rerank" in RerankerNames;
  }

  /** A module that also defines `score_candidates` satisfies both imports. */
  lemma ScoreCandidatesBound(bound: set<string>)
    requires RerankerNames + {"score_candidates"} <= bound
    ensures ImportFrom(bound, RouterImport) == Ok(RouterImport)
    ensures ImportFrom(bound, EvalImport) == Ok(EvalImport)
  {
    assert RouterImport[0] in bound && RouterImport[1] in bound;
    assert EvalImport[0] in bound;
  }
}
