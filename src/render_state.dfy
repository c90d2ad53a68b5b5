/**
  The state every single-asset renderer keeps with `useState`: whether a
  load is in progress, whether it failed, and the loaded text or URL, and
  the steps its loading effect takes on that state.
*/
module RenderState {
  import opened Wrappers

  /** What the store's loader delivers for a key: the text or URL, or a
      rejected promise. */
  datatype LoadOutcome = Loaded(text: string) | LoadFailed

  /** JavaScript truthiness of a nullable string. */
  predicate Present(s: Option<string>)
  {
    s.Some? && s.value != ""
  }

  class LoadState {
    var loading: bool
    var error: bool
    var content: Option<string>

    /** `useState(null)`, `useState(true)`, `useState(false)`. */
    constructor()
      ensures loading && !error && content == None
    {
      loading, error, content := true, false, None;
    }

    /** `setLoading(true); setError(false);` at the start of every run. */
    method Begin()
      modifies this
      ensures loading && !error && content == old(content)
    {
      loading, error := true, false;
    }

    /** `setError(true); setLoading(false); return;` when the path has no
        loader: nothing is loaded. */
    method Missing()
      modifies this
      ensures !loading && error && content == old(content)
    {
      error, loading := true, false;
    }

    /** The `try`/`catch`/`finally` after the loader settles: the value is
        stored on success, the error flag is raised on failure, and loading
        ends either way. */
    method Settle(value: Option<string>)
      modifies this
      ensures !loading
      ensures value.Some? ==> content == value && error == old(error)
      ensures value.None? ==> error && content == old(content)
    {
      if value.Some? {
        content := value;
      } else {
        error := true;
      }
      loading := false;
    }
  }

  /** React's dependency check for an effect: the effect runs on the first
      render and whenever one of its dependencies differs from the last run. */
  class EffectGate {
    var deps: Option<seq<string>>

    constructor()
      ensures deps == None
    {
      deps := None;
    }

    method Changed(current: seq<string>) returns (run: bool)
      modifies this
      ensures run <==> old(deps) != Some(current)
      ensures deps == Some(current)
    {
      run := deps != Some(current);
      deps := Some(current);
    }
  }

  /** The single-asset effects have no cancellation flag. When the props
      change while a load is pending, both runs commit, in the order their
      loaders settle: if the superseded run settles last, its outcome is
      what the component ends up showing. */
  method StaleSettlesLast(s: LoadState, current: Option<string>, stale: Option<string>)
    modifies s
    ensures !s.loading
    ensures stale.Some? ==> s.content == stale
    ensures stale.Some? ==> s.error == current.None?
    ensures stale.None? ==> s.error
    ensures stale.None? && current.Some? ==> s.content == current
  {
    s.Begin();
    s.Begin();
    s.Settle(current);
    s.Settle(stale);
  }
}
