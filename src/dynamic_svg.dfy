/**
  src/hooks/useDynamicSVG.ts: loads every part file of one fraction of a
  shape, all or nothing, into the state of the component that uses it. A
  run whose effect has been cleaned up commits nothing.
*/
module DynamicSvg {
  import opened Wrappers
  import opened Strings
  import opened Catalog
  import opened AssetStore
  import opened FractionKeys

  const PartsRoot: string := "/src/assets/shape_parts/"

  /** `/src/assets/shape_parts/{shape}/{numerator}:{denominator}/` */
  function PartPrefix(shape: Shape, numerator: int, denominator: int): string
  {
    PartsRoot + ShapeName(shape) + "/" + Encode(numerator, denominator) + "/"
  }

  /** The candidate files of a fraction, in string order. */
  function PartPaths(store: Store, shape: Shape, numerator: int, denominator: int): (paths: seq<string>)
    ensures SortedLex(paths)
    ensures forall p :: p in paths <==> p in store && StartsWith(p, PartPrefix(shape, numerator, denominator)) && EndsWith(p, ".svg")
  {
    SortedMatches(store, PartPrefix(shape, numerator, denominator), ".svg")
  }

  /** Different fractions of a shape never share a candidate file: the
      numerator and denominator are read back from the directory name. */
  lemma FractionsDisjoint(shape: Shape, n1: int, d1: int, n2: int, d2: int, key: string)
    requires StartsWith(key, PartPrefix(shape, n1, d1)) && StartsWith(key, PartPrefix(shape, n2, d2))
    ensures n1 == n2 && d1 == d2
  {
    assert Encode(n1, d1) == Encode(n2, d2) by {
      if Encode(n1, d1) != Encode(n2, d2) {
        DirectoriesDisjoint(PartsRoot + ShapeName(shape) + "/", Encode(n1, d1), Encode(n2, d2), key);
      }
    }
    EncodeInjective(n1, d1, n2, d2);
  }

  /** What one loader call delivers: the text, a value that is not a
      string, or a rejection. */
  datatype PartOutcome = PartText(text: string) | PartNotString | PartFailed

  function FailedMessage(path: string): string
  {
    "Failed to load SVG: " + path
  }

  /** `Promise.all` over the loaders, one outcome per path in path order:
      every text in order, or the error of the first failing path. */
  function LoadAll(paths: seq<string>, outcomes: seq<PartOutcome>): (r: Result<seq<string>, string>)
    requires |outcomes| == |paths|
    ensures r.Ok? <==> forall i :: 0 <= i < |paths| ==> outcomes[i].PartText?
    ensures r.Ok? ==> |r.value| == |paths| && forall i :: 0 <= i < |paths| ==> r.value[i] == outcomes[i].text
    ensures r.Err? ==> exists i :: 0 <= i < |paths| && !outcomes[i].PartText? && r.error == FailedMessage(paths[i])
  {
    if paths == [] then Ok([])
    else if outcomes[0].PartText? then
      var rest := LoadAll(paths[1..], outcomes[1..]);
      if rest.Ok? then
        Ok([outcomes[0].text] + rest.value)
      else
        var i :| 0 <= i < |paths| - 1 && !outcomes[1..][i].PartText? && rest.error == FailedMessage(paths[1..][i]);
        assert !outcomes[i + 1].PartText? && rest.error == FailedMessage(paths[i + 1]);
        rest
    else Err(FailedMessage(paths[0]))
  }

  function NoFilesMessage(shape: Shape, numerator: int, denominator: int): string
  {
    "No SVG files found for " + ShapeName(shape) + " " + IntToString(numerator) + "/" + IntToString(denominator)
  }

  /** The result one run of `loadSVGs` reaches: no candidates is an error,
      otherwise the all-or-nothing load of the candidates. */
  function LoadFraction(store: Store, shape: Shape, numerator: int, denominator: int, outcomes: seq<PartOutcome>)
    : (r: Result<seq<string>, string>)
    requires |outcomes| == |PartPaths(store, shape, numerator, denominator)|
    ensures PartPaths(store, shape, numerator, denominator) == [] ==> r == Err(NoFilesMessage(shape, numerator, denominator))
    ensures r.Ok? ==> |r.value| == |outcomes| >= 1 && forall i :: 0 <= i < |outcomes| ==> outcomes[i] == PartText(r.value[i])
    ensures r.Err? && |outcomes| >= 1 ==> exists i :: 0 <= i < |outcomes| && !outcomes[i].PartText?
  {
    var paths := PartPaths(store, shape, numerator, denominator);
    if |paths| == 0 then Err(NoFilesMessage(shape, numerator, denominator))
    else LoadAll(paths, outcomes)
  }

  /** A single failing part fails the whole fraction, whatever the others
      deliver. */
  lemma OneFailureFailsAll(store: Store, shape: Shape, numerator: int, denominator: int, outcomes: seq<PartOutcome>, k: int)
    requires |outcomes| == |PartPaths(store, shape, numerator, denominator)|
    requires 0 <= k < |outcomes| && !outcomes[k].PartText?
    ensures LoadFraction(store, shape, numerator, denominator, outcomes).Err?
  {
  }

  /** The hook's state: `isLoading`, `error` (its message) and
      `svgContents`. */
  class HookState {
    var isLoading: bool
    var error: Option<string>
    var svgContents: seq<string>

    constructor()
      ensures isLoading && error == None && svgContents == []
    {
      isLoading, error, svgContents := true, None, [];
    }

    /** The start of every run: `setIsLoading(true); setError(null)`. */
    method BeginRun()
      modifies this
      ensures isLoading && error == None && svgContents == old(svgContents)
    {
      isLoading := true;
      error := None;
    }

    /** The end of a run: commit the result, then end loading, each step
        only while the run has not been cancelled. */
    method FinishRun(run: Run, result: Result<seq<string>, string>)
      modifies this
      ensures run.isCancelled ==> isLoading == old(isLoading) && error == old(error) && svgContents == old(svgContents)
      ensures !run.isCancelled ==> !isLoading
      ensures !run.isCancelled && result.Ok? ==> svgContents == result.value && error == None
      ensures !run.isCancelled && result.Err? ==> svgContents == [] && error == Some(result.error)
    {
      if !run.isCancelled {
        match result
        case Ok(texts) =>
          svgContents := texts;
          error := None;
        case Err(message) =>
          error := Some(message);
          svgContents := [];
      }
      if !run.isCancelled {
        isLoading := false;
      }
    }
  }

  /** The `isCancelled` flag of one run of the effect. */
  class Run {
    var isCancelled: bool

    constructor()
      ensures !isCancelled
    {
      isCancelled := false;
    }

    /** The effect's cleanup. */
    method Cleanup()
      modifies this
      ensures isCancelled
    {
      isCancelled := true;
    }
  }

  /** One run of `loadSVGs`: start loading, gather the candidates in
      string order, load them all or nothing, and commit the outcome unless
      the run has been cleaned up. A successful run leaves one text per
      candidate, in path order; a failed one leaves no texts and the
      message of the failure. The no-candidates error is raised and
      committed before the first `await`, so no cleanup can come between;
      a run cancelled by then has found candidates. */
  method LoadSvgs(hook: HookState, run: Run, store: Store, shape: Shape, numerator: int, denominator: int,
                  outcomes: seq<PartOutcome>)
    requires |outcomes| == |PartPaths(store, shape, numerator, denominator)|
    modifies hook
    ensures run.isCancelled ==> hook.isLoading && hook.error == None && hook.svgContents == old(hook.svgContents)
    ensures !run.isCancelled ==> !hook.isLoading
    ensures !run.isCancelled && PartPaths(store, shape, numerator, denominator) == [] ==>
      hook.svgContents == [] && hook.error == Some(NoFilesMessage(shape, numerator, denominator))
    ensures !run.isCancelled && |outcomes| >= 1 && (forall i :: 0 <= i < |outcomes| ==> outcomes[i].PartText?) ==>
      hook.error == None && |hook.svgContents| == |outcomes| &&
      forall i :: 0 <= i < |outcomes| ==> outcomes[i] == PartText(hook.svgContents[i])
    ensures !run.isCancelled && (exists i :: 0 <= i < |outcomes| && !outcomes[i].PartText?) ==>
      hook.svgContents == [] &&
      exists i :: 0 <= i < |outcomes| && !outcomes[i].PartText? &&
        hook.error == Some(FailedMessage(PartPaths(store, shape, numerator, denominator)[i]))
  {
    hook.BeginRun();
    var result := LoadFraction(store, shape, numerator, denominator, outcomes);
    hook.FinishRun(run, result);
  }

  /** The dependencies change while a run is loading: its cleanup runs, a
      new run starts, and the two settle in either order. The state ends
      up holding the new run's result alone. */
  method Supersede(hook: HookState, stale: Result<seq<string>, string>, current: Result<seq<string>, string>, staleSettlesLast: bool)
    modifies hook
    ensures !hook.isLoading
    ensures current.Ok? ==> hook.svgContents == current.value && hook.error == None
    ensures current.Err? ==> hook.svgContents == [] && hook.error == Some(current.error)
  {
    var first := new Run();
    hook.BeginRun();
    first.Cleanup();
    var second := new Run();
    hook.BeginRun();
    if staleSettlesLast {
      hook.FinishRun(second, current);
      hook.FinishRun(first, stale);
    } else {
      hook.FinishRun(first, stale);
      hook.FinishRun(second, current);
    }
  }
}
