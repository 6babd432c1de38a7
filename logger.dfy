/**
 * The `ErrorTracker` of logger.py: the errors and warnings recorded while scraping, and the
 * stores that failed. The logging calls of `print_summary` are left out.
 */
module Logger {
  import opened Wrappers
  import opened Seqs

  /** One `add_error` record: the store, the description, and `str(exception)` when one was given. */
  datatype ErrorRecord = ErrorRecord(store: string, error: string, exception: Option<string>)

  /** One `add_warning` record. */
  datatype WarningRecord = WarningRecord(store: string, warning: string)

  /** What `get_stats` returns. */
  datatype Stats = Stats(errors: nat, warnings: nat, failedStores: nat)

  /** A store names itself; the key of the distinct-stores computation. */
  function StoreName(s: string): string {
    s
  }

  class ErrorTracker {
    var errors: seq<ErrorRecord>
    var warnings: seq<WarningRecord>
    var failedStores: seq<string>

    /** Every error records the store that failed, and `failedStores` lists them in the same order. */
    ghost predicate Valid()
      reads this
    {
      |failedStores| == |errors| &&
      forall k :: 0 <= k < |errors| ==> failedStores[k] == errors[k].store
    }

    constructor()
      ensures Valid()
      ensures errors == [] && warnings == [] && failedStores == []
    {
      errors := [];
      warnings := [];
      failedStores := [];
    }

    /**
     * `add_error(store, error, exception)`; `exceptionText` is `str(exception)` when an
     * exception was passed (an exception object is always truthy).
     */
    method AddError(store: string, error: string, exceptionText: Option<string>)
      requires Valid()
      modifies this
      ensures Valid()
      ensures errors == old(errors) + [ErrorRecord(store, error, exceptionText)]
      ensures failedStores == old(failedStores) + [store]
      ensures warnings == old(warnings)
    {
      errors := errors + [ErrorRecord(store, error, exceptionText)];
      failedStores := failedStores + [store];
    }

    /** `add_warning(store, warning)`. */
    method AddWarning(store: string, warning: string)
      requires Valid()
      modifies this
      ensures Valid()
      ensures warnings == old(warnings) + [WarningRecord(store, warning)]
      ensures errors == old(errors) && failedStores == old(failedStores)
    {
      warnings := warnings + [WarningRecord(store, warning)];
    }

    function HasErrors(): (b: bool)
      reads this
      ensures b <==> errors != []
    {
      |errors| > 0
    }

    function HasWarnings(): (b: bool)
      reads this
      ensures b <==> warnings != []
    {
      |warnings| > 0
    }

    /**
     * `list(set(self.failed_stores))`: each failed store once. A Python set has no defined
     * order; the stores are listed in the order they first failed.
     */
    function GetFailedStores(): (r: seq<string>)
      reads this
      ensures DistinctKeys(r, StoreName)
      ensures forall s :: s in r <==> s in failedStores
      ensures |r| <= |failedStores|
    {
      FirstPerKeyDistinct(failedStores, StoreName);
      FirstPerKeyKeySet(failedStores, StoreName);
      FirstPerKeyCount(failedStores, StoreName);
      var r := FirstPerKey(failedStores, StoreName);
      forall s
        ensures s in r <==> s in failedStores
      {
        if s in r {
          var i :| 0 <= i < |r| && r[i] == s;
          assert StoreName(r[i]) in KeySet(r, StoreName);
          KeySetWitness(failedStores, StoreName, s);
        }
        if s in failedStores {
          var i :| 0 <= i < |failedStores| && failedStores[i] == s;
          assert StoreName(failedStores[i]) in KeySet(failedStores, StoreName);
          KeySetWitness(r, StoreName, s);
        }
      }
      r
    }

    /** `get_stats()`: the failed-stores count never exceeds the errors count. */
    function GetStats(): (s: Stats)
      requires Valid()
      reads this
      ensures s.errors == |errors| && s.warnings == |warnings|
      ensures s.failedStores == |GetFailedStores()| && s.failedStores <= s.errors
      ensures s.failedStores == 0 <==> !HasErrors()
    {
      assert errors != [] ==> failedStores[0] in GetFailedStores();
      Stats(|errors|, |warnings|, |GetFailedStores()|)
    }
  }
}
