/** The loading-state composable: a counter of processed items, the errors
    met on the way, the progress and success percentages derived from them,
    and the cancellation flag. Percentages are computed on exact rationals. */
module LoadingProgress {
  import opened Common
  import opened ExportUtils

  /** `Math.round`: the nearest integer, halves rounded up. */
  function Round(r: real): (n: int)
    ensures r - 0.5 < n as real <= r + 0.5
  {
    (r + 0.5).Floor
  }

  /** A rounded value in a range stays in the range's rounded bounds. */
  lemma {:induction false} RoundMonotone(a: real, b: real)
    requires a <= b
    ensures Round(a) <= Round(b)
  {
    assert Round(a) as real <= a + 0.5 <= b + 0.5 < Round(b) as real + 1.0;
  }

  lemma RoundInt(n: int)
    ensures Round(n as real) == n
  {
  }

  /** The `progress` percentage. */
  function Progress(loaded: int, total: int): int {
    if total == 0 then 0 else Round((loaded as real / total as real) * 100.0)
  }

  /** The `successRate` percentage. */
  function SuccessRate(loaded: int, errors: nat): int {
    if loaded == 0 then 100 else Round(((loaded - errors) as real / loaded as real) * 100.0)
  }

  /** A share of at most the whole is at most a hundred percent. */
  lemma {:induction false} PercentBounds(part: int, whole: int)
    requires 0 <= part <= whole && whole > 0
    ensures 0 <= Round((part as real / whole as real) * 100.0) <= 100
    ensures part == whole ==> Round((part as real / whole as real) * 100.0) == 100
    ensures part == 0 ==> Round((part as real / whole as real) * 100.0) == 0
  {
    var q := part as real / whole as real;
    assert q * whole as real == part as real;
    assert 0.0 <= q <= 1.0;
    assert part == whole ==> q * 100.0 == 100.0;
    assert part == 0 ==> q * 100.0 == 0.0;
    RoundMonotone(0.0, q * 100.0);
    RoundMonotone(q * 100.0, 100.0);
    RoundInt(0);
    RoundInt(100);
  }

  /** Progress runs from 0 for nothing loaded to 100 for everything loaded
      and never leaves that range while the count stays within the total. */
  lemma ProgressRange(loaded: int, total: int)
    requires 0 <= loaded <= total
    ensures 0 <= Progress(loaded, total) <= 100
    ensures loaded == total ==> Progress(loaded, total) == if total == 0 then 0 else 100
    ensures loaded == 0 ==> Progress(loaded, total) == 0
  {
    if total > 0 {
      PercentBounds(loaded, total);
    }
  }

  /** Loading one more item never lowers the progress. */
  lemma {:induction false} ProgressMonotone(loaded: int, total: int)
    requires total > 0
    ensures Progress(loaded, total) <= Progress(loaded + 1, total)
  {
    var a := loaded as real / total as real;
    var b := (loaded + 1) as real / total as real;
    assert a * total as real == loaded as real;
    assert b * total as real == (loaded + 1) as real;
    assert a <= b;
    RoundMonotone(a * 100.0, b * 100.0);
  }

  /** While every error was counted as a processed item, the success rate is
      a percentage, and it is 100 exactly when nothing failed. */
  lemma SuccessRateRange(loaded: int, errors: nat)
    requires errors <= loaded
    ensures 0 <= SuccessRate(loaded, errors) <= 100
    ensures errors == 0 ==> SuccessRate(loaded, errors) == 100
    ensures loaded > 0 && errors == loaded ==> SuccessRate(loaded, errors) == 0
  {
    if loaded > 0 {
      PercentBounds(loaded - errors, loaded);
    }
  }

  /** Errors added without counting an item can push the rate below zero:
      more errors than items give at most 0, twice as many exactly -100 and
      more than that less still (one item and two errors give -100). */
  lemma SuccessRateCanBeNegative(loaded: int, errors: nat)
    requires loaded > 0 && errors > loaded
    ensures SuccessRate(loaded, errors) <= 0
    ensures errors == 2 * loaded ==> SuccessRate(loaded, errors) == -100
    ensures errors >= 2 * loaded ==> SuccessRate(loaded, errors) <= -100
  {
    var q := (loaded - errors) as real / loaded as real;
    assert q * loaded as real == (loaded - errors) as real;
    assert q < 0.0;
    if errors >= 2 * loaded {
      assert q <= -1.0;
    }
    if errors == 2 * loaded {
      assert q == -1.0;
      RoundInt(-100);
    }
  }

  /** `Loading item n of m`. */
  function ProgressMessage(loaded: int, total: int): string {
    "Loading item " + IntString(loaded) + " of " + IntString(total)
  }

  class LoadingState {
    var isLoading: bool
    var loadedCount: int
    var totalCount: int
    var currentItem: string
    var message: string
    var errors: seq<string>
    var isCancelling: bool
    /** The abort controller: `None` for `null`, otherwise whether its signal
        was aborted. */
    var aborted: Option<bool>
    /** Whether `completeLoading` scheduled the delayed close. */
    var closeScheduled: bool

    /** Every error belongs to a processed item; `startLoading`,
        `updateProgress` and `resetLoading` keep this, `addError` does not. */
    predicate Counted()
      reads this
    {
      |errors| <= loadedCount
    }

    /** The state `resetLoading` restores, which is also the initial state
        when no total is given. */
    predicate Idle()
      reads this
    {
      !isLoading && loadedCount == 0 && totalCount == 0 && currentItem == "" && message == ""
      && errors == [] && !isCancelling && aborted.None?
    }

    function CurrentProgress(): int
      reads this
    {
      Progress(loadedCount, totalCount)
    }

    function CurrentSuccessRate(): int
      reads this
    {
      SuccessRate(loadedCount, |errors|)
    }

    /** `useLoadingState({total})`: the total is `options.total || 0`. */
    constructor(total: Option<int>)
      ensures totalCount == (if total.Some? then total.value else 0)
      ensures !isLoading && loadedCount == 0 && currentItem == "" && message == ""
      ensures errors == [] && !isCancelling && aborted.None? && !closeScheduled
      ensures Counted()
    {
      isLoading := false;
      loadedCount := 0;
      totalCount := if total.Some? then total.value else 0;
      currentItem := "";
      message := "";
      errors := [];
      isCancelling := false;
      aborted := None;
      closeScheduled := false;
    }

    /** `startLoading(total, initialMessage = 'Loading...')`. */
    method StartLoading(total: int, initialMessage: Option<string>)
      modifies this
      ensures isLoading && loadedCount == 0 && totalCount == total && currentItem == ""
      ensures message == (if initialMessage.Some? then initialMessage.value else "Loading...")
      ensures errors == [] && !isCancelling && aborted == Some(false)
      ensures closeScheduled == old(closeScheduled)
      ensures Counted() && CurrentProgress() == 0 && CurrentSuccessRate() == 100
    {
      isLoading := true;
      loadedCount := 0;
      totalCount := total;
      currentItem := "";
      message := if initialMessage.Some? then initialMessage.value else "Loading...";
      errors := [];
      isCancelling := false;
      aborted := Some(false);
    }

    /** `updateProgress(itemName, success)`: one more item, recorded as an
        error exactly when it failed. */
    method UpdateProgress(itemName: string, success: bool)
      modifies this
      ensures loadedCount == old(loadedCount) + 1
      ensures currentItem == itemName
      ensures message == ProgressMessage(loadedCount, totalCount)
      ensures errors == if success then old(errors) else old(errors) + [itemName]
      ensures old(Counted()) ==> Counted()
      ensures totalCount > 0 ==> CurrentProgress() >= old(CurrentProgress())
      ensures isLoading == old(isLoading) && totalCount == old(totalCount) && isCancelling == old(isCancelling)
      ensures aborted == old(aborted) && closeScheduled == old(closeScheduled)
    {
      if totalCount > 0 {
        ProgressMonotone(loadedCount, totalCount);
      }
      loadedCount := loadedCount + 1;
      currentItem := itemName;
      message := ProgressMessage(loadedCount, totalCount);
      if !success {
        errors := errors + [itemName];
      }
    }

    /** `addError(errorMessage)`: an error without a processed item. */
    method AddError(errorMessage: string)
      modifies this
      ensures errors == old(errors) + [errorMessage]
      ensures isLoading == old(isLoading) && loadedCount == old(loadedCount) && totalCount == old(totalCount)
      ensures currentItem == old(currentItem) && message == old(message) && isCancelling == old(isCancelling)
      ensures aborted == old(aborted) && closeScheduled == old(closeScheduled)
    {
      errors := errors + [errorMessage];
    }

    /** `cancelLoading()`: mark cancelling and abort the controller if there
        is one. */
    method CancelLoading()
      modifies this
      ensures isCancelling
      ensures aborted == if old(aborted).Some? then Some(true) else None
      ensures isLoading == old(isLoading) && loadedCount == old(loadedCount) && totalCount == old(totalCount)
      ensures currentItem == old(currentItem) && message == old(message) && errors == old(errors)
      ensures closeScheduled == old(closeScheduled)
    {
      isCancelling := true;
      if aborted.Some? {
        aborted := Some(true);
      }
    }

    /** `completeLoading(finalMessage = 'Complete')`: the delayed close is
        scheduled only when nothing failed. */
    method CompleteLoading(finalMessage: Option<string>)
      modifies this
      ensures message == (if finalMessage.Some? then finalMessage.value else "Complete")
      ensures currentItem == ""
      ensures closeScheduled == (old(closeScheduled) || errors == [])
      ensures isLoading == old(isLoading) && loadedCount == old(loadedCount) && totalCount == old(totalCount)
      ensures errors == old(errors) && isCancelling == old(isCancelling) && aborted == old(aborted)
    {
      message := if finalMessage.Some? then finalMessage.value else "Complete";
      currentItem := "";
      if |errors| == 0 {
        closeScheduled := true;
      }
    }

    /** The delayed close firing. */
    method AutoClose()
      requires closeScheduled
      modifies this
      ensures !isLoading && !closeScheduled
      ensures loadedCount == old(loadedCount) && totalCount == old(totalCount) && currentItem == old(currentItem)
      ensures message == old(message) && errors == old(errors) && isCancelling == old(isCancelling)
      ensures aborted == old(aborted)
    {
      isLoading := false;
      closeScheduled := false;
    }

    /** `resetLoading()`. */
    method ResetLoading()
      modifies this
      ensures Idle() && Counted() && CurrentProgress() == 0 && CurrentSuccessRate() == 100
      ensures closeScheduled == old(closeScheduled)
    {
      isLoading := false;
      loadedCount := 0;
      totalCount := 0;
      currentItem := "";
      message := "";
      errors := [];
      isCancelling := false;
      aborted := None;
    }

    /** `isCancelled()`: the controller's signal was aborted. */
    method IsCancelled() returns (r: bool)
      ensures r <==> aborted == Some(true)
    {
      r := aborted.Some? && aborted.value;
    }
  }
}
