/** The application slice of the client store: the signed-in user, whether the
    navigation drawer is open, and the global count of in-flight operations,
    with the reducers that change them in place. */
module AppSlice {
  import opened Values

  /** `Math.max(0, count - 1)`: one less, but never below zero. */
  function DecrementedCount(count: int): (r: int)
    ensures r >= 0
    ensures count >= 1 ==> r == count - 1
    ensures count <= 1 ==> r == 0
  {
    if 0 >= count - 1 then 0 else count - 1
  }

  /** An increment followed by a decrement restores any non-negative count. */
  lemma IncrementThenDecrement(count: int)
    requires count >= 0
    ensures DecrementedCount(count + 1) == count
  {
  }

  /** Decrementing `n` times from `count` gives `max(0, count - n)`. */
  function DecrementTimes(count: int, n: nat): int {
    if n == 0 then count else DecrementedCount(DecrementTimes(count, n - 1))
  }

  lemma {:induction false} DecrementTimesClamps(count: int, n: nat)
    requires count >= 0
    ensures DecrementTimes(count, n) == if count >= n then count - n else 0
  {
    if n > 0 {
      DecrementTimesClamps(count, n - 1);
    }
  }

  class AppState {
    /** The signed-in user: whatever payload was dispatched, `null` when there is none. */
    var user: Value
    var drawerOpen: bool
    var loadingCount: int

    /** The count of in-flight operations is never negative. */
    predicate Valid()
      reads this
    {
      loadingCount >= 0
    }

    /** `initialState`: no user, drawer open, nothing loading. */
    constructor ()
      ensures Valid()
      ensures user == Null && drawerOpen && loadingCount == 0
    {
      user := Null;
      drawerOpen := true;
      loadingCount := 0;
    }

    /** `useGlobalLoading`: something is loading exactly when the count is positive. */
    predicate GlobalLoading()
      reads this
    {
      loadingCount > 0
    }

    method IncrementLoading()
      requires Valid()
      modifies this`loadingCount
      ensures Valid() && GlobalLoading()
      ensures loadingCount == old(loadingCount) + 1
    {
      loadingCount := loadingCount + 1;
    }

    method DecrementLoading()
      requires Valid()
      modifies this`loadingCount
      ensures Valid()
      ensures loadingCount == DecrementedCount(old(loadingCount))
      ensures old(loadingCount) == 0 ==> loadingCount == 0
    {
      loadingCount := if 0 >= loadingCount - 1 then 0 else loadingCount - 1;
    }

    /** Stores the payload as is; `setUser(null)` leaves the same state as `clearUser`. */
    method SetUser(payload: Value)
      modifies this`user
      ensures user == payload
    {
      user := payload;
    }

    method ClearUser()
      modifies this`user
      ensures user == Null
    {
      user := Null;
    }

    method SetDrawerOpen(payload: bool)
      modifies this`drawerOpen
      ensures drawerOpen == payload
    {
      drawerOpen := payload;
    }
  }
}
