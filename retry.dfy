/**
 * The retry wrappers of src/Fetch/Retry.tsx, with the waits between attempts abstracted into a
 * count of delays.
 *
 *  - useFetchRetry calls the wrapped function again after every thrown error, up to
 *    maxRetries + 1 calls; a returned value, null included, ends the attempts.
 *  - useAuthFetchRetry waits while authentication is loading, retries while no token is known,
 *    and then calls the wrapped function once with the token; a thrown error yields null.
 *
 * The wrapped function's behaviour is an input: `outcome(k)` is what its k-th call does.
 */
module Retry {
  import opened Wrappers

  const DefaultMaxRetries := 3
  /** The wait after a failed attempt, in milliseconds; only the number of waits is modelled. */
  const DefaultRetryDelay := 1000

  /** What one call of the wrapped fetch function does: return a value (possibly null) or throw. */
  datatype Outcome<T> = Returned(value: Option<T>) | Threw

  /** How a retried request ended: its result, how often the function was called, how often it waited. */
  datatype Run<T> = Run(result: Option<T>, calls: nat, delays: nat)

  // ---------------------------------------------------------------------------------------------
  // useFetchRetry

  /**
   * `attempt(retryCount)` of useFetchRetry: past maxRetries it gives null; otherwise it makes
   * call number retryCount and either passes on what it returned or waits and tries again.
   */
  function FetchAttempt<T>(outcome: nat -> Outcome<T>, maxRetries: int, retryCount: nat): (run: Run<T>)
    ensures run.delays <= run.calls <= run.delays + 1
    ensures retryCount > maxRetries ==> run.calls == 0
    ensures retryCount <= maxRetries ==> 1 <= run.calls <= maxRetries + 1 - retryCount
    decreases if retryCount <= maxRetries then maxRetries + 1 - retryCount else 0
  {
    if retryCount > maxRetries then Run(None, 0, 0)
    else match outcome(retryCount)
      case Returned(v) => Run(v, 1, 0)
      case Threw =>
        var rest := FetchAttempt(outcome, maxRetries, retryCount + 1);
        Run(rest.result, rest.calls + 1, rest.delays + 1)
  }

  /** The retried function as the caller sees it: `attempt(0)`. */
  function FetchRetry<T>(outcome: nat -> Outcome<T>, maxRetries: int): (run: Run<T>)
    ensures maxRetries < 0 ==> run.calls == 0
    ensures maxRetries >= 0 ==> 1 <= run.calls <= maxRetries + 1
    ensures run.delays <= run.calls <= run.delays + 1
  {
    FetchAttempt(outcome, maxRetries, 0)
  }

  /** Calls from..to-1 all throw. */
  ghost predicate ThrowsBetween<T>(outcome: nat -> Outcome<T>, from: nat, to: int) {
    forall j :: from <= j < to ==> outcome(j).Threw?
  }

  /**
   * If every call before k throws and call k returns v, with k within the limit, the retried
   * function returns v unchanged after exactly k + 1 calls.
   */
  lemma {:induction false} FirstReturnWins<T>(outcome: nat -> Outcome<T>, maxRetries: int, retryCount: nat, k: nat)
    requires retryCount <= k <= maxRetries
    requires ThrowsBetween(outcome, retryCount, k) && outcome(k).Returned?
    ensures FetchAttempt(outcome, maxRetries, retryCount) == Run(outcome(k).value, k + 1 - retryCount, k - retryCount)
    decreases k - retryCount
  {
    if retryCount < k {
      FirstReturnWins(outcome, maxRetries, retryCount + 1, k);
    }
  }

  /** If every call within the limit throws, the result is null after exactly maxRetries + 1 calls. */
  lemma {:induction false} AllThrowGivesNull<T>(outcome: nat -> Outcome<T>, maxRetries: int, retryCount: nat)
    requires ThrowsBetween(outcome, retryCount, maxRetries + 1)
    ensures var run := FetchAttempt(outcome, maxRetries, retryCount);
      && run.result == None
      && run.calls == (if retryCount <= maxRetries then maxRetries + 1 - retryCount else 0)
      && run.delays == run.calls
    decreases if retryCount <= maxRetries then maxRetries + 1 - retryCount else 0
  {
    if retryCount <= maxRetries {
      AllThrowGivesNull(outcome, maxRetries, retryCount + 1);
    }
  }

  /**
   * The other direction: a non-null result is what the last call returned, every call before it
   * threw, and the last call was within the limit.
   */
  lemma {:induction false} ResultComesFromLastCall<T>(outcome: nat -> Outcome<T>, maxRetries: int, retryCount: nat)
    ensures var run := FetchAttempt(outcome, maxRetries, retryCount);
      run.result.Some? ==>
        && run.calls >= 1
        && retryCount + run.calls - 1 <= maxRetries
        && outcome(retryCount + run.calls - 1) == Returned(run.result)
        && ThrowsBetween(outcome, retryCount, retryCount + run.calls - 1)
    decreases if retryCount <= maxRetries then maxRetries + 1 - retryCount else 0
  {
    if retryCount <= maxRetries && outcome(retryCount).Threw? {
      ResultComesFromLastCall(outcome, maxRetries, retryCount + 1);
    }
  }

  /** A returned null is passed on at once: it is not retried. */
  lemma NullIsNotRetried<T>(outcome: nat -> Outcome<T>, maxRetries: int)
    requires maxRetries >= 0 && outcome(0) == Returned(None)
    ensures FetchRetry(outcome, maxRetries) == Run(None, 1, 0)
  {
  }

  /** With the default limit the function is called at most four times. */
  lemma DefaultLimit<T>(outcome: nat -> Outcome<T>)
    ensures FetchRetry(outcome, DefaultMaxRetries).calls <= 4
  {
  }

  // ---------------------------------------------------------------------------------------------
  // useAuthFetchRetry

  /** The authentication state an attempt reads: still loading, and the token if one is known. */
  datatype AuthView = AuthView(loading: bool, token: Option<string>)

  /** How an authenticated request ended: as a Run, plus the token the function was called with. */
  datatype AuthRun<T> = AuthRun(run: Run<T>, usedToken: Option<string>)

  /**
   * `attempt(retryCount)` of useAuthFetchRetry AS WRITTEN: the auth view is the one captured when
   * the callback was created and never changes. A wait while loading repeats the attempt with the
   * same retryCount. `fuel` bounds the number of attempts looked at; None means the request has
   * not settled within that many attempts.
   */
  function AuthAttemptAsWritten<T>(view: AuthView, outcome: nat -> Outcome<T>, maxRetries: int,
                                   retryCount: nat, fuel: nat): (r: Option<AuthRun<T>>)
    ensures r.Some? ==> r.value.run.calls <= 1
    decreases fuel
  {
    if fuel == 0 then None
    else if view.loading then
      match AuthAttemptAsWritten(view, outcome, maxRetries, retryCount, fuel - 1)
      case None => None
      case Some(r) => Some(r.(run := r.run.(delays := r.run.delays + 1)))
    else if view.token.None? then
      if retryCount < maxRetries then
        match AuthAttemptAsWritten(view, outcome, maxRetries, retryCount + 1, fuel - 1)
        case None => None
        case Some(r) => Some(r.(run := r.run.(delays := r.run.delays + 1)))
      else Some(AuthRun(Run(None, 0, 0), None))
    else
      match outcome(0)
      case Returned(v) => Some(AuthRun(Run(v, 1, 0), view.token))
      case Threw => Some(AuthRun(Run(None, 1, 0), view.token))
  }

  /**
   * A request started while authentication is loading never settles, however many attempts are
   * looked at: the captured flag stays true, so the attempts wait forever, even after the
   * provider has finished loading.
   */
  lemma {:induction false} LoadingNeverSettles<T>(view: AuthView, outcome: nat -> Outcome<T>, maxRetries: int,
                                                 retryCount: nat, fuel: nat)
    requires view.loading
    ensures AuthAttemptAsWritten(view, outcome, maxRetries, retryCount, fuel) == None
    decreases fuel
  {
    if fuel > 0 {
      LoadingNeverSettles(view, outcome, maxRetries, retryCount, fuel - 1);
    }
  }

  /**
   * As written, without a token the attempts wait maxRetries times and give null without calling
   * the function: the captured token cannot appear in between.
   */
  lemma {:induction false} NoTokenGivesNull<T>(view: AuthView, outcome: nat -> Outcome<T>, maxRetries: int,
                                              retryCount: nat, fuel: nat)
    requires !view.loading && view.token.None?
    requires fuel > (if retryCount < maxRetries then maxRetries - retryCount else 0)
    ensures AuthAttemptAsWritten(view, outcome, maxRetries, retryCount, fuel) ==
            Some(AuthRun(Run(None, 0, if retryCount < maxRetries then maxRetries - retryCount else 0), None))
    decreases fuel
  {
    if retryCount < maxRetries {
      NoTokenGivesNull(view, outcome, maxRetries, retryCount + 1, fuel - 1);
    }
  }

  /**
   * The evidently intended behaviour: every attempt reads the CURRENT auth state, `views(s)` being
   * the state at attempt s. Waits while loading keep retryCount, so they never use up a retry;
   * each attempt without a token uses one; the first attempt with a token calls the function once.
   * `loadedBy` is an attempt from which on authentication is no longer loading.
   */
  function AuthAttempt<T>(views: nat -> AuthView, loadedBy: nat, outcome: nat -> Outcome<T>, maxRetries: int,
                          retryCount: nat, step: nat): (r: AuthRun<T>)
    requires forall s :: s >= loadedBy ==> !views(s).loading
    ensures r.run.calls <= 1
    ensures r.usedToken.Some? <==> r.run.calls == 1
    decreases (if retryCount < maxRetries then maxRetries - retryCount else 0) + (if step < loadedBy then loadedBy - step else 0)
  {
    var view := views(step);
    if view.loading then
      var r := AuthAttempt(views, loadedBy, outcome, maxRetries, retryCount, step + 1);
      r.(run := r.run.(delays := r.run.delays + 1))
    else if view.token.None? then
      if retryCount < maxRetries then
        var r := AuthAttempt(views, loadedBy, outcome, maxRetries, retryCount + 1, step + 1);
        r.(run := r.run.(delays := r.run.delays + 1))
      else AuthRun(Run(None, 0, 0), None)
    else
      match outcome(0)
      case Returned(v) => AuthRun(Run(v, 1, 0), view.token)
      case Threw => AuthRun(Run(None, 1, 0), view.token)
  }

  /** The attempts from step on that see no token after loading. */
  function TokenlessBetween(views: nat -> AuthView, from: nat, to: nat): (n: nat)
    ensures n <= if from < to then to - from else 0
    decreases if from < to then to - from else 0
  {
    if from >= to then 0
    else (if !views(from).loading && views(from).token.None? then 1 else 0) + TokenlessBetween(views, from + 1, to)
  }

  /**
   * With a live view the request always settles. When the function is called, it is called with
   * the token of the first attempt that saw one after loading, and the tokenless attempts before
   * it are within the retry limit; loading waits are not counted against the limit.
   */
  lemma {:induction false} AuthAttemptUsesFirstToken<T>(views: nat -> AuthView, loadedBy: nat, outcome: nat -> Outcome<T>,
                                                       maxRetries: int, retryCount: nat, step: nat)
    requires forall s :: s >= loadedBy ==> !views(s).loading
    ensures var r := AuthAttempt(views, loadedBy, outcome, maxRetries, retryCount, step);
      r.usedToken.Some? ==>
        exists s :: step <= s && views(s) == AuthView(false, r.usedToken)
               && retryCount + TokenlessBetween(views, step, s) <= Max(retryCount, maxRetries)
               && (forall j :: step <= j < s ==> views(j).loading || views(j).token.None?)
    decreases (if retryCount < maxRetries then maxRetries - retryCount else 0) + (if step < loadedBy then loadedBy - step else 0)
  {
    var view := views(step);
    var r := AuthAttempt(views, loadedBy, outcome, maxRetries, retryCount, step);
    if view.loading || (view.token.None? && retryCount < maxRetries) {
      var rc := if view.loading then retryCount else retryCount + 1;
      AuthAttemptUsesFirstToken(views, loadedBy, outcome, maxRetries, rc, step + 1);
      if r.usedToken.Some? {
        var s :| step + 1 <= s && views(s) == AuthView(false, r.usedToken)
               && rc + TokenlessBetween(views, step + 1, s) <= Max(rc, maxRetries)
               && (forall j :: step + 1 <= j < s ==> views(j).loading || views(j).token.None?);
        assert TokenlessBetween(views, step, s) == (if view.loading then 0 else 1) + TokenlessBetween(views, step + 1, s);
      }
    } else if view.token.Some? {
      assert TokenlessBetween(views, step, step) == 0;
    }
  }

  /**
   * When authentication has loaded before the first attempt and never changes, the intended
   * behaviour and the behaviour as written agree.
   */
  lemma {:induction false} LiveAgreesWhenSettled<T>(view: AuthView, outcome: nat -> Outcome<T>, maxRetries: int,
                                                   retryCount: nat, step: nat, fuel: nat)
    requires !view.loading
    requires fuel > (if retryCount < maxRetries then maxRetries - retryCount else 0)
    ensures AuthAttemptAsWritten(view, outcome, maxRetries, retryCount, fuel) ==
            Some(AuthAttempt((s: nat) => view, 0, outcome, maxRetries, retryCount, step))
    decreases fuel
  {
    if view.token.None? && retryCount < maxRetries {
      LiveAgreesWhenSettled(view, outcome, maxRetries, retryCount + 1, step + 1, fuel - 1);
    }
  }

  /**
   * With the live view, waiting while authentication loads changes nothing but the number of
   * delays: the request ends as it would have had it started once loading was over.
   */
  lemma {:induction false} LoadingWaitsKeepRetries<T>(views: nat -> AuthView, loadedBy: nat, outcome: nat -> Outcome<T>,
                                                     maxRetries: int, retryCount: nat, step: nat)
    requires forall s :: s >= loadedBy ==> !views(s).loading
    requires step <= loadedBy
    requires forall s :: step <= s < loadedBy ==> views(s).loading
    ensures var waited := AuthAttempt(views, loadedBy, outcome, maxRetries, retryCount, step);
      var direct := AuthAttempt(views, loadedBy, outcome, maxRetries, retryCount, loadedBy);
      && waited.usedToken == direct.usedToken
      && waited.run == direct.run.(delays := direct.run.delays + (loadedBy - step))
    decreases loadedBy - step
  {
    if step < loadedBy {
      LoadingWaitsKeepRetries(views, loadedBy, outcome, maxRetries, retryCount, step + 1);
    }
  }

  /** A token present at the first attempt means exactly one call, and a throw gives null without retrying. */
  lemma TokenCallsOnce<T>(views: nat -> AuthView, loadedBy: nat, outcome: nat -> Outcome<T>, maxRetries: int, t: string)
    requires forall s :: s >= loadedBy ==> !views(s).loading
    requires views(0) == AuthView(false, Some(t))
    ensures var r := AuthAttempt(views, loadedBy, outcome, maxRetries, 0, 0);
      && r.run.calls == 1 && r.usedToken == Some(t) && r.run.delays == 0
      && (outcome(0).Threw? ==> r.run.result == None)
      && (outcome(0).Returned? ==> r.run.result == outcome(0).value)
  {
  }
}
