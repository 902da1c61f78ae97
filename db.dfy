/** The persistence gateway of src/lib/db.ts: one module-wide connection pool, a `poolError`
    flag that forces the pool to be rebuilt, and `executeQuery`'s three-attempt retry loop.
    What the MySQL driver does on each call (create a pool, hand out a connection, execute a
    statement, end a pool) is an oracle input; the waits between attempts are logged, not slept. */
module PersistenceGateway {
  import opened Wrappers
  import opened Js

  /** `maxRetries` of `executeQuery`. */
  const MaxRetries: nat := 3

  /** The wait in milliseconds after failed attempt `attempt` when another attempt follows. */
  function WaitAfter(attempt: nat): nat {
    1000 * attempt
  }

  /** The module state: the current pool (a handle, `None` for `null`), the error flag, and the
      number of pools created so far, which names the next one. */
  datatype State = State(pool: Option<nat>, poolError: bool, created: nat)

  /** What the driver does on one query attempt: whether creating a pool would throw (consulted
      only when `getPool` has to create one) and what `execute` yields. */
  datatype AttemptOracle = AttemptOracle(createError: Option<Thrown>, exec: Result<Json, Thrown>)

  /** `getPool` needs a new pool exactly when there is none or the flag is set. */
  predicate NeedsPool(s: State) {
    s.pool.None? || s.poolError
  }

  /** Every pool handle in use was handed out by an earlier creation. */
  predicate HandlesIssued(s: State) {
    s.pool.Some? ==> s.pool.value < s.created
  }

  /** `createPool` followed by the assignment in `getPool`: it succeeds exactly when the driver
      does, and then installs a healthy pool that no earlier creation handed out; a driver failure
      is rethrown with the flag set and the old pool and counter untouched. */
  function CreatePoolSpec(s: State, createError: Option<Thrown>): (o: (State, Result<nat, Thrown>))
    ensures o.1.Success? <==> createError.None?
    ensures o.1.Success? ==>
      o.0.pool == Some(o.1.value) && !o.0.poolError && s.created <= o.1.value < o.0.created
    ensures o.1.Failure? ==>
      o.1.error == createError.value && o.0.pool == s.pool && o.0.poolError && o.0.created == s.created
    ensures HandlesIssued(s) ==> HandlesIssued(o.0)
  {
    if createError.None? then (State(Some(s.created), false, s.created + 1), Success(s.created))
    else (s.(poolError := true), Failure(createError.value))
  }

  /** `getPool`: reuse the healthy pool, otherwise create one. */
  function GetPoolSpec(s: State, createError: Option<Thrown>): (o: (State, Result<nat, Thrown>))
    ensures !NeedsPool(s) ==> o == (s, Success(s.pool.value))
    ensures NeedsPool(s) ==> o == CreatePoolSpec(s, createError)
    ensures o.1.Success? ==> o.0.pool == Some(o.1.value) && !o.0.poolError
  {
    if NeedsPool(s) then CreatePoolSpec(s, createError) else (s, Success(s.pool.value))
  }

  /** One pass of the retry loop's body: `getPool`, `execute`, and on failure the catch block
      (flag set, pool ended if there is one, pool dropped). Also says whether a pool was ended. */
  function AttemptSpec(s: State, a: AttemptOracle): (o: (State, Result<Json, Thrown>, bool))
    ensures o.1.Failure? ==> o.0.pool.None? && o.0.poolError
    ensures o.1.Success? ==> o.1 == a.exec && o.0.pool.Some? && !o.0.poolError && !o.2
  {
    var (s1, p) := GetPoolSpec(s, a.createError);
    var res := if p.Success? then a.exec else Failure(p.error);
    if res.Success? then (s1, res, false)
    else (s1.(poolError := true, pool := None), res, s1.pool.Some?)
  }

  /** The error an attempt ends with, when it fails. */
  function AttemptError(s: State, a: AttemptOracle): Option<Thrown> {
    var o := AttemptSpec(s, a);
    if o.1.Failure? then Some(o.1.error) else None
  }

  /** What `executeQuery` leaves behind: the final state, what the caller sees, the waits
      performed, the number of pools ended, and the number of attempts made. */
  datatype RunOutcome = RunOutcome(state: State, result: Result<Json, Thrown>, waits: seq<nat>, teardowns: nat, attempts: nat)

  /** The retry loop from attempt `attempt` on. */
  function Run(s: State, oracle: seq<AttemptOracle>, attempt: nat): RunOutcome
    requires 1 <= attempt <= MaxRetries <= |oracle|
    decreases MaxRetries - attempt
  {
    var (s1, res, torn) := AttemptSpec(s, oracle[attempt - 1]);
    var t := if torn then 1 else 0;
    if res.Success? || attempt == MaxRetries then RunOutcome(s1, res, [], t, attempt)
    else
      var rest := Run(s1, oracle, attempt + 1);
      RunOutcome(rest.state, rest.result, [WaitAfter(attempt)] + rest.waits, t + rest.teardowns, rest.attempts)
  }

  /** `o` preceded by attempts that logged `waits` and ended `teardowns` pools. */
  function Glue(waits: seq<nat>, teardowns: nat, o: RunOutcome): RunOutcome {
    o.(waits := waits + o.waits, teardowns := teardowns + o.teardowns)
  }

  /** One turn of the loop: attempt `attempt`, then stop or wait and go on. */
  lemma RunStep(s: State, oracle: seq<AttemptOracle>, attempt: nat)
    requires 1 <= attempt <= MaxRetries <= |oracle|
    ensures var o := AttemptSpec(s, oracle[attempt - 1]);
      var t := if o.2 then 1 else 0;
      Run(s, oracle, attempt) ==
        if o.1.Success? || attempt == MaxRetries then RunOutcome(o.0, o.1, [], t, attempt)
        else Glue([WaitAfter(attempt)], t, Run(o.0, oracle, attempt + 1))
  {
  }

  /** Gluing twice is gluing the concatenated waits and the summed teardowns. */
  lemma GlueGlue(w1: seq<nat>, t1: nat, w2: seq<nat>, t2: nat, o: RunOutcome)
    ensures Glue(w1, t1, Glue(w2, t2, o)) == Glue(w1 + w2, t1 + t2, o)
  {
    assert w1 + (w2 + o.waits) == (w1 + w2) + o.waits;
  }

  /** Attempts from `attempt` on: at most the remaining ones, a success ends the loop with the
      result of that attempt's `execute`, and a failure means every remaining attempt was used. */
  lemma {:induction false} RunAttempts(s: State, oracle: seq<AttemptOracle>, attempt: nat)
    requires 1 <= attempt <= MaxRetries <= |oracle|
    ensures var o := Run(s, oracle, attempt);
      attempt <= o.attempts <= MaxRetries
      && (o.result.Success? ==> o.result == oracle[o.attempts - 1].exec)
      && (o.result.Failure? ==> o.attempts == MaxRetries)
    decreases MaxRetries - attempt
  {
    var (s1, res, torn) := AttemptSpec(s, oracle[attempt - 1]);
    if !(res.Success? || attempt == MaxRetries) {
      RunAttempts(s1, oracle, attempt + 1);
    }
  }

  /** `executeQuery` makes between one and three attempts and returns the results of the first
      attempt that succeeds. */
  lemma ExecuteQueryAttempts(s: State, oracle: seq<AttemptOracle>)
    requires MaxRetries <= |oracle|
    ensures var o := Run(s, oracle, 1);
      1 <= o.attempts <= MaxRetries
      && (o.result.Success? ==> o.result == oracle[o.attempts - 1].exec)
      && (o.result.Failure? ==> o.attempts == MaxRetries)
  {
    RunAttempts(s, oracle, 1);
  }

  /** The loop stops at the first attempt that succeeds, and moves on only after a failure. */
  lemma RunStopsAtFirstSuccess(s: State, oracle: seq<AttemptOracle>, attempt: nat)
    requires 1 <= attempt <= MaxRetries <= |oracle|
    ensures var o := Run(s, oracle, attempt);
      var first := AttemptSpec(s, oracle[attempt - 1]);
      (first.1.Success? ==> o.attempts == attempt && o.result == first.1 && o.waits == [])
      && (o.attempts > attempt ==> first.1.Failure? && o.result == Run(first.0, oracle, attempt + 1).result)
  {
  }

  /** When all attempts fail, the pool is dropped, the flag is set, and the error thrown is the
      one from the third attempt; that attempt started from a dropped pool, so it first created
      a fresh one. */
  lemma AllFailed(s: State, oracle: seq<AttemptOracle>)
    requires MaxRetries <= |oracle|
    ensures var o := Run(s, oracle, 1);
      o.result.Failure? ==>
        o.state.pool.None? && o.state.poolError
        && o.result == Failure(if oracle[2].createError.Some? then oracle[2].createError.value else oracle[2].exec.error)
  {
    var (s1, r1, _) := AttemptSpec(s, oracle[0]);
    if r1.Failure? {
      var (s2, r2, _) := AttemptSpec(s1, oracle[1]);
      if r2.Failure? {
        assert NeedsPool(s2);
      }
    }
  }

  /** The failure state after any failed attempt forces the next `getPool` to build a fresh pool,
      named by the creation counter. */
  lemma FailedAttemptRebuilds(s: State, a: AttemptOracle, next: Option<Thrown>)
    requires AttemptSpec(s, a).1.Failure?
    ensures var s1 := AttemptSpec(s, a).0;
      NeedsPool(s1) && (next.None? ==> GetPoolSpec(s1, next).1 == Success(s1.created) && s1.created >= s.created)
  {
  }

  /** The wait log: 1000·k ms after failed attempt k when another attempt follows, so one wait
      per attempt beyond the first. */
  lemma {:induction false} RunWaits(s: State, oracle: seq<AttemptOracle>, attempt: nat)
    requires 1 <= attempt <= MaxRetries <= |oracle|
    ensures var o := Run(s, oracle, attempt);
      |o.waits| == o.attempts - attempt
      && forall i :: 0 <= i < |o.waits| ==> o.waits[i] == WaitAfter(attempt + i)
    decreases MaxRetries - attempt
  {
    RunAttempts(s, oracle, attempt);
    var (s1, res, torn) := AttemptSpec(s, oracle[attempt - 1]);
    if !(res.Success? || attempt == MaxRetries) {
      RunWaits(s1, oracle, attempt + 1);
      RunAttempts(s1, oracle, attempt + 1);
    }
  }

  function Sum(xs: seq<nat>): nat {
    if xs == [] then 0 else xs[0] + Sum(xs[1..])
  }

  /** The waits of `executeQuery` are 1000 ms, then 2000 ms, never after the third attempt, and
      add up to at most 3000 ms. */
  lemma ExecuteQueryWaits(s: State, oracle: seq<AttemptOracle>)
    requires MaxRetries <= |oracle|
    ensures var o := Run(s, oracle, 1);
      o.waits == [1000, 2000][..o.attempts - 1] && Sum(o.waits) <= 3000
  {
    var o := Run(s, oracle, 1);
    RunWaits(s, oracle, 1);
    RunAttempts(s, oracle, 1);
    if o.attempts == 2 { assert o.waits == [1000]; }
    if o.attempts == 3 { assert o.waits == [1000, 2000]; }
  }

  /** One pool is ended per failed attempt when every failure comes from `execute`: a failing
      `execute` always has a pool to end. In general at most one per failed attempt. */
  lemma {:induction false} RunTeardowns(s: State, oracle: seq<AttemptOracle>, attempt: nat)
    requires 1 <= attempt <= MaxRetries <= |oracle|
    ensures var o := Run(s, oracle, attempt);
      var failed := if o.result.Success? then o.attempts - attempt else o.attempts - attempt + 1;
      o.teardowns <= failed
      && ((forall i :: attempt - 1 <= i < MaxRetries ==> oracle[i].createError.None?) ==> o.teardowns == failed)
    decreases MaxRetries - attempt
  {
    RunAttempts(s, oracle, attempt);
    var (s1, res, torn) := AttemptSpec(s, oracle[attempt - 1]);
    if !(res.Success? || attempt == MaxRetries) {
      RunTeardowns(s1, oracle, attempt + 1);
      RunAttempts(s1, oracle, attempt + 1);
    }
  }

  /** A success on attempt k after k−1 `execute` failures comes with exactly k−1 pools ended. */
  lemma ExecuteQueryTeardowns(s: State, oracle: seq<AttemptOracle>)
    requires MaxRetries <= |oracle|
    requires forall i :: 0 <= i < MaxRetries ==> oracle[i].createError.None?
    ensures var o := Run(s, oracle, 1);
      o.result.Success? ==> o.teardowns == o.attempts - 1
  {
    RunTeardowns(s, oracle, 1);
  }

  /** The module-level state of db.ts. Ghost fields log what the real code only does: sleep and
      end pools. */
  class Gateway {
    var pool: Option<nat>
    var poolError: bool
    var created: nat
    ghost var waits: seq<nat>
    ghost var teardowns: nat

    function Snapshot(): State
      reads this
    {
      State(pool, poolError, created)
    }

    /** The state at module load: no pool, no error. */
    constructor ()
      ensures Snapshot() == State(None, false, 0) && waits == [] && teardowns == 0
    {
      pool := None;
      poolError := false;
      created := 0;
      waits := [];
      teardowns := 0;
    }

    /** `createPool`: clears the flag, builds a pool; if building throws, sets the flag and rethrows.
        The caller (`getPool`) stores the new pool. */
    method CreatePool(createError: Option<Thrown>) returns (r: Result<nat, Thrown>)
      modifies this
      ensures r.Success? ==> !poolError && r.value == old(created) && created == old(created) + 1
      ensures r.Success? <==> createError.None?
      ensures r.Failure? ==> poolError && createError == Some(r.error) && created == old(created)
      ensures pool == old(pool) && waits == old(waits) && teardowns == old(teardowns)
    {
      poolError := false;
      if createError.Some? {
        poolError := true;
        return Failure(createError.value);
      }
      r := Success(created);
      created := created + 1;
    }

    /** `getPool`. */
    method GetPool(createError: Option<Thrown>) returns (r: Result<nat, Thrown>)
      modifies this
      ensures (Snapshot(), r) == GetPoolSpec(old(Snapshot()), createError)
      ensures waits == old(waits) && teardowns == old(teardowns)
    {
      if pool.None? || poolError {
        var p := CreatePool(createError);
        if p.Failure? {
          return p;
        }
        pool := Some(p.value);
      }
      r := Success(pool.value);
    }

    /** `connectDB`: get the pool, borrow and release a connection; any failure sets the flag
        and is rethrown. `connectError` is what `getConnection` throws, if anything. */
    method ConnectDB(createError: Option<Thrown>, connectError: Option<Thrown>) returns (r: Result<nat, Thrown>)
      modifies this
      ensures var (s1, p) := GetPoolSpec(old(Snapshot()), createError);
        if p.Success? && connectError.None? then
          Snapshot() == s1 && r == p
        else
          Snapshot() == s1.(poolError := true) && r.Failure?
          && r.error == (if p.Failure? then p.error else connectError.value)
      ensures waits == old(waits) && teardowns == old(teardowns)
    {
      r := GetPool(createError);
      if r.Success? && connectError.Some? {
        r := Failure(connectError.value);
      }
      if r.Failure? {
        poolError := true;
      }
    }

    /** The body of `executeQuery`'s loop: `getPool` and `execute` inside the `try`, and the
        `catch` block, which sets the flag, ends the pool if there is one (ignoring a failure to
        end it) and drops it. */
    method Attempt(a: AttemptOracle) returns (res: Result<Json, Thrown>)
      modifies this
      ensures var o := AttemptSpec(old(Snapshot()), a);
        Snapshot() == o.0 && res == o.1
        && waits == old(waits) && teardowns == old(teardowns) + (if o.2 then 1 else 0)
    {
      var p := GetPool(a.createError);
      res := if p.Success? then a.exec else Failure(p.error);
      if res.Failure? {
        poolError := true;
        if pool.Some? {
          teardowns := teardowns + 1;
          pool := None;
        }
      }
    }

    /** `executeQuery`: up to three attempts; after a failed one it waits 1000·attempt ms unless
        it was the last; after three failures the last error is thrown. */
    method ExecuteQuery(oracle: seq<AttemptOracle>) returns (r: Result<Json, Thrown>)
      requires MaxRetries <= |oracle|
      modifies this
      ensures var o := Run(old(Snapshot()), oracle, 1);
        Snapshot() == o.state && r == o.result
        && waits == old(waits) + o.waits && teardowns == old(teardowns) + o.teardowns
    {
      ghost var goal := Run(Snapshot(), oracle, 1);
      ghost var waits0, teardowns0 := waits, teardowns;
      ghost var logged: seq<nat> := [];
      var lastError: Option<Thrown> := None;
      var attempt := 1;
      while attempt <= MaxRetries
        invariant 1 <= attempt <= MaxRetries + 1
        invariant waits == waits0 + logged && teardowns >= teardowns0
        invariant attempt <= MaxRetries ==> goal == Glue(logged, teardowns - teardowns0, Run(Snapshot(), oracle, attempt))
        invariant attempt > MaxRetries ==>
                    lastError.Some?
                    && goal == RunOutcome(Snapshot(), Failure(lastError.value), logged, teardowns - teardowns0, MaxRetries)
        decreases MaxRetries + 1 - attempt
      {
        ghost var before, torn0 := Snapshot(), teardowns;
        ghost var o := AttemptSpec(before, oracle[attempt - 1]);
        RunStep(before, oracle, attempt);
        var res := Attempt(oracle[attempt - 1]);
        if res.Success? {
          return res;
        }
        lastError := Some(res.error);
        if attempt < MaxRetries {
          GlueGlue(logged, torn0 - teardowns0, [WaitAfter(attempt)], teardowns - torn0, Run(Snapshot(), oracle, attempt + 1));
          waits := waits + [WaitAfter(attempt)];
          logged := logged + [WaitAfter(attempt)];
        } else {
          assert logged + [] == logged;
        }
        attempt := attempt + 1;
      }
      r := Failure(lastError.value);
    }

    /** `closeDB`: end the pool if there is one and drop it; if ending throws, rethrow and keep
        the pool. `endError` is what `pool.end()` throws, if anything. */
    method CloseDB(endError: Option<Thrown>) returns (r: Result<(), Thrown>)
      modifies this
      ensures old(pool).None? ==> r.Success? && Snapshot() == old(Snapshot())
      ensures old(pool).Some? && endError.None? ==> r.Success? && Snapshot() == old(Snapshot()).(pool := None)
      ensures old(pool).Some? && endError.Some? ==> r == Failure(endError.value) && Snapshot() == old(Snapshot())
      ensures r.Success? ==> pool.None?
      ensures waits == old(waits) && teardowns == old(teardowns)
    {
      if pool.Some? {
        if endError.Some? {
          return Failure(endError.value);
        }
        pool := None;
      }
      r := Success(());
    }
  }
}
