/**
 * The instance side of ThreadSafer (lib/zeevex_threadsafe/thread_safer.rb,
 * `InstanceMethods#_ts_mutex` and the wrapper `make_thread_safe_now`
 * installs).
 *
 * The per-instance mutex is created on first use and is not reentrant; the
 * marker `@in_thread_safe_method` names the wrapped method while its body
 * runs. The lock is a flag: a call runs to completion before the next one,
 * and taking a lock the caller already holds raises, as Ruby's
 * `Mutex#synchronize` does for the owning thread. An original method body is
 * an abstract function from what it observes of the instance to its outcome.
 */
module ThreadSaferInstance {
  import opened Wrappers
  import opened ThreadSaferRegistry

  /** NoMethodError, ThreadError on recursive locking, or an error the body raised. */
  datatype Error = NoMethod(name: Name) | RecursiveLocking | Failure(code: nat)

  datatype Outcome = Returned(value: int) | Raised(error: Error)

  /** What a running body can see of its receiver: the lock and the marker. */
  datatype Observation = Observation(locked: bool, marker: Option<Name>)

  /** What original body `code` does, given what it observes. */
  type Run = (nat, Observation) -> Outcome

  /** An instance's synchronisation state: has `@_ts_mutex` been created, is it held, the marker. */
  datatype InstState = InstState(hasMutex: bool, locked: bool, marker: Option<Name>)

  /**
   * `__send__ target` from inside a wrapper that holds the lock with marker
   * `g`: an original body runs seeing both; another wrapper tries to take the
   * same lock and raises.
   */
  function Inner(r: Registry, g: Name, target: Name, run: Run): (out: Outcome)
    ensures !Defined(r, target) ==> out == Raised(NoMethod(target))
    ensures Defined(r, target) && BodyOf(r, target).Guarded? ==> out == Raised(RecursiveLocking)
    ensures Defined(r, target) && BodyOf(r, target).Plain? ==>
              out == run(BodyOf(r, target).code, Observation(true, Some(g)))
  {
    if !Defined(r, target) then Raised(NoMethod(target))
    else match BodyOf(r, target)
      case Plain(c) => run(c, Observation(true, Some(g)))
      case Guarded(_, _) => Raised(RecursiveLocking)
  }

  /**
   * Calling method `name` on an instance in state `s`. A wrapper
   * `Guarded(g, t)` takes the instance's mutex (creating it if needed), sets
   * the marker to `g`, sends `t`, clears the marker only if `t` returned, and
   * always releases the mutex. Every call that starts unlocked ends unlocked;
   * after a wrapper the marker is clear exactly when the body returned, and
   * otherwise keeps the wrapped name.
   */
  function Invoke(r: Registry, s: InstState, name: Name, run: Run): (res: (Outcome, InstState))
    ensures !s.locked ==> !res.1.locked
    ensures !Defined(r, name) ==> res == (Raised(NoMethod(name)), s)
    ensures Defined(r, name) && BodyOf(r, name).Plain? ==> res.1 == s
    ensures Defined(r, name) && BodyOf(r, name).Guarded? ==>
              && res.1.hasMutex
              && (!s.locked ==> res.1.marker == if res.0.Returned? then None else Some(BodyOf(r, name).name))
  {
    if !Defined(r, name) then (Raised(NoMethod(name)), s)
    else match BodyOf(r, name)
      case Plain(c) => (run(c, Observation(s.locked, s.marker)), s)
      case Guarded(g, t) =>
        if s.locked then (Raised(RecursiveLocking), s.(hasMutex := true))
        else
          var out := Inner(r, g, t, run);
          (out, InstState(true, false, if out.Returned? then None else Some(g)))
  }

  /**
   * Deferred synchronisation: declaring an undefined name and then defining
   * it yields a method whose body runs holding the lock with the marker set
   * to its name; afterwards the lock is free and the marker clear if the body
   * returned, still set if it raised. If the hand-off raised during the
   * definition, the method stays unwrapped and its body runs without the lock.
   */
  lemma DeferredThenDefined(r: Registry, m: Name, code: nat, s: InstState, run: Run)
    requires Settled(r) && !Defined(r, m) && !IsMutexAlias(m) && !s.locked && !r.raised
    ensures var r' := DefineMethod(Declare(r, [m]), m, code);
            var out := run(code, Observation(true, Some(m)));
            !r'.raised ==> Invoke(r', s, m, run) == (out, InstState(true, false, if out.Returned? then None else Some(m)))
    ensures var r' := DefineMethod(Declare(r, [m]), m, code);
            r'.raised ==> Invoke(r', s, m, run) == (run(code, Observation(false, s.marker)), s)
  {
    DeclareUndefined(r, [m]);
    DefinePending(Declare(r, [m]), m, code);
  }

  /**
   * Declaring an already defined method synchronises it at once, around the
   * body it had, unless the hand-off raises: then its body still runs
   * without the lock.
   */
  lemma DeclaredNow(r: Registry, m: Name, code: nat, s: InstState, run: Run)
    requires Settled(r) && Defined(r, m) && BodyOf(r, m) == Plain(code) && !s.locked && !r.raised
    ensures var out := run(code, Observation(true, Some(m)));
            !Breaks(r) ==> Invoke(Declare(r, [m]), s, m, run)
                             == (out, InstState(true, false, if out.Returned? then None else Some(m)))
    ensures Breaks(r) ==> Invoke(Declare(r, [m]), s, m, run) == (run(code, Observation(false, s.marker)), s)
  {
    DeclareDefined(r, m);
  }

  /**
   * Declaring a defined method twice breaks it: the call sends the alias,
   * which now holds the wrapper too, and that tries to take the lock the
   * call already holds. The call raises and leaves the marker set.
   */
  lemma RedeclaredRaises(r: Registry, m: Name, s: InstState, run: Run)
    requires Settled(r) && Defined(r, m) && !s.locked && !r.raised
    ensures !Breaks(r) ==> Invoke(Declare(Declare(r, [m]), [m]), s, m, run)
                             == (Raised(RecursiveLocking), InstState(true, false, Some(m)))
  {
    RedeclareLosesBody(r, m);
  }

  /** A Ruby Mutex, reduced to whether it is held. */
  class Mutex {
    var locked: bool

    constructor ()
      ensures !locked
    {
      locked := false;
    }
  }

  /** An instance of a class that includes ThreadSafer. */
  class Instance {
    const klass: SaferClass
    var tsMutex: Mutex?         // @_ts_mutex
    var marker: Option<Name>    // @in_thread_safe_method

    function Abstract(): InstState
      reads this, tsMutex
    {
      InstState(tsMutex != null, tsMutex != null && tsMutex.locked, marker)
    }

    constructor (klass: SaferClass)
      ensures this.klass == klass && tsMutex == null && marker == None
    {
      this.klass := klass;
      tsMutex := null;
      marker := None;
    }

    /** `_ts_mutex`: `@_ts_mutex ||= Mutex.new`; the same mutex on every later call. */
    method TsMutex() returns (mx: Mutex)
      modifies this
      ensures old(tsMutex) != null ==> mx == old(tsMutex)
      ensures old(tsMutex) == null ==> fresh(mx) && !mx.locked
      ensures tsMutex == mx && marker == old(marker)
    {
      if tsMutex == null {
        tsMutex := new Mutex();
      }
      mx := tsMutex;
    }

    /** Calling method `name` on this instance. */
    method Call(name: Name, run: Run) returns (out: Outcome)
      modifies this, tsMutex
      ensures (out, Abstract()) == Invoke(klass.State(), old(Abstract()), name, run)
      ensures old(tsMutex) != null ==> tsMutex == old(tsMutex)
    {
      var r := klass.State();
      if !(name in r.methods || name in r.inherited) {
        return Raised(NoMethod(name));
      }
      match BodyOf(r, name)
      case Plain(c) =>
        out := run(c, Observation(tsMutex != null && tsMutex.locked, marker));
      case Guarded(g, t) =>
        var mx := TsMutex();
        if mx.locked {
          return Raised(RecursiveLocking);
        }
        mx.locked := true;
        marker := Some(g);
        out := SendInner(r, g, t, run);
        if out.Returned? {
          marker := None;
        }
        mx.locked := false;
    }

    /** `__send__ new_name` while the wrapper holds the lock. */
    method SendInner(r: Registry, g: Name, target: Name, run: Run) returns (out: Outcome)
      requires tsMutex != null && tsMutex.locked && marker == Some(g)
      ensures out == Inner(r, g, target, run)
    {
      if !(target in r.methods || target in r.inherited) {
        return Raised(NoMethod(target));
      }
      match BodyOf(r, target)
      case Plain(c) =>
        out := run(c, Observation(tsMutex.locked, marker));
      case Guarded(_, _) =>
        out := Raised(RecursiveLocking);
    }
  }
}
