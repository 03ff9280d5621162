/**
 * The deferred method-synchronisation registry of a class
 * (lib/zeevex_threadsafe/thread_safer.rb, the `included` hook and
 * `ClassMethods`).
 *
 * `make_thread_safe` wraps a method at once if it is defined and otherwise
 * remembers its name in the pending list `@delayed_thread_safe_methods`; the
 * `method_added` hook wraps a pending name when it gets defined. Wrapping
 * `m` aliases the current body to `m_without_mutex` and redefines `m` as the
 * locking wrapper; both steps are method definitions, so both fire the hook
 * again. After that the hook hands the name on to the earlier hook, which
 * raises NoMethodError when `included` did not keep one. Method tables are
 * plain data: a body is either original code or the installed wrapper.
 */
module ThreadSaferRegistry {

  type Name = string

  const Suffix: string := "_without_mutex"

  /** The name the earlier `method_added` hook is kept under by `alias_method_chain`. */
  const ChainHook: Name := "method_added_without_thread_safe"

  /** A method body: original code, or the wrapper that locks and sends `target` with marker `name`. */
  datatype Body = Plain(code: nat) | Guarded(name: Name, target: Name)

  /** The instance method whose presence at inclusion decides how the hook is installed. */
  const HookName: Name := "method_added"

  /**
   * The registry state of one class: the pending list, the methods the class
   * itself defines, the methods it inherits (fixed here), and the names the
   * hook has handed on to the earlier `method_added` hook, in order.
   * `earlierHook` records which branch `included` took: true when
   * `alias_method_chain` kept the class object's earlier hook as
   * `method_added_without_thread_safe`, false when `alias_method` installed
   * the hook with no such method. `raised` is true while the NoMethodError of
   * a hand-off to that missing method propagates: every operation stops there.
   */
  datatype Registry = Registry(pending: seq<Name>, methods: map<Name, Body>,
                               inherited: map<Name, Body>, chained: seq<Name>,
                               earlierHook: bool, raised: bool)

  /** `method.to_s.match(/_without_mutex$/)`. */
  predicate IsMutexAlias(n: Name): (b: bool)
    ensures b <==> exists p: Name :: n == p + Suffix
  {
    if |Suffix| <= |n| && n[|n| - |Suffix|..] == Suffix then
      assert n == n[..|n| - |Suffix|] + Suffix;
      true
    else
      false
  }

  /** `(old_name.to_s + "_without_mutex").to_sym`. */
  function AliasOf(m: Name): (a: Name)
    ensures IsMutexAlias(a) && a != m
  {
    assert (m + Suffix)[|m|..] == Suffix;
    m + Suffix
  }

  /**
   * `method_defined?(n)`: defined by the class itself or an ancestor; a
   * definition in the class hides the ancestor's for BodyOf.
   */
  predicate Defined(r: Registry, n: Name): (b: bool)
    ensures b <==> n in r.methods.Keys + r.inherited.Keys
  {
    n in r.methods || n in r.inherited
  }

  /** The body `n` resolves to. */
  function BodyOf(r: Registry, n: Name): Body
    requires Defined(r, n)
  {
    if n in r.methods then r.methods[n] else r.inherited[n]
  }

  /** Pending names that are already defined and not aliases: the ones the hook can still wrap. */
  ghost function Ready(r: Registry): set<Name> {
    set n | n in r.pending && Defined(r, n) && !IsMutexAlias(n)
  }

  /** No pending name is waiting for a definition that already happened. */
  ghost predicate Settled(r: Registry) {
    Ready(r) == {}
  }

  /**
   * `Array#delete`: every occurrence of `x` goes and every other element keeps
   * its count; `RemoveAllAppend` states that the rest stays in order.
   */
  function RemoveAll(s: seq<Name>, x: Name): (r: seq<Name>)
    ensures multiset(r) == multiset(s)[x := 0]
    ensures forall y :: y in r <==> y in s && y != x
  {
    if s == [] then []
    else if s[0] == x then (assert s == [s[0]] + s[1..]; RemoveAll(s[1..], x))
    else (assert s == [s[0]] + s[1..]; [s[0]] + RemoveAll(s[1..], x))
  }

  /** Deleting from a list extended by `y` deletes from the list and keeps `y` last unless it is `x`. */
  lemma {:induction false} RemoveAllAppend(s: seq<Name>, y: Name, x: Name)
    ensures RemoveAll(s + [y], x) == RemoveAll(s, x) + (if y == x then [] else [y])
    decreases |s|
  {
    if s == [] {
      assert [y][1..] == [];
    } else {
      assert (s + [y])[0] == s[0];
      assert (s + [y])[1..] == s[1..] + [y];
      RemoveAllAppend(s[1..], y, x);
    }
  }

  /**
   * Whether the hook sends `method_added_without_thread_safe`: the test is
   * `method_defined?`, so it asks for an instance method of that name, not
   * for the class object's earlier hook.
   */
  predicate Chains(r: Registry): (b: bool)
    ensures b <==> ChainHook in r.methods.Keys + r.inherited.Keys
  {
    Defined(r, ChainHook)
  }

  /**
   * The send raises NoMethodError: the test passed, but `included` took the
   * `alias_method` branch, so the class object has no method of that name.
   */
  predicate Breaks(r: Registry) {
    Chains(r) && !r.earlierHook
  }

  /** What the earlier hook receives from a series of hook calls that do not raise: all of them, or nothing. */
  function Handed(r: Registry, names: seq<Name>): seq<Name> {
    if Chains(r) && r.earlierHook then names else []
  }

  /** The hook would wrap `m`: it is pending and not an alias. */
  predicate Wraps(r: Registry, m: Name) {
    !IsMutexAlias(m) && m in r.pending
  }

  /** `r'` keeps every definition of `r`, the same ancestors and the same installed hook. */
  predicate Extends(r: Registry, r': Registry) {
    r'.inherited == r.inherited && r.methods.Keys <= r'.methods.Keys && r'.earlierHook == r.earlierHook
  }

  /**
   * `method_added_with_thread_safe(m)`, fired after `m` was defined: a pending
   * non-alias `m` is deleted from the pending list and handed to
   * `make_thread_safe`; then `m` is handed on if the class has an instance
   * method `method_added_without_thread_safe`, which raises NoMethodError
   * unless `included` chained. The hook raises exactly when that send does.
   * HookEffect states what this does.
   */
  function Hook(r: Registry, m: Name): (r': Registry)
    requires Defined(r, m) && !r.raised
    ensures Extends(r, r') && Chains(r') == Chains(r)
    ensures Ready(r') <= Ready(r) - {m}
    ensures r'.raised == Breaks(r)
    decreases Ready(r), 1
  {
    var r1 := if Wraps(r, m) then
                var r0 := r.(pending := RemoveAll(r.pending, m));
                ReadyRemove(r, m);
                Declare(r0, [m])
              else r;
    if r1.raised then r1
    else if Breaks(r1) then r1.(raised := true)
    else r1.(chained := r1.chained + Handed(r1, [m]))
  }

  /**
   * `make_thread_safe(*names)`: each defined name is wrapped now, each
   * undefined one is appended to the pending list, in order. It raises at
   * the first defined name when the hand-off raises.
   */
  function Declare(r: Registry, names: seq<Name>): (r': Registry)
    requires !r.raised
    ensures Extends(r, r') && Chains(r') == Chains(r)
    ensures Ready(r') <= Ready(r)
    ensures r'.raised <==> Breaks(r) && exists n :: n in names && Defined(r, n)
    decreases Ready(r), 3, |names|
  {
    if names == [] then r
    else
      var m := names[0];
      var r1 := if Defined(r, m) then Wrap(r, m)
                else (ReadyAppend(r, m); r.(pending := r.pending + [m]));
      assert names == [m] + names[1..];
      assert (exists n :: n in names && Defined(r, n)) <==> Defined(r, m) || exists n :: n in names[1..] && Defined(r, n);
      if r1.raised then r1 else Declare(r1, names[1..])
  }

  /**
   * `make_thread_safe_now(m)` for a defined `m`: `alias_method` copies the
   * current body to `m_without_mutex` (firing the hook for the alias), then
   * `define_method` installs the wrapper under `m` (firing the hook for `m`).
   * When the hook for the alias raises, `define_method` never runs.
   * WrapEffect states what this does.
   */
  function Wrap(r: Registry, m: Name): (r': Registry)
    requires Defined(r, m) && !r.raised
    ensures Extends(r, r') && Chains(r') == Chains(r)
    ensures Ready(r') <= Ready(r)
    ensures r'.raised == Breaks(r)
    decreases Ready(r), 2
  {
    var alias := AliasOf(m);
    var r1 := r.(methods := r.methods[alias := BodyOf(r, m)]);
    ReadyDefine(r, alias, BodyOf(r, m));
    NotAlias(ChainHook);
    var r2 := Hook(r1, alias);
    if r2.raised then r2
    else
      var r3 := r2.(methods := r2.methods[m := Guarded(m, alias)]);
      ReadyDefine(r2, m, Guarded(m, alias));
      Hook(r3, m)
  }

  /**
   * What the hook does. A pending non-alias `m` leaves the pending list (every
   * occurrence) and its body moves to `m_without_mutex`; `m` becomes the
   * wrapper unless the hand-off raises, which then happens in the hook fired
   * by `alias_method`, before `define_method`, and leaves `m` as it was. When
   * the earlier hook exists it receives the alias and `m` from the hook calls
   * the wrapping fires, then `m` itself. Any other name changes nothing but
   * the hand-off of `m`, or raises.
   */
  lemma {:induction false} HookEffect(r: Registry, m: Name)
    requires Defined(r, m) && !r.raised
    ensures Wraps(r, m) ==>
              && Hook(r, m).pending == RemoveAll(r.pending, m)
              && Hook(r, m).methods == (if Breaks(r) then r.methods[AliasOf(m) := BodyOf(r, m)]
                                        else r.methods[AliasOf(m) := BodyOf(r, m)][m := Guarded(m, AliasOf(m))])
              && Hook(r, m).chained == r.chained + Handed(r, [AliasOf(m), m, m])
              && Hook(r, m).raised == Breaks(r)
    ensures !Wraps(r, m) ==>
              Hook(r, m) == if Breaks(r) then r.(raised := true) else r.(chained := r.chained + Handed(r, [m]))
    decreases Ready(r), 1
  {
    if Wraps(r, m) {
      var r0 := r.(pending := RemoveAll(r.pending, m));
      ReadyRemove(r, m);
      var r1 := Wrap(r0, m);
      assert Declare(r0, [m]) == r1 by {
        assert exists n :: n in [m] && Defined(r0, n) by { assert m in [m]; }
        if !r1.raised {
          assert Declare(r0, [m]) == Declare(r1, []);
        }
      }
      WrapEffect(r0, m);
      if !Breaks(r) && Chains(r) {
        assert r1.chained == r.chained + [AliasOf(m), m];
        assert Hook(r, m).chained == r.chained + [AliasOf(m), m] + [m];
      }
    }
  }

  /**
   * What wrapping does: `m_without_mutex` gets the body `m` had and `m` the
   * wrapper; if `m` was still pending (a name inherited after it was
   * declared), the hook fired by `define_method` wraps it a second time, so
   * the alias ends up holding the wrapper and `m` leaves the pending list.
   * The earlier hook receives the alias and `m`, plus what the second
   * wrapping fires. When the hand-off raises, only the alias is defined and
   * nothing else changes.
   */
  lemma {:induction false} WrapEffect(r: Registry, m: Name)
    requires Defined(r, m) && !r.raised
    ensures Wrap(r, m).pending == if Wraps(r, m) && !Breaks(r) then RemoveAll(r.pending, m) else r.pending
    ensures Wrap(r, m).methods == if Breaks(r) then r.methods[AliasOf(m) := BodyOf(r, m)]
                                  else r.methods[AliasOf(m) := if Wraps(r, m) then Guarded(m, AliasOf(m)) else BodyOf(r, m)]
                                                [m := Guarded(m, AliasOf(m))]
    ensures Wrap(r, m).chained == r.chained + Handed(r, if Wraps(r, m) then [AliasOf(m), AliasOf(m), m, m]
                                                        else [AliasOf(m), m])
    ensures Wrap(r, m).raised == Breaks(r)
    decreases Ready(r), 4
  {
    WrapUnfold(r, m);
    if !Breaks(r) {
      WrapPending(r, m);
      WrapTable(r, m);
      WrapChained(r, m);
    }
  }

  /**
   * The class in the middle of wrapping `m`: the alias holds `m`'s body (its
   * hook only handed the alias on) and `m` holds the wrapper, before the hook
   * for `m` runs. No pending name has become ready.
   */
  function Staged(r: Registry, m: Name): (s: Registry)
    requires Defined(r, m)
    ensures s.pending == r.pending && s.inherited == r.inherited
    ensures s.earlierHook == r.earlierHook && s.raised == r.raised
    ensures s.methods == r.methods[AliasOf(m) := BodyOf(r, m)][m := Guarded(m, AliasOf(m))]
    ensures s.chained == r.chained + Handed(r, [AliasOf(m)])
    ensures Defined(s, m) && BodyOf(s, m) == Guarded(m, AliasOf(m))
    ensures Ready(s) <= Ready(r) && Wraps(s, m) == Wraps(r, m) && Chains(s) == Chains(r)
  {
    var r1 := r.(methods := r.methods[AliasOf(m) := BodyOf(r, m)]);
    ReadyDefine(r, AliasOf(m), BodyOf(r, m));
    ReadyDefine(r1, m, Guarded(m, AliasOf(m)));
    NotAlias(ChainHook);
    r1.(methods := r1.methods[m := Guarded(m, AliasOf(m))], chained := r.chained + Handed(r, [AliasOf(m)]))
  }

  /**
   * Wrapping `m` is the hook for `m` run on the staged class, unless the
   * hand-off raises: then the hook for the alias raises and only the alias
   * has been defined.
   */
  lemma {:induction false} WrapUnfold(r: Registry, m: Name)
    requires Defined(r, m) && !r.raised
    ensures !Breaks(r) ==> Wrap(r, m) == Hook(Staged(r, m), m)
    ensures Breaks(r) ==> Wrap(r, m) == r.(methods := r.methods[AliasOf(m) := BodyOf(r, m)], raised := true)
    decreases Ready(r), 2
  {
    var alias := AliasOf(m);
    var r1 := r.(methods := r.methods[alias := BodyOf(r, m)]);
    assert Ready(r1) == Ready(r) by { ReadyDefine(r, alias, BodyOf(r, m)); }
    assert Chains(r1) == Chains(r) by { NotAlias(ChainHook); }
    var r2 := Hook(r1, alias);
    HookEffect(r1, alias);
    if !Breaks(r) {
      assert r2 == r1.(chained := r.chained + Handed(r, [alias]));
      assert r2.(methods := r2.methods[m := Guarded(m, alias)]) == Staged(r, m);
    }
  }

  /** The pending clause of WrapEffect, on the staged class. */
  lemma {:induction false} WrapPending(r: Registry, m: Name)
    requires Defined(r, m) && !r.raised
    ensures Hook(Staged(r, m), m).pending == if Wraps(r, m) then RemoveAll(r.pending, m) else r.pending
    decreases Ready(r), 3
  {
    HookEffect(Staged(r, m), m);
  }

  /** The method-table clause of WrapEffect, on the staged class that does not raise. */
  lemma {:induction false} WrapTable(r: Registry, m: Name)
    requires Defined(r, m) && !r.raised
    ensures !Breaks(r) ==>
              Hook(Staged(r, m), m).methods
                == r.methods[AliasOf(m) := if Wraps(r, m) then Guarded(m, AliasOf(m)) else BodyOf(r, m)]
                            [m := Guarded(m, AliasOf(m))]
    decreases Ready(r), 3
  {
    HookEffect(Staged(r, m), m);
  }

  /** The hand-off clause of WrapEffect, on the staged class. */
  lemma {:induction false} WrapChained(r: Registry, m: Name)
    requires Defined(r, m) && !r.raised
    ensures Hook(Staged(r, m), m).chained
              == r.chained + Handed(r, if Wraps(r, m) then [AliasOf(m), AliasOf(m), m, m] else [AliasOf(m), m])
    decreases Ready(r), 3
  {
    var alias := AliasOf(m);
    var s := Staged(r, m);
    HookChained(s, m);
    if !(Chains(r) && r.earlierHook) {
    } else if Wraps(r, m) {
      assert r.chained + [alias] + [alias, m, m] == r.chained + ([alias] + [alias, m, m]);
    } else {
      assert r.chained + [alias] + [m] == r.chained + ([alias] + [m]);
    }
  }

  /** The hand-off clause of HookEffect on its own. */
  lemma HookChained(r: Registry, m: Name)
    requires Defined(r, m) && !r.raised
    ensures Hook(r, m).chained == r.chained + Handed(r, if Wraps(r, m) then [AliasOf(m), m, m] else [m])
    decreases Ready(r), 2
  {
    HookEffect(r, m);
  }

  /** Defining an alias, or redefining a defined name, leaves the ready set alone. */
  lemma ReadyDefine(r: Registry, n: Name, b: Body)
    requires IsMutexAlias(n) || Defined(r, n)
    ensures Ready(r.(methods := r.methods[n := b])) == Ready(r)
  {
  }

  /** Remembering an undefined name leaves the ready set alone. */
  lemma ReadyAppend(r: Registry, n: Name)
    requires !Defined(r, n)
    ensures Ready(r.(pending := r.pending + [n])) == Ready(r)
  {
  }

  /** Deleting a name from the pending list takes it out of the ready set. */
  lemma ReadyRemove(r: Registry, n: Name)
    ensures Ready(r.(pending := RemoveAll(r.pending, n))) == Ready(r) - {n}
  {
  }

  /** The chain hook's name is not an alias, so wrapping never defines it. */
  lemma NotAlias(n: Name)
    requires n == ChainHook
    ensures !IsMutexAlias(n)
  {
    assert n[|n| - |Suffix|..][0] != Suffix[0];
  }

  /**
   * The `included` hook: the class starts with an empty pending list, and the
   * hook is chained exactly when the class has an instance method
   * `method_added` (`method_defined?` again, not the class object's hook).
   */
  function Included(methods: map<Name, Body>, inherited: map<Name, Body>): (r: Registry)
    ensures r.pending == [] && Settled(r) && r.chained == [] && !r.raised
    ensures r.methods == methods && r.inherited == inherited
    ensures r.earlierHook <==> HookName in methods || HookName in inherited
  {
    Registry([], methods, inherited, [], HookName in methods || HookName in inherited, false)
  }

  /**
   * A `def m` in the class body: the definition, then the hook, which raises
   * exactly when the class lacks the chained hook but has, or is just
   * getting, an instance method `method_added_without_thread_safe`.
   */
  function DefineMethod(r: Registry, m: Name, code: nat): (r': Registry)
    requires !r.raised
    ensures Extends(r, r') && m in r'.methods
    ensures Ready(r') <= Ready(r)
    ensures || r'.methods[m] == Plain(code)
            || (r'.methods[m] == Guarded(m, AliasOf(m)) && AliasOf(m) in r'.methods && r'.methods[AliasOf(m)] == Plain(code))
    ensures r'.raised <==> !r.earlierHook && (Chains(r) || m == ChainHook)
  {
    var r1 := r.(methods := r.methods[m := Plain(code)]);
    ReadyDefineNew(r, m, Plain(code));
    HookEffect(r1, m);
    Hook(r1, m)
  }

  /**
   * `make_thread_safe_now(*names)`: wraps each name in turn; `alias_method`
   * raises NameError at the first undefined one, after the earlier names were
   * wrapped, and the hand-off raises NoMethodError in the first wrapping when
   * it raises at all. `ok` is false when either was raised.
   */
  function WrapAll(r: Registry, names: seq<Name>): (res: (Registry, bool))
    requires !r.raised
    ensures Extends(r, res.0) && Ready(res.0) <= Ready(r)
    ensures res.1 <==> !res.0.raised && forall n :: n in names ==> Defined(res.0, n)
    ensures res.0.raised <==> Breaks(r) && |names| > 0 && Defined(r, names[0])
    decreases |names|
  {
    if names == [] then (r, true)
    else if !Defined(r, names[0]) then (r, false)
    else
      var r1 := Wrap(r, names[0]);
      if r1.raised then (r1, false) else WrapAll(r1, names[1..])
  }

  /** Defining a new name can make only that name ready. */
  lemma ReadyDefineNew(r: Registry, n: Name, b: Body)
    ensures Ready(r.(methods := r.methods[n := b])) <= Ready(r) + {n}
  {
  }

  /**
   * Once settled, a class stays settled under every operation: no pending
   * name is ever left waiting for a definition that already happened.
   */
  lemma DefineKeepsSettled(r: Registry, m: Name, code: nat)
    requires Settled(r) && !r.raised
    ensures Settled(DefineMethod(r, m, code))
  {
    ReadyDefineNew(r, m, Plain(code));
  }

  /** As DefineKeepsSettled, for `make_thread_safe_now`. */
  lemma {:induction false} WrapAllKeepsSettled(r: Registry, names: seq<Name>)
    requires Settled(r) && !r.raised
    ensures Settled(WrapAll(r, names).0)
    decreases |names|
  {
    if names != [] && Defined(r, names[0]) && !Wrap(r, names[0]).raised {
      WrapAllKeepsSettled(Wrap(r, names[0]), names[1..]);
    }
  }

  /**
   * Declaring names none of which is defined only appends them, in order, to
   * the pending list; nothing else changes.
   */
  lemma {:induction false} DeclareUndefined(r: Registry, names: seq<Name>)
    requires !r.raised && forall i :: 0 <= i < |names| ==> !Defined(r, names[i])
    ensures Declare(r, names) == r.(pending := r.pending + names)
    decreases |names|
  {
    if names != [] {
      var r1 := r.(pending := r.pending + [names[0]]);
      DeclareUndefined(r1, names[1..]);
      assert r.pending + [names[0]] + names[1..] == r.pending + names;
    }
  }

  /**
   * Declaring a defined name on a settled class wraps it at once: the alias
   * holds the body it had, the name holds the wrapper, the pending list is
   * unchanged. When the hand-off raises, the alias gets the body and the name
   * keeps it, unwrapped.
   */
  lemma DeclareDefined(r: Registry, m: Name)
    requires Settled(r) && Defined(r, m) && !r.raised
    ensures Declare(r, [m]).pending == r.pending
    ensures Declare(r, [m]).methods == if Breaks(r) then r.methods[AliasOf(m) := BodyOf(r, m)]
                                       else r.methods[AliasOf(m) := BodyOf(r, m)][m := Guarded(m, AliasOf(m))]
    ensures Declare(r, [m]).raised == Breaks(r)
  {
    assert Declare(r, [m]) == Wrap(r, m) by {
      if !Breaks(r) {
        assert Declare(r, [m]) == Declare(Wrap(r, m), []);
      }
    }
    WrapEffect(r, m);
    assert m !in Ready(r);
  }

  /**
   * Defining a pending name that is not an alias removes every occurrence of
   * it from the pending list and wraps the new body. When the hand-off
   * raises, the alias gets the body and the name keeps it, unwrapped.
   */
  lemma DefinePending(r: Registry, m: Name, code: nat)
    requires m in r.pending && !IsMutexAlias(m) && !r.raised
    ensures m !in DefineMethod(r, m, code).pending
    ensures DefineMethod(r, m, code).pending == RemoveAll(r.pending, m)
    ensures DefineMethod(r, m, code).methods
              == if DefineMethod(r, m, code).raised then r.methods[m := Plain(code)][AliasOf(m) := Plain(code)]
                 else r.methods[AliasOf(m) := Plain(code)][m := Guarded(m, AliasOf(m))]
  {
    var r0 := r.(methods := r.methods[m := Plain(code)]);
    assert DefineMethod(r, m, code) == Hook(r0, m);
    assert Wraps(r0, m) && BodyOf(r0, m) == Plain(code);
    HookEffect(r0, m);
    if !Breaks(r0) {
      assert r0.methods[AliasOf(m) := Plain(code)][m := Guarded(m, AliasOf(m))]
          == r.methods[AliasOf(m) := Plain(code)][m := Guarded(m, AliasOf(m))];
    }
  }

  /** Defining a name ending in `_without_mutex` never wraps it, even when it is pending. */
  lemma DefineAliasNeverWraps(r: Registry, m: Name, code: nat)
    requires IsMutexAlias(m) && !r.raised
    ensures DefineMethod(r, m, code).pending == r.pending
    ensures DefineMethod(r, m, code).methods == r.methods[m := Plain(code)]
  {
    HookEffect(r.(methods := r.methods[m := Plain(code)]), m);
  }

  /**
   * Declaring a defined name twice is not idempotent: the second wrapping
   * aliases the wrapper itself, so the original body is no longer reachable
   * from either name. (When the hand-off raises, the first declaration
   * already raised.)
   */
  lemma RedeclareLosesBody(r: Registry, m: Name)
    requires Settled(r) && Defined(r, m) && !r.raised
    ensures Declare(r, [m]).raised == Breaks(r)
    ensures !Breaks(r) ==>
              var r2 := Declare(Declare(r, [m]), [m]);
              && AliasOf(m) in r2.methods && r2.methods[AliasOf(m)] == Guarded(m, AliasOf(m))
              && m in r2.methods && r2.methods[m] == Guarded(m, AliasOf(m))
  {
    DeclareDefined(r, m);
    if !Breaks(r) {
      DeclareDefined(Declare(r, [m]), m);
    }
  }

  /**
   * A class that includes ThreadSafer, as its instance variables: the pending
   * list `@delayed_thread_safe_methods`, its method table, the record of
   * hand-offs to the earlier hook, and which hook `included` installed. Each
   * method is proved against the function of the same behaviour above; the
   * NoMethodError of a hand-off is its `raised` result, and the class keeps
   * the state the raise left it in.
   */
  class SaferClass {
    var pending: seq<Name>
    var methods: map<Name, Body>
    const inherited: map<Name, Body>
    var chained: seq<Name>
    const earlierHook: bool

    function State(): Registry
      reads this
    {
      Registry(pending, methods, inherited, chained, earlierHook, false)
    }

    /** `ThreadSafer.included(base)`. */
    constructor (methods: map<Name, Body>, inherited: map<Name, Body>)
      ensures State() == Included(methods, inherited)
    {
      this.pending := [];
      this.methods := methods;
      this.inherited := inherited;
      this.chained := [];
      this.earlierHook := HookName in methods || HookName in inherited;
    }

    /** A `def m` in the class body. */
    method Def(m: Name, code: nat) returns (raised: bool)
      modifies this
      ensures var r := DefineMethod(old(State()), m, code); State() == r.(raised := false) && raised == r.raised
    {
      methods := methods[m := Plain(code)];
      raised := MethodAdded(m);
    }

    /** `method_added_with_thread_safe(m)`. */
    method MethodAdded(m: Name) returns (raised: bool)
      requires m in methods || m in inherited
      modifies this
      ensures var r := Hook(old(State()), m); State() == r.(raised := false) && raised == r.raised
      decreases Ready(State()), 1
    {
      raised := false;
      if !IsMutexAlias(m) && m in pending {
        ReadyRemove(State(), m);
        pending := RemoveAll(pending, m);
        raised := MakeThreadSafe([m]);
      }
      if !raised && (ChainHook in methods || ChainHook in inherited) {
        if earlierHook {
          chained := chained + [m];
        } else {
          raised := true;
        }
      }
    }

    /** `make_thread_safe(*names)`. */
    method MakeThreadSafe(names: seq<Name>) returns (raised: bool)
      modifies this
      ensures var r := Declare(old(State()), names); State() == r.(raised := false) && raised == r.raised
      decreases Ready(State()), 3
    {
      var i := 0;
      while i < |names|
        invariant 0 <= i <= |names|
        invariant Declare(State(), names[i..]) == Declare(old(State()), names)
        invariant Ready(State()) <= Ready(old(State()))
      {
        var m := names[i];
        assert names[i..][1..] == names[i + 1..];
        if m in methods || m in inherited {
          raised := MakeThreadSafeNowOne(m);
          if raised {
            return;
          }
        } else {
          ReadyAppend(State(), m);
          pending := pending + [m];
        }
        i := i + 1;
      }
      return false;
    }

    /** One iteration of `make_thread_safe_now`, for a defined name. */
    method MakeThreadSafeNowOne(m: Name) returns (raised: bool)
      requires m in methods || m in inherited
      modifies this
      ensures var r := Wrap(old(State()), m); State() == r.(raised := false) && raised == r.raised
      decreases Ready(State()), 2
    {
      var alias := AliasOf(m);
      ReadyDefine(State(), alias, BodyOf(State(), m));
      NotAlias(ChainHook);
      methods := methods[alias := BodyOf(State(), m)];
      raised := MethodAdded(alias);
      if raised {
        return;
      }
      ReadyDefine(State(), m, Guarded(m, alias));
      methods := methods[m := Guarded(m, alias)];
      raised := MethodAdded(m);
    }

    /**
     * `make_thread_safe_now(*names)`; `ok` is false when it raised, and
     * `raised` tells NoMethodError from the hand-off apart from NameError.
     */
    method MakeThreadSafeNow(names: seq<Name>) returns (ok: bool, raised: bool)
      modifies this
      ensures var res := WrapAll(old(State()), names);
              State() == res.0.(raised := false) && ok == res.1 && raised == res.0.raised
    {
      var rest := names;
      while rest != []
        invariant WrapAll(State(), rest) == WrapAll(old(State()), names)
        decreases |rest|
      {
        var m := rest[0];
        if !(m in methods || m in inherited) {
          return false, false;
        }
        raised := MakeThreadSafeNowOne(m);
        if raised {
          return false, true;
        }
        rest := rest[1..];
      }
      return true, false;
    }
  }
}
