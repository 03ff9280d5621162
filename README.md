# zeevex_threadsafe: thread-local attributes and deferred method synchronisation, in Dafny

This project models two sequential cores of the `zeevex_threadsafe` Ruby toolkit.

**Thread-local attributes** (`lib/zeevex_threadsafe/thread_locals.rb`). Each host object
(an instance, or the class object for `cthread_local`) keeps `@_thread_local_threads`.
It is nil until the first write. After that it maps a thread's `object_id` to that
thread's own key-to-value table. The generated reader is a pure lookup with a
three-level fallback: the stored value, then the block's `(host, key)` result, then
`:default`, which is nil when absent. The writer creates the outer map and the
caller's table lazily. `_thread_local_clean` deletes the tables of threads that are
no longer alive. `define_thread_local_accessors` splits a trailing options hash off
its arguments and installs a reader/writer pair per name with the chosen visibility.
The calling thread's id and the live-thread list are parameters.

* `ThreadLocalStore`: the book as `Option<map<Tid, map<Key, Value>>>`; the reader
  `Read`, the writer `Write`, pruning `Pruned`; a `Host` class whose `Set` and
  `Clean` update the book in place; traces of accesses (`Replay`) for
  isolation and book-keeping properties.
* `ThreadLocalAccessors`: options parsing, the per-name loop, the method tables of
  a class (`RubyClass.instanceSide` for `thread_local`, `classSide` for
  `cthread_local`, whose host is the class object), and calling an accessor by name.

**Deferred method synchronisation** (`lib/zeevex_threadsafe/thread_safer.rb`). A class
that includes ThreadSafer holds a pending list `@delayed_thread_safe_methods`.
`make_thread_safe` wraps defined names now and appends undefined ones to that list.
The `method_added` hook wraps a pending name once it is defined. It skips names
ending in `_without_mutex` and may hand the name on to an earlier hook, or raise
trying (below). Wrapping `m` aliases the
current body to `m_without_mutex` and defines `m` as a wrapper. Both of those are
method definitions, so each fires the hook again, and the model follows those
nested calls. The wrapper takes the instance's lazily created mutex, sets
`@in_thread_safe_method`, sends the alias, clears the marker and releases the mutex.

* `ThreadSaferRegistry`: the class state as a `Registry` value; `Hook`, `Declare`
  (`make_thread_safe`), `Wrap` (`make_thread_safe_now` for one name) as mutually
  recursive functions; lemmas on their effect; a `SaferClass` whose methods
  update the same state in place and are proved equal to those functions.
* `ThreadSaferInstance`: the wrapper call `Invoke` over an abstract body, the
  `Instance` class with `_ts_mutex` and `Call`, and end-to-end lemmas.

Four behaviours of the code that are easy to get wrong, and that the model keeps as written:

* Declaring an already wrapped method again is not a no-op. The second wrap
  aliases the wrapper onto `m_without_mutex`, so the original body is lost and
  every call raises on recursive locking (`RedeclareLosesBody`, `RedeclaredRaises`).
* The marker is cleared only when the body returns; if the body raises it keeps
  the method's name (`Invoke`).
* `included` chains the hook with `alias_method_chain` only when `method_defined?(:method_added)`
  holds, that is, when the class has an instance method `method_added`. Otherwise it
  installs the hook with `alias_method`, and the class object then has no
  `method_added_without_thread_safe`. The hook hands a name on when
  `method_defined?(:method_added_without_thread_safe)` holds, which again asks about
  instance methods (`Chains`). So once a class without an instance `method_added` has
  an instance method `method_added_without_thread_safe`, every hook call raises
  NoMethodError (`Breaks`). Wrapping then stops right after `alias_method`: the alias
  holds the body and the name stays unwrapped (`HookEffect`, `WrapEffect`, `DeclaredNow`).
  The model keeps the state the raise leaves behind and reports the raise as `raised`.
* The first write from a new thread is not guarded by any lock in the code. The
  model is sequential.

## Model

| member | source | states |
|---|---|---|
| ThreadLocalStore.LocalTable | lib/zeevex_threadsafe/thread_locals.rb:62 | the lookup without autocreate yields a table exactly when the host has a book holding the thread, and then that thread's table |
| ThreadLocalStore.Read | lib/zeevex_threadsafe/thread_locals.rb:72-77 | the reader returns the calling thread's stored value when the key is stored for it, and the fallback otherwise |
| ThreadLocalStore.Fallback | lib/zeevex_threadsafe/thread_locals.rb:75-76 | a miss yields the block's (host, key) result when a block was given, else the :default, else nil |
| ThreadLocalStore.Host.Get | lib/zeevex_threadsafe/thread_locals.rb:72-77 | the reader on a host returns the stored value for the thread and key, else the fallback with that host |
| ThreadLocalStore.Write | lib/zeevex_threadsafe/thread_locals.rb:56-65 | the writer's book holds exactly the old threads plus the caller; other threads' tables are unchanged; the caller's table is its old one (or a new empty one) with the key set |
| ThreadLocalStore.Pruned | lib/zeevex_threadsafe/thread_locals.rb:38-41 | a thread keeps its table after cleaning exactly when it is live, and kept tables are unchanged |
| ThreadLocalStore.ReadAfterWrite | lib/zeevex_threadsafe/thread_locals.rb:72-81 | a read after a write of v on the same thread returns v, also after any number of further reads |
| ThreadLocalStore.MissFallsBack | lib/zeevex_threadsafe/thread_locals.rb:74-76 | on a miss the reader returns the block's (host, key) result, else the :default, else nil |
| ThreadLocalStore.ReadsLeaveBook | lib/zeevex_threadsafe/thread_locals.rb:56-65 | any sequence of reads leaves the book as it was, a nil book included |
| ThreadLocalStore.ReplayThreads | lib/zeevex_threadsafe/thread_locals.rb:58-60 | after a trace the book exists iff it existed or someone wrote, and holds exactly the old threads plus the writers |
| ThreadLocalStore.BookkeepingGrowth | lib/zeevex_threadsafe/thread_locals.rb:58-60 | writes from N distinct threads on an untouched host leave exactly N tables |
| ThreadLocalStore.Isolation | lib/zeevex_threadsafe/thread_locals.rb:60-62 | a thread's table after any interleaved trace equals its table after its own accesses only |
| ThreadLocalStore.FreshThreadReadsDefault | lib/zeevex_threadsafe/thread_locals.rb:73-76 | a thread that never wrote reads the fallback, whatever other threads wrote |
| ThreadLocalStore.PruneCount | lib/zeevex_threadsafe/thread_locals.rb:38-41 | cleaning with M of the recorded threads live leaves M tables |
| ThreadLocalStore.Host.Set | lib/zeevex_threadsafe/thread_locals.rb:79-81 | the in-place writer leaves the book equal to Write of the old book |
| ThreadLocalStore.Host.Clean | lib/zeevex_threadsafe/thread_locals.rb:38-41 | the deletion loop leaves Pruned of the old book; on a nil book it raises and changes nothing |
| ThreadLocalStore.Host.constructor | spec/thread_locals_spec.rb:186-193 | a new host has no book-keeping: its book is nil |
| ThreadLocalAccessors.VisibilityOf | lib/zeevex_threadsafe/thread_locals.rb:83-85 | both accessors get the :visibility option when given and stay public otherwise |
| ThreadLocalAccessors.SplitOptions | lib/zeevex_threadsafe/thread_locals.rb:68 | a hash is taken as the options exactly when it is the last argument; otherwise the options are empty |
| ThreadLocalAccessors.InstallPair | lib/zeevex_threadsafe/thread_locals.rb:72-85 | one pass of the loop adds exactly the reader and the writer for the name, both with the declared visibility, and leaves every other method as it was |
| ThreadLocalAccessors.Declare | lib/zeevex_threadsafe/thread_locals.rb:67-88 | define_thread_local_accessors completes exactly when every argument but the last is a name, and then every name argument has a reader and a writer |
| ThreadLocalAccessors.SplitNames | lib/zeevex_threadsafe/thread_locals.rb:68-70 | after the trailing hash is popped, the loop reaches every argument exactly when every argument but the last is a name |
| ThreadLocalAccessors.Accessors | lib/zeevex_threadsafe/thread_locals.rb:69-87 | every name before the first stray hash gets a reader and a writer of the declared visibility; no other method changes; ok iff no stray hash |
| ThreadLocalAccessors.DeclaredPairs | lib/zeevex_threadsafe/thread_locals.rb:69-85 | each declared name's reader reads its own key with the declared block and options, its writer writes that key, when no declared name ends in = |
| ThreadLocalAccessors.DeclareOne | lib/zeevex_threadsafe/thread_locals.rb:67-88 | declaring a single name without options completes and installs exactly that name's reader and writer |
| ThreadLocalAccessors.DeclareOneWith | lib/zeevex_threadsafe/thread_locals.rb:67-88 | declaring a single name followed by an options hash completes and installs exactly that name's reader and writer with those options |
| ThreadLocalAccessors.PublicByDefault | lib/zeevex_threadsafe/thread_locals.rb:83-85 | without a :visibility option both accessors stay public |
| ThreadLocalAccessors.DefineAccessors | lib/zeevex_threadsafe/thread_locals.rb:67-88 | the in-place loop leaves the table and result that Declare gives |
| ThreadLocalAccessors.RubyClass.constructor | lib/zeevex_threadsafe/thread_locals.rb:44-51 | a class starts with two separate, empty tables, the one its instances answer to and the one its class object answers to, and a class object whose book is nil |
| ThreadLocalAccessors.RubyClass.ThreadLocal | lib/zeevex_threadsafe/thread_locals.rb:45-47 | thread_local installs on the table the instances answer to and leaves the class-side table as it was |
| ThreadLocalAccessors.RubyClass.CThreadLocal | lib/zeevex_threadsafe/thread_locals.rb:49-51 | cthread_local installs on the table the class object answers to and leaves the instance-side table as it was |
| ThreadLocalAccessors.CallReader | lib/zeevex_threadsafe/thread_locals.rb:72-77 | calling a reader returns Read on the receiving host's book; any other name raises |
| ThreadLocalAccessors.CallWriter | lib/zeevex_threadsafe/thread_locals.rb:79-81 | calling a writer stores the value for the calling thread on the receiver only |
| ThreadLocalAccessors.NewDualClass | lib/zeevex_threadsafe/thread_locals.rb:45-51 | declared with different options on the two sides, thread_local puts the name's pair with its options on the instance-side table and cthread_local the pair with the other options on the class-side table; the class object's book starts nil |
| ThreadLocalAccessors.SameNameOnClassAndInstance | lib/zeevex_threadsafe/thread_locals.rb:45-51 | for any name, thread, two values and two sets of options: after declaring the name with both thread_local and cthread_local, writing one value on the class object and then the other on an instance, each reads back its own value |
| ThreadSaferRegistry.RemoveAll | lib/zeevex_threadsafe/thread_safer.rb:34 | Array#delete removes every occurrence and keeps every other element's count |
| ThreadSaferRegistry.RemoveAllAppend | lib/zeevex_threadsafe/thread_safer.rb:34 | Array#delete keeps the remaining elements in their order |
| ThreadSaferRegistry.IsMutexAlias | lib/zeevex_threadsafe/thread_safer.rb:33 | a name matches /_without_mutex$/ exactly when it is some name followed by _without_mutex |
| ThreadSaferRegistry.Defined | lib/zeevex_threadsafe/thread_safer.rb:37-43 | method_defined? holds exactly when the class or one of its ancestors has the instance method |
| ThreadSaferRegistry.Chains | lib/zeevex_threadsafe/thread_safer.rb:37 | the hook sends method_added_without_thread_safe exactly when the class or an ancestor has an instance method of that name |
| ThreadSaferRegistry.AliasOf | lib/zeevex_threadsafe/thread_safer.rb:54 | the alias name ends in _without_mutex and differs from the original |
| ThreadSaferRegistry.Hook | lib/zeevex_threadsafe/thread_safer.rb:19-38 | the hook keeps every definition and leaves no newly ready pending name, the added name included; it raises exactly when the hand-off finds the instance method but the hook was not chained |
| ThreadSaferRegistry.Declare | lib/zeevex_threadsafe/thread_safer.rb:40-49 | make_thread_safe keeps every definition and never makes a pending name ready; it raises exactly when the hand-off raises and one of the names is defined |
| ThreadSaferRegistry.Wrap | lib/zeevex_threadsafe/thread_safer.rb:51-66 | make_thread_safe_now keeps every definition and never makes a pending name ready; it raises exactly when the hand-off raises |
| ThreadSaferRegistry.HookEffect | lib/zeevex_threadsafe/thread_safer.rb:19-38 | a pending non-alias name leaves the pending list, its body moves to the alias, and the name becomes the wrapper unless the hand-off raised first; any other name changes nothing or raises; a chained earlier hook receives the name last |
| ThreadSaferRegistry.WrapEffect | lib/zeevex_threadsafe/thread_safer.rb:19-66 | the alias receives the prior body and the name the wrapper; a still-pending name is wrapped twice; the hand-offs fired by both definitions; when the hand-off raises only the alias is defined |
| ThreadSaferRegistry.Staged | lib/zeevex_threadsafe/thread_safer.rb:53-64 | after alias_method and define_method, before the hook for the name runs: the alias holds the prior body, the name holds the wrapper, and no pending name has become ready |
| ThreadSaferRegistry.WrapUnfold | lib/zeevex_threadsafe/thread_safer.rb:53-64 | the hook fired by alias_method changes nothing except the hand-off, so wrapping amounts to the hook for the name run on the staged class; if that hook raises, wrapping stops with only the alias defined |
| ThreadSaferRegistry.WrapPending | lib/zeevex_threadsafe/thread_safer.rb:33-34 | the pending list after wrapping: the name leaves it exactly when it was pending |
| ThreadSaferRegistry.WrapTable | lib/zeevex_threadsafe/thread_safer.rb:53-64 | the method table once the hook for the name has run without raising: the alias holds the prior body (the wrapper if the name was still pending) and the name the wrapper |
| ThreadSaferRegistry.WrapChained | lib/zeevex_threadsafe/thread_safer.rb:19-37 | the names handed to the earlier hook over both definitions made while wrapping: all of them when the hook was chained and the instance method exists, none otherwise |
| ThreadSaferRegistry.DefineMethod | lib/zeevex_threadsafe/thread_safer.rb:19-38 | a def followed by method_added keeps every definition, leaves no pending name ready, and leaves the new body either under the name or, wrapped, under its alias; it raises exactly when the hook was not chained and the instance method method_added_without_thread_safe exists or is the one being defined |
| ThreadSaferRegistry.WrapAll | lib/zeevex_threadsafe/thread_safer.rb:19-66 | make_thread_safe_now keeps every definition and completes exactly when it raised nothing and every listed name ends up defined; at the first undefined name it stops with NameError; the hand-off raises NoMethodError exactly in the first wrapping, when it raises at all |
| ThreadSaferRegistry.Included | lib/zeevex_threadsafe/thread_safer.rb:17-27 | inclusion starts with an empty pending list and no hand-offs, and chains the hook exactly when the class has an instance method method_added |
| ThreadSaferRegistry.DefineKeepsSettled | lib/zeevex_threadsafe/thread_safer.rb:32-36 | after a definition no pending name waits for a definition that already happened |
| ThreadSaferRegistry.WrapAllKeepsSettled | lib/zeevex_threadsafe/thread_safer.rb:51-66 | the same for make_thread_safe_now |
| ThreadSaferRegistry.DeclareUndefined | lib/zeevex_threadsafe/thread_safer.rb:45-46 | declaring undefined names appends them in order to the pending list and changes nothing else |
| ThreadSaferRegistry.DeclareDefined | lib/zeevex_threadsafe/thread_safer.rb:43-44 | declaring a defined name wraps it now around its current body, pending list unchanged; if the hand-off raises, the alias gets the body and the name keeps it |
| ThreadSaferRegistry.DefinePending | lib/zeevex_threadsafe/thread_safer.rb:33-37 | defining a pending name removes every occurrence from the pending list and wraps the new body; if the hand-off raises, the body sits under both names, unwrapped |
| ThreadSaferRegistry.DefineAliasNeverWraps | lib/zeevex_threadsafe/thread_safer.rb:33 | defining a name ending in _without_mutex never wraps it, even when pending |
| ThreadSaferRegistry.RedeclareLosesBody | lib/zeevex_threadsafe/thread_safer.rb:43-55 | the first declaration raises exactly when the hand-off does; otherwise declaring a defined name twice leaves the wrapper under both the name and its alias |
| ThreadSaferRegistry.SaferClass.constructor | lib/zeevex_threadsafe/thread_safer.rb:12-27 | the included hook's state |
| ThreadSaferRegistry.SaferClass.Def | lib/zeevex_threadsafe/thread_safer.rb:32 | a definition followed by the hook, with the hook's NoMethodError as the result |
| ThreadSaferRegistry.SaferClass.MethodAdded | lib/zeevex_threadsafe/thread_safer.rb:32-38 | the in-place hook equals Hook, state and raise |
| ThreadSaferRegistry.SaferClass.MakeThreadSafe | lib/zeevex_threadsafe/thread_safer.rb:40-49 | the in-place loop equals Declare and stops where it raises |
| ThreadSaferRegistry.SaferClass.MakeThreadSafeNowOne | lib/zeevex_threadsafe/thread_safer.rb:53-64 | one in-place wrap equals Wrap and skips define_method when the hook for the alias raises |
| ThreadSaferRegistry.SaferClass.MakeThreadSafeNow | lib/zeevex_threadsafe/thread_safer.rb:51-66 | the in-place loop equals WrapAll: it wraps each name and raises at the first undefined one or at the hand-off |
| ThreadSaferInstance.Inner | lib/zeevex_threadsafe/thread_safer.rb:59 | the aliased body runs seeing the lock held and the marker set to the wrapped name; a missing alias raises NoMethodError; an alias that is itself a wrapper raises on recursive locking |
| ThreadSaferInstance.Invoke | lib/zeevex_threadsafe/thread_safer.rb:56-63 | every call that starts unlocked ends unlocked; after a wrapper the mutex exists and the marker is clear exactly when the body returned |
| ThreadSaferInstance.DeferredThenDefined | lib/zeevex_threadsafe/thread_safer.rb:32-63 | declare-then-define gives a method whose body runs locked with the marker set to its name; if the definition's hook raised, the body runs unlocked and the instance is untouched |
| ThreadSaferInstance.DeclaredNow | lib/zeevex_threadsafe/thread_safer.rb:19-63 | declaring a defined method makes its body run locked with the marker set; if the hand-off raises, the body runs unlocked |
| ThreadSaferInstance.RedeclaredRaises | lib/zeevex_threadsafe/thread_safer.rb:43-63 | when the hand-off does not raise, after declaring a defined method twice, calling it raises on recursive locking and leaves the marker set |
| ThreadSaferInstance.Instance.TsMutex | lib/zeevex_threadsafe/thread_safer.rb:71-73 | the mutex is created on first use and the same one is returned thereafter |
| ThreadSaferInstance.Instance.Call | lib/zeevex_threadsafe/thread_safer.rb:56-63 | the in-place call equals Invoke and never replaces an existing mutex |
| ThreadSaferInstance.Instance.SendInner | lib/zeevex_threadsafe/thread_safer.rb:59 | sending the alias while holding the lock |

## Left out

- lib/zeevex_threadsafe/synchronized.rb (the proxy): its forwarding goes through `method_missing` of a base class that is not part of this model, and nothing sequential is left once the lock is a flag.
- lib/zeevex_threadsafe/rails/request_globals.rb and lib/zeevex_threadsafe/rails/thread_pool_release.rb: framework glue over `Thread.current`, weak references and a connection pool.
- Real threads, blocking and deadlock: calls run one after another. The mutex is a flag. A lock the caller already holds raises, as `Mutex#synchronize` does for its owner. Waiting for another thread's lock is not modelled.
- Thread ids and `Thread.list` are parameters; `Thread.current` is the `tid` argument.
- Ruby metaprogramming: `define_method`, `alias_method`, `send(visibility)` and `instance_eval` are updates of plain method tables. `cthread_local` really installs its accessors on `Class`, so every class gets them. The model gives each class its own class-side table, with the class object as the host.
- Visibility is recorded, not enforced when a method is called.
- `method_defined?` ignores private methods in Ruby; the model treats every method as visible to it.
- The `_without_mutex$` test is modelled as a suffix test. In Ruby, `$` also matches before a newline inside a name.
- Method bodies cannot call back into the instance. A wrapped method that calls another wrapped method on the same instance is therefore not modelled, beyond the alias case in `RedeclaredRaises`.
- Ancestors' methods (`inherited`) are fixed. A name declared while undefined and later provided by a newly included module is handled by `Wrap` and `WrapEffect`, but no operation changes the ancestors.
- Arguments of `thread_local` are names or hashes. Other objects, whose `to_sym` may raise, are not modelled. The options hash is read when the accessors are installed; later mutation of that hash by the caller is not modelled.
- A NoMethodError from the hand-off ends the class body in Ruby. The model returns the state the raise left behind, and the caller may go on defining methods.
- The hand-off raises because the class object lacks `method_added_without_thread_safe`. A class object that answers to its own instance methods (ThreadSafer mixed into `Object` or `Module` itself) is not modelled.
- ThreadSaferRegistry.RedeclareLosesBody: states the second declaration only when the hand-off does not raise, because otherwise the first declaration already raised and ended the class body.
- ThreadSaferInstance.RedeclaredRaises: the same restriction, for the same reason.
- ThreadSaferRegistry.WrapTable: states the table only when the hand-off does not raise; WrapUnfold gives the table in the other case.
- ThreadLocalStore.Host.Clean: `_thread_local_clean` is mixed into instances only, so the class-object host of `cthread_local` cannot call it in Ruby; the model does not forbid that call.
- Subclasses of a class that includes ThreadSafer: a subclass inherits the singleton's `method_added_with_thread_safe` but has no `@delayed_thread_safe_methods`, so its first `def` would call `include?` on nil. The model covers one class at a time.
- A default block is a total function of the host and key; a block that raises is not modelled.
