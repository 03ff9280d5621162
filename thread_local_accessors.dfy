/**
 * Declaring thread-local attributes (lib/zeevex_threadsafe/thread_locals.rb,
 * `UtilityMethods.define_thread_local_accessors` and
 * `ClassMethods#thread_local` / `#cthread_local`).
 *
 * A declaration takes a list of names whose optional trailing hash is the
 * options, and installs, for every name, a reader `name` and a writer
 * `name=` in a method table. Method tables and visibility are plain data
 * here; calling an accessor looks it up by name and runs the store's reader
 * or writer on the receiving host.
 */
module ThreadLocalAccessors {
  import opened Wrappers
  import opened ThreadLocalStore

  datatype Visibility = Public | Protected | Private

  /** The options hash: `:default` and `:visibility`, each possibly absent. */
  datatype Options = Options(default: Option<Value>, visibility: Option<Visibility>)

  /** An argument of `thread_local`: a name (Symbol or String) or a Hash. */
  datatype Arg = Name(name: string) | Hash(options: Options)

  /** What a generated accessor does: read or write the attribute `key`. */
  datatype Accessor = Reader(key: Key, block: Option<DefaultBlock>, options: Options) | Writer(key: Key)

  datatype Method = Method(accessor: Accessor, visibility: Visibility)

  /** The methods a class (or the class of a class) defines, by name. */
  type MethodTable = map<string, Method>

  const NoOptions := Options(None, None)

  function WriterName(name: string): string {
    name + "="
  }

  /** The visibility both accessors end up with: the option's, else public. */
  function VisibilityOf(options: Options): (v: Visibility)
    ensures options.visibility.Some? ==> v == options.visibility.value
    ensures options.visibility.None? ==> v == Public
  {
    options.visibility.GetOr(Public)
  }

  /**
   * `args[-1].instance_of?(Hash) ? args.pop : {}`: only a trailing hash is
   * taken as the options; everything before it stays a name.
   */
  function SplitOptions(args: seq<Arg>): (r: (seq<Arg>, Options))
    ensures args == r.0 + [Hash(r.1)] || (args == r.0 && r.1 == NoOptions)
    ensures args != [] && args[|args| - 1].Hash? <==> args == r.0 + [Hash(r.1)]
  {
    if args != [] && args[|args| - 1].Hash? then (args[..|args| - 1], args[|args| - 1].options)
    else (args, NoOptions)
  }

  /** Installs the reader and writer for one name, both with the declared visibility. */
  function InstallPair(t: MethodTable, name: string, options: Options, block: Option<DefaultBlock>): (r: MethodTable)
    ensures r.Keys == t.Keys + {name, WriterName(name)}
    ensures r[name] == Method(Reader(name, block, options), VisibilityOf(options))
    ensures r[WriterName(name)] == Method(Writer(name), VisibilityOf(options))
    ensures forall n :: n in t && n != name && n != WriterName(name) ==> r[n] == t[n]
  {
    assert |WriterName(name)| == |name| + 1;
    var vis := VisibilityOf(options);
    t[name := Method(Reader(name, block, options), vis)][WriterName(name) := Method(Writer(name), vis)]
  }

  /** How many arguments are names before the first hash among them. */
  function NamesBeforeHash(names: seq<Arg>): (k: nat)
    ensures k <= |names|
    ensures forall i :: 0 <= i < k ==> names[i].Name?
    ensures k < |names| ==> names[k].Hash?
  {
    if names == [] || names[0].Hash? then 0 else 1 + NamesBeforeHash(names[1..])
  }

  /** The names an accessor pair is installed for. */
  function Installed(names: seq<Arg>): set<string> {
    set i | 0 <= i < NamesBeforeHash(names) :: names[i].name
  }

  /**
   * The loop over the names: each name in turn gets its pair; a hash that is
   * not the trailing one fails `name.to_sym`, which raises and stops the loop
   * with the earlier names already installed. `ok` is false when it raised.
   * Every installed name has a reader and a writer of the declared visibility,
   * and every other method is untouched.
   */
  function Accessors(t: MethodTable, names: seq<Arg>, options: Options, block: Option<DefaultBlock>): (r: (MethodTable, bool))
    ensures r.1 <==> NamesBeforeHash(names) == |names|
    ensures forall n :: n in Installed(names) ==>
              && n in r.0 && r.0[n].visibility == VisibilityOf(options)
              && WriterName(n) in r.0 && r.0[WriterName(n)].visibility == VisibilityOf(options)
    ensures forall n :: n !in Installed(names) && n !in WriterNames(Installed(names)) ==>
              (n in r.0 <==> n in t) && (n in t ==> r.0[n] == t[n])
    decreases |names|
  {
    if names == [] then (t, true)
    else if names[0].Hash? then (t, false)
    else
      var r := Accessors(InstallPair(t, names[0].name, options, block), names[1..], options, block);
      assert Installed(names) == {names[0].name} + Installed(names[1..]) by {
        InstalledCons(names);
      }
      r
  }

  function WriterNames(names: set<string>): set<string> {
    set n | n in names :: WriterName(n)
  }

  lemma InstalledCons(names: seq<Arg>)
    requires names != [] && names[0].Name?
    ensures Installed(names) == {names[0].name} + Installed(names[1..])
  {
    var k := NamesBeforeHash(names);
    forall n | n in Installed(names) ensures n in {names[0].name} + Installed(names[1..]) {
      var i :| 0 <= i < k && names[i].name == n;
      if i > 0 { assert names[1..][i - 1] == names[i]; }
    }
    forall n | n in Installed(names[1..]) ensures n in Installed(names) {
      var i :| 0 <= i < NamesBeforeHash(names[1..]) && names[1..][i].name == n;
      assert names[i + 1] == names[1..][i];
    }
  }

  /** `define_thread_local_accessors(base, args, block)` on the table of `base`. */
  function Declare(t: MethodTable, args: seq<Arg>, block: Option<DefaultBlock>): (r: (MethodTable, bool))
    ensures r.1 <==> forall i :: 0 <= i < |args| - 1 ==> args[i].Name?
    ensures r.1 ==> forall i :: 0 <= i < |args| && args[i].Name? ==>
              args[i].name in r.0 && WriterName(args[i].name) in r.0
  {
    var (names, options) := SplitOptions(args);
    SplitNames(args);
    Accessors(t, names, options, block)
  }

  /**
   * The loop runs to the end exactly when every argument but the last is a
   * name, and then every name argument is installed.
   */
  lemma SplitNames(args: seq<Arg>)
    ensures var names := SplitOptions(args).0;
            NamesBeforeHash(names) == |names| <==> forall i :: 0 <= i < |args| - 1 ==> args[i].Name?
    ensures var names := SplitOptions(args).0;
            NamesBeforeHash(names) == |names| ==>
              forall i :: 0 <= i < |args| && args[i].Name? ==> args[i].name in Installed(names)
  {
    var names := SplitOptions(args).0;
    var k := NamesBeforeHash(names);
    assert forall i :: 0 <= i < |names| ==> names[i] == args[i];
    assert forall i :: 0 <= i < k ==> names[i].name in Installed(names);
  }

  /**
   * When no declared name itself ends in `=`, each name's reader reads its own
   * key under the declared fallbacks and its writer writes that key.
   */
  lemma {:induction false} DeclaredPairs(t: MethodTable, names: seq<Arg>, options: Options, block: Option<DefaultBlock>, n: string)
    requires n in Installed(names)
    requires forall m :: m in Installed(names) ==> m == [] || m[|m| - 1] != '='
    ensures Accessors(t, names, options, block).0[n] == Method(Reader(n, block, options), VisibilityOf(options))
    ensures Accessors(t, names, options, block).0[WriterName(n)] == Method(Writer(n), VisibilityOf(options))
    decreases |names|
  {
    InstalledCons(names);
    var t' := InstallPair(t, names[0].name, options, block);
    if n in Installed(names[1..]) {
      DeclaredPairs(t', names[1..], options, block, n);
    } else {
      var rest := Installed(names[1..]);
      assert n == names[0].name;
      assert WriterName(n) !in rest by {
        assert WriterName(n)[|WriterName(n)| - 1] == '=';
      }
      forall m | m in rest ensures WriterName(m) != n && WriterName(m) != WriterName(n) {
        WriterNameInjective(m, n);
      }
      assert n !in WriterNames(rest) && WriterName(n) !in WriterNames(rest);
      assert |WriterName(n)| != |n|;
      assert t'[n] == Method(Reader(n, block, options), VisibilityOf(options));
    }
  }

  lemma WriterNameInjective(a: string, b: string)
    ensures WriterName(a) == WriterName(b) ==> a == b
  {
    if WriterName(a) == WriterName(b) {
      assert a == WriterName(a)[..|a|];
      assert b == WriterName(b)[..|b|];
    }
  }

  /**
   * Only a trailing hash supplies the visibility: without one, or with one
   * that has no `:visibility`, every declared pair stays public.
   */
  lemma PublicByDefault(t: MethodTable, args: seq<Arg>, block: Option<DefaultBlock>, n: string)
    requires args == [] || args[|args| - 1].Name? || args[|args| - 1].options.visibility.None?
    requires n in Installed(SplitOptions(args).0)
    ensures Declare(t, args, block).0[n].visibility == Public
    ensures Declare(t, args, block).0[WriterName(n)].visibility == Public
  {
  }

  /** A single declared name gets exactly its own pair, and the declaration completes. */
  lemma DeclareOne(t: MethodTable, name: string, block: Option<DefaultBlock>)
    ensures Declare(t, [Name(name)], block) == (InstallPair(t, name, NoOptions, block), true)
  {
    assert SplitOptions([Name(name)]) == ([Name(name)], NoOptions);
    assert [Name(name)][1..] == [];
    var pair := InstallPair(t, name, NoOptions, block);
    assert Accessors(pair, [], NoOptions, block) == (pair, true);
  }

  /** A single name followed by its options hash gets exactly its own pair with those options. */
  lemma DeclareOneWith(t: MethodTable, name: string, options: Options, block: Option<DefaultBlock>)
    ensures Declare(t, [Name(name), Hash(options)], block) == (InstallPair(t, name, options, block), true)
  {
    var args := [Name(name), Hash(options)];
    assert args[..|args| - 1] == [Name(name)];
    assert SplitOptions(args) == ([Name(name)], options);
    assert [Name(name)][1..] == [];
    var pair := InstallPair(t, name, options, block);
    assert Accessors(pair, [], options, block) == (pair, true);
  }

  /** A table of methods a class defines, updated in place by declarations. */
  class RubyModule {
    var methods: MethodTable

    constructor ()
      ensures methods == map[]
    {
      methods := map[];
    }
  }

  /**
   * A class that includes ThreadLocals: `thread_local` installs on the table
   * its instances answer to, `cthread_local` on the table its class object
   * answers to, whose host is the class object itself. The two tables are
   * different modules (the class and `Class`), so neither declaration
   * touches the other's table.
   */
  class RubyClass {
    const instanceSide: RubyModule
    const classSide: RubyModule
    const classObject: Host

    /** The instance side and the class side are separate tables. */
    predicate Valid()
    {
      instanceSide != classSide
    }

    constructor (name: string)
      ensures fresh(instanceSide) && fresh(classSide) && fresh(classObject)
      ensures Valid() && instanceSide != classSide
      ensures instanceSide.methods == map[] && classSide.methods == map[]
      ensures classObject.className == name && classObject.threads == None
    {
      instanceSide := new RubyModule();
      classSide := new RubyModule();
      classObject := new Host(name);
    }

    /** `thread_local(*args, &block)`: accessors whose host is the receiving instance. */
    method ThreadLocal(args: seq<Arg>, block: Option<DefaultBlock>) returns (ok: bool)
      requires Valid()
      modifies instanceSide
      ensures (instanceSide.methods, ok) == Declare(old(instanceSide.methods), args, block)
      ensures classSide.methods == old(classSide.methods)
    {
      ok := DefineAccessors(instanceSide, args, block);
    }

    /** `cthread_local(*args, &block)`: accessors whose host is the class object. */
    method CThreadLocal(args: seq<Arg>, block: Option<DefaultBlock>) returns (ok: bool)
      requires Valid()
      modifies classSide
      ensures (classSide.methods, ok) == Declare(old(classSide.methods), args, block)
      ensures instanceSide.methods == old(instanceSide.methods)
    {
      ok := DefineAccessors(classSide, args, block);
    }
  }

  /**
   * `define_thread_local_accessors(base, args, block)`: pops the trailing
   * options hash, then installs a pair per name; `ok` is false when a
   * non-trailing hash made `to_sym` raise.
   */
  method DefineAccessors(base: RubyModule, args: seq<Arg>, block: Option<DefaultBlock>) returns (ok: bool)
    modifies base
    ensures (base.methods, ok) == Declare(old(base.methods), args, block)
  {
    var names := args;
    var options := NoOptions;
    if |args| > 0 && args[|args| - 1].Hash? {
      options := args[|args| - 1].options;
      names := args[..|args| - 1];
    }
    var rest := names;
    while rest != []
      invariant Accessors(base.methods, rest, options, block) == Accessors(old(base.methods), names, options, block)
      decreases |rest|
    {
      if rest[0].Hash? {
        return false;
      }
      base.methods := InstallPair(base.methods, rest[0].name, options, block);
      rest := rest[1..];
    }
    return true;
  }

  /**
   * Calling method `name` with no argument on `receiver`, looked up in `side`:
   * a reader yields its value; a missing method or a writer (which needs an
   * argument) raises, reported as None.
   */
  method CallReader(side: RubyModule, receiver: Host, tid: Tid, name: string) returns (r: Option<Value>)
    ensures name in side.methods && side.methods[name].accessor.Reader? ==>
              var a := side.methods[name].accessor;
              r == Some(Read(receiver.threads, tid, a.key, receiver, a.block, a.options.default))
    ensures !(name in side.methods && side.methods[name].accessor.Reader?) ==> r == None
  {
    if name in side.methods && side.methods[name].accessor.Reader? {
      var a := side.methods[name].accessor;
      r := Some(receiver.Get(tid, a.key, a.block, a.options.default));
    } else {
      r := None;
    }
  }

  /**
   * Calling method `name` with one argument `v` on `receiver`: a writer stores
   * `v` for the calling thread; anything else raises (`ok` false) and changes
   * nothing.
   */
  method CallWriter(side: RubyModule, receiver: Host, tid: Tid, name: string, v: Value) returns (ok: bool)
    modifies receiver
    ensures ok <==> name in side.methods && side.methods[name].accessor.Writer?
    ensures ok ==> receiver.threads == Some(Write(old(receiver.threads), tid, side.methods[name].accessor.key, v))
    ensures !ok ==> receiver.threads == old(receiver.threads)
  {
    ok := name in side.methods && side.methods[name].accessor.Writer?;
    if ok {
      receiver.Set(tid, side.methods[name].accessor.key, v);
    }
  }

  /**
   * A class declaring `name` with both `thread_local` and `cthread_local`,
   * with different options on each side: each table gets its own pair.
   */
  method NewDualClass(name: string, instanceOptions: Options, classOptions: Options) returns (k: RubyClass)
    ensures fresh(k) && fresh(k.instanceSide) && fresh(k.classSide) && fresh(k.classObject)
    ensures k.Valid()
    ensures k.instanceSide.methods == InstallPair(map[], name, instanceOptions, None)
    ensures k.classSide.methods == InstallPair(map[], name, classOptions, None)
    ensures k.classObject.threads == None
  {
    k := new RubyClass("DualThreadLocalTypes");
    DeclareOneWith(map[], name, instanceOptions, None);
    DeclareOneWith(map[], name, classOptions, None);
    var ok := k.ThreadLocal([Name(name), Hash(instanceOptions)], None);
    ok := k.CThreadLocal([Name(name), Hash(classOptions)], None);
  }

  /**
   * The same attribute name declared with `thread_local` and `cthread_local`
   * on one class: setting it on the class object and then on an instance
   * keeps the two values apart.
   */
  method SameNameOnClassAndInstance(tid: Tid, name: string, classValue: Value, instanceValue: Value,
                                    instanceOptions: Options, classOptions: Options)
    returns (readOnClass: Option<Value>, readOnInstance: Option<Value>)
    ensures readOnClass == Some(classValue)
    ensures readOnInstance == Some(instanceValue)
  {
    var k := NewDualClass(name, instanceOptions, classOptions);
    var instance := new Host("DualThreadLocalTypes");
    var ok := CallWriter(k.classSide, k.classObject, tid, WriterName(name), classValue);
    ok := CallWriter(k.instanceSide, instance, tid, WriterName(name), instanceValue);
    readOnClass := CallReader(k.classSide, k.classObject, tid, name);
    readOnInstance := CallReader(k.instanceSide, instance, tid, name);
  }
}
