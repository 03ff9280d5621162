/**
 * The thread-scoped store behind thread-local attributes
 * (lib/zeevex_threadsafe/thread_locals.rb, `UtilityMethods.thread_local_hash`,
 * the generated reader and writer, and `InstanceMethods#_thread_local_clean`).
 *
 * Every host object keeps an instance variable `@_thread_local_threads` that is
 * `nil` until the first write and afterwards maps a thread's `object_id` to that
 * thread's own key-to-value table. The calling thread's id and the list of live
 * threads are parameters here; nothing runs concurrently.
 */
module ThreadLocalStore {
  import opened Wrappers

  /** A Ruby value as it can be stored in an attribute; `Nil` is Ruby's `nil`. */
  datatype Value = Nil | Int(i: int) | Str(s: string) | Sym(sym: string)

  /** `Thread#object_id` of a thread. */
  type Tid = nat

  /** The Symbol an attribute is stored under. */
  type Key = string

  /** One thread's attribute table. */
  type Table = map<Key, Value>

  /** The contents of `@_thread_local_threads` once it exists. */
  type Book = map<Tid, Table>

  /** The block given to `thread_local`, called as `block.call(host, key)`. */
  type DefaultBlock = (Host, Key) -> Value

  /** The thread ids recorded in a book that may be missing. */
  function Threads(book: Option<Book>): set<Tid> {
    if book.Some? then book.value.Keys else {}
  }

  /**
   * `thread_local_hash(base)` with `autocreate = false`: the calling thread's
   * table, or nil when the host has no book or the thread never wrote.
   * Assigns nothing.
   */
  function LocalTable(book: Option<Book>, tid: Tid): (r: Option<Table>)
    ensures r.Some? <==> tid in Threads(book)
    ensures r.Some? ==> book.Some? && r.value == book.value[tid]
  {
    if book.Some? && tid in book.value then Some(book.value[tid]) else None
  }

  /**
   * The generated reader: the calling thread's stored value if the key is
   * present, else the block's result if a block was given, else the
   * `:default` option, which is nil when absent.
   */
  function Read(book: Option<Book>, tid: Tid, key: Key, host: Host,
                block: Option<DefaultBlock>, default: Option<Value>): (r: Value)
    ensures book.Some? && tid in book.value && key in book.value[tid] ==> r == book.value[tid][key]
    ensures !(book.Some? && tid in book.value && key in book.value[tid]) ==> r == Fallback(host, key, block, default)
  {
    var table := LocalTable(book, tid);
    if table.Some? && key in table.value then table.value[key]
    else Fallback(host, key, block, default)
  }

  /** What the reader returns on a miss. */
  function Fallback(host: Host, key: Key, block: Option<DefaultBlock>, default: Option<Value>): (r: Value)
    ensures block.Some? ==> r == block.value(host, key)
    ensures block.None? && default.Some? ==> r == default.value
    ensures block.None? && default.None? ==> r == Nil
  {
    if block.Some? then block.value(host, key) else default.GetOr(Nil)
  }

  /**
   * The generated writer: `@_thread_local_threads ||= {}`, then the calling
   * thread's table is created if absent, then `key` is set in it. The book
   * afterwards holds exactly the old threads plus the caller, every other
   * thread's table untouched.
   */
  function Write(book: Option<Book>, tid: Tid, key: Key, v: Value): (r: Book)
    ensures r.Keys == Threads(book) + {tid}
    ensures forall u :: u in r && u != tid ==> LocalTable(book, u) == Some(r[u])
    ensures r[tid] == LocalTable(book, tid).GetOr(map[])[key := v]
  {
    var outer := if book.Some? then book.value else map[];
    var table := if tid in outer then outer[tid] else map[];
    outer[tid := table[key := v]]
  }

  /**
   * What `_thread_local_clean` leaves: the tables of the threads in `live`,
   * unchanged, and no others.
   */
  function Pruned(book: Book, live: seq<Tid>): (r: Book)
    ensures forall t :: t in r <==> t in book && t in live
    ensures forall t :: t in r ==> r[t] == book[t]
  {
    map t | t in book && t in live :: book[t]
  }

  /** One access to a host's attributes, made by thread `tid`. */
  datatype Access = Get(tid: Tid, key: Key) | Put(tid: Tid, key: Key, value: Value)

  /** The book after a sequence of accesses; only `Put` changes it. */
  function Replay(book: Option<Book>, trace: seq<Access>): Option<Book>
    decreases |trace|
  {
    if trace == [] then book
    else
      var next := if trace[0].Put? then Some(Write(book, trace[0].tid, trace[0].key, trace[0].value)) else book;
      Replay(next, trace[1..])
  }

  /** The accesses of one thread, in order. */
  function OnThread(trace: seq<Access>, u: Tid): (r: seq<Access>)
    ensures forall i :: 0 <= i < |r| ==> r[i].tid == u
    ensures forall a :: a in r <==> a in trace && a.tid == u
  {
    if trace == [] then []
    else (if trace[0].tid == u then [trace[0]] else []) + OnThread(trace[1..], u)
  }

  /** The threads that write in a trace. */
  function Writers(trace: seq<Access>): set<Tid> {
    set i | 0 <= i < |trace| && trace[i].Put? :: trace[i].tid
  }

  /** A read after a write of `v` to `key` on the same thread returns `v`, and keeps returning it. */
  lemma ReadAfterWrite(book: Option<Book>, tid: Tid, key: Key, v: Value, host: Host,
                       block: Option<DefaultBlock>, default: Option<Value>, n: nat)
    ensures Read(Replay(Some(Write(book, tid, key, v)), Reads(tid, key, n)), tid, key, host, block, default) == v
  {
    ReadsLeaveBook(Some(Write(book, tid, key, v)), Reads(tid, key, n));
  }

  /** `n` reads of `key` by thread `tid`. */
  function Reads(tid: Tid, key: Key, n: nat): (r: seq<Access>)
    ensures |r| == n && forall i :: 0 <= i < n ==> r[i] == Get(tid, key)
  {
    seq(n, _ => Get(tid, key))
  }

  /** On a miss, the reader yields the block's result, else the default, else nil. */
  lemma MissFallsBack(book: Option<Book>, tid: Tid, key: Key, host: Host,
                      block: Option<DefaultBlock>, default: Option<Value>)
    requires LocalTable(book, tid).None? || key !in LocalTable(book, tid).value
    ensures block.Some? ==> Read(book, tid, key, host, block, default) == block.value(host, key)
    ensures block.None? && default.Some? ==> Read(book, tid, key, host, block, default) == default.value
    ensures block.None? && default.None? ==> Read(book, tid, key, host, block, default) == Nil
  {
  }

  /**
   * Reading never creates book-keeping: a trace of reads leaves the book as
   * it was, nil included. At the level of traces this follows from `Get`
   * being a no-op step of `Replay`; for the generated reader itself the
   * guarantee is that `ThreadLocalAccessors.CallReader` modifies nothing.
   */
  lemma {:induction false} ReadsLeaveBook(book: Option<Book>, trace: seq<Access>)
    requires forall i :: 0 <= i < |trace| ==> trace[i].Get?
    ensures Replay(book, trace) == book
    decreases |trace|
  {
    if trace != [] {
      ReadsLeaveBook(book, trace[1..]);
    }
  }

  /**
   * Writes create the book and one table per writing thread: after a trace
   * the book holds exactly the old threads plus the writers, and it is nil
   * only if it was nil and nobody wrote.
   */
  lemma {:induction false} ReplayThreads(book: Option<Book>, trace: seq<Access>)
    ensures Replay(book, trace).Some? <==> book.Some? || Writers(trace) != {}
    ensures Threads(Replay(book, trace)) == Threads(book) + Writers(trace)
    decreases |trace|
  {
    if trace != [] {
      var next := if trace[0].Put? then Some(Write(book, trace[0].tid, trace[0].key, trace[0].value)) else book;
      ReplayThreads(next, trace[1..]);
      assert Writers(trace) == (if trace[0].Put? then {trace[0].tid} else {}) + Writers(trace[1..]) by {
        forall t | t in Writers(trace) ensures t in (if trace[0].Put? then {trace[0].tid} else {}) + Writers(trace[1..]) {
          var i :| 0 <= i < |trace| && trace[i].Put? && trace[i].tid == t;
          if i > 0 { assert trace[1..][i - 1] == trace[i]; }
        }
        forall t | t in Writers(trace[1..]) ensures t in Writers(trace) {
          var i :| 0 <= i < |trace[1..]| && trace[1..][i].Put? && trace[1..][i].tid == t;
          assert trace[i + 1] == trace[1..][i];
        }
      }
    }
  }

  /** Writes from N distinct threads on an untouched host leave exactly N tables. */
  lemma BookkeepingGrowth(trace: seq<Access>)
    requires Writers(trace) != {}
    ensures Replay(None, trace).Some?
    ensures |Replay(None, trace).value| == |Writers(trace)|
  {
    ReplayThreads(None, trace);
  }

  /**
   * Isolation: whatever other threads do, thread `u`'s table after a trace is
   * the table it would have after its own accesses alone.
   */
  lemma {:induction false} Isolation(book: Option<Book>, trace: seq<Access>, u: Tid)
    ensures LocalTable(Replay(book, trace), u) == LocalTable(Replay(book, OnThread(trace, u)), u)
    decreases |trace|
  {
    if trace != [] {
      var a := trace[0];
      var next := if a.Put? then Some(Write(book, a.tid, a.key, a.value)) else book;
      Isolation(next, trace[1..], u);
      if a.tid == u {
        assert OnThread(trace, u) == [a] + OnThread(trace[1..], u);
        assert ([a] + OnThread(trace[1..], u))[1..] == OnThread(trace[1..], u);
      } else {
        assert OnThread(trace, u) == OnThread(trace[1..], u);
        if a.Put? {
          SameTable(book, next, trace[1..], u);
        }
      }
    }
  }

  /** Two books that agree on `u`'s table still agree on it after `u`'s own accesses. */
  lemma {:induction false} SameTable(b1: Option<Book>, b2: Option<Book>, trace: seq<Access>, u: Tid)
    requires LocalTable(b1, u) == LocalTable(b2, u)
    ensures LocalTable(Replay(b1, OnThread(trace, u)), u) == LocalTable(Replay(b2, OnThread(trace, u)), u)
    decreases |trace|
  {
    if trace != [] {
      var own := OnThread(trace, u);
      if own != [] {
        var a := own[0];
        var n1 := if a.Put? then Some(Write(b1, a.tid, a.key, a.value)) else b1;
        var n2 := if a.Put? then Some(Write(b2, a.tid, a.key, a.value)) else b2;
        assert LocalTable(n1, u) == LocalTable(n2, u);
        SameTableOwn(n1, n2, own[1..], u);
      }
    }
  }

  /** As SameTable, for a trace already made of `u`'s accesses. */
  lemma {:induction false} SameTableOwn(b1: Option<Book>, b2: Option<Book>, own: seq<Access>, u: Tid)
    requires LocalTable(b1, u) == LocalTable(b2, u)
    requires forall i :: 0 <= i < |own| ==> own[i].tid == u
    ensures LocalTable(Replay(b1, own), u) == LocalTable(Replay(b2, own), u)
    decreases |own|
  {
    if own != [] {
      var a := own[0];
      var n1 := if a.Put? then Some(Write(b1, a.tid, a.key, a.value)) else b1;
      var n2 := if a.Put? then Some(Write(b2, a.tid, a.key, a.value)) else b2;
      assert LocalTable(n1, u) == LocalTable(n2, u);
      SameTableOwn(n1, n2, own[1..], u);
    }
  }

  /** A thread that never wrote to an untouched host reads the default, whatever others wrote. */
  lemma FreshThreadReadsDefault(trace: seq<Access>, u: Tid, key: Key, host: Host,
                                block: Option<DefaultBlock>, default: Option<Value>)
    requires u !in Writers(trace)
    ensures Read(Replay(None, trace), u, key, host, block, default) == Fallback(host, key, block, default)
  {
    Isolation(None, trace, u);
    var own := OnThread(trace, u);
    assert forall i :: 0 <= i < |own| ==> own[i].Get?;
    ReadsLeaveBook(None, own);
  }

  /** Pruning with M of the N recorded threads live leaves M tables. */
  lemma PruneCount(book: Book, live: seq<Tid>)
    ensures |Pruned(book, live)| == |book.Keys * set t | t in live|
  {
    assert Pruned(book, live).Keys == book.Keys * set t | t in live;
  }

  /**
   * A host object. `threads` is `@_thread_local_threads`; `className` is the
   * immutable identity a default block may look at (`obj.class`).
   */
  class Host {
    const className: string
    var threads: Option<Book>

    constructor (className: string)
      ensures this.className == className && threads == None
    {
      this.className := className;
      threads := None;
    }

    /** The generated reader on this host. */
    function Get(tid: Tid, key: Key, block: Option<DefaultBlock>, default: Option<Value>): (r: Value)
      reads this
      ensures threads.Some? && tid in threads.value && key in threads.value[tid] ==> r == threads.value[tid][key]
      ensures !(threads.Some? && tid in threads.value && key in threads.value[tid]) ==> r == Fallback(this, key, block, default)
    {
      Read(threads, tid, key, this, block, default)
    }

    /** The generated writer on this host: `thread_local_hash(self, true)[key] = value`. */
    method Set(tid: Tid, key: Key, v: Value)
      modifies this
      ensures threads == Some(Write(old(threads), tid, key, v))
    {
      if threads.None? {
        threads := Some(map[]);
      }
      if tid !in threads.value {
        threads := Some(threads.value[tid := map[]]);
      }
      assert threads.value[tid] == LocalTable(old(threads), tid).GetOr(map[]);
      threads := Some(threads.value[tid := threads.value[tid][key := v]]);
      assert threads.value == Write(old(threads), tid, key, v);
    }

    /**
     * `_thread_local_clean`: deletes the tables of the threads missing from
     * `live`. On a host that was never written to, calling `.keys` on nil
     * raises, reported as `raised` with nothing changed. In Ruby this method
     * is mixed into instances only, so a class-object host (`cthread_local`)
     * has no way to call it; the model does not forbid that.
     */
    method Clean(live: seq<Tid>) returns (raised: bool)
      modifies this
      ensures raised <==> old(threads).None?
      ensures threads == if raised then old(threads) else Some(Pruned(old(threads).value, live))
    {
      if threads.None? {
        return true;
      }
      ghost var book := threads.value;
      var stale := set t | t in threads.value && t !in live;
      while stale != {}
        invariant threads.Some? && stale <= book.Keys
        invariant threads.value == map t | t in book && (t in live || t in stale) :: book[t]
        decreases stale
      {
        var t :| t in stale;
        threads := Some(threads.value - {t});
        stale := stale - {t};
      }
      assert threads.value == Pruned(book, live);
      raised := false;
    }
  }
}
