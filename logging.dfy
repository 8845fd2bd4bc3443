/** The logging bridge of `ToolsProcessor`: `configure_manus_logging`
    snapshots and redirects a fixed list of named loggers to the root
    logger's handlers, and `restore_manus_logging` puts the snapshot back.

    The process-wide logger registry is a `Registry` value for the
    specification and a `LoggingRegistry` object for the code. A logger is
    `{level, handlers, propagate}`; a handler is a value carrying its identity
    `id` (Python compares handlers by identity), the kind of sink it writes
    to and its level. A new handler gets the id `nextId`. */
module LoggingBridge {

  const NOTSET: int := 0
  const INFO: int := 20
  const WARNING: int := 30

  /** Since Python 3.9 `logging.getLogger('root')` is the root logger itself,
      so the registry keeps the root logger under this name. */
  const RootName: string := "root"

  /** The names `configure_manus_logging` redirects, in its order. */
  const BridgedLoggers: seq<string> := [
    "open_manus",
    "open_manus.app.agent.base",
    "open_manus.app.agent.manus",
    "open_manus.app.agent.toolcall",
    "open_manus.app.llm",
    "open_manus.app.tool",
    "browser_use",
    RootName
  ]

  /** A handler writes to a file (`logging.FileHandler` and its subclasses,
      with their `baseFilename`) or elsewhere (a console stream). */
  datatype Sink = Stream | File(path: string)

  datatype Handler = Handler(id: nat, sink: Sink, level: int)

  datatype LoggerState = LoggerState(level: int, handlers: seq<Handler>, propagate: bool)

  /** One entry of `original_configs`: a logger's name and its saved state. */
  datatype Entry = Entry(name: string, saved: LoggerState)

  /** `original_configs`, in insertion order. */
  type Snapshot = seq<Entry>

  datatype Registry = Registry(loggers: map<string, LoggerState>, nextId: nat)

  /** What `logging.getLogger(name)` creates for a name never used before. */
  function Default(name: string): LoggerState {
    if name == RootName then LoggerState(WARNING, [], true) else LoggerState(NOTSET, [], true)
  }

  /** The state `logging.getLogger(name)` shows. */
  function View(r: Registry, name: string): LoggerState {
    if name in r.loggers then r.loggers[name] else Default(name)
  }

  /** Every handler in use has an id below `nextId`, so `nextId` is unused. */
  ghost predicate WellFormed(r: Registry) {
    forall n, h :: n in r.loggers && h in r.loggers[n].handlers ==> h.id < r.nextId
  }

  ghost predicate Distinct(names: seq<string>) {
    forall i, j :: 0 <= i < j < |names| ==> names[i] != names[j]
  }

  ghost predicate NoDup(hs: seq<Handler>) {
    forall i, j :: 0 <= i < j < |hs| ==> hs[i] != hs[j]
  }

  /** `after` is `before` with handlers appended that `before` does not
      hold. */
  ghost predicate Extends(after: seq<Handler>, before: seq<Handler>) {
    && |before| <= |after|
    && after[..|before|] == before
    && forall k :: |before| <= k < |after| ==> after[k] !in before
  }

  // ---------------------------------------------------------------------
  // configure_manus_logging

  /** One pass of the inner loop over the root handlers: a handler the
      logger already holds is skipped, a file handler is replaced by a new
      `FileHandler` on the same path with the same level (unless opening the
      file fails, modelled by `unopenable`), any other handler is added by
      reference. */
  function AttachOne(r: Registry, name: string, h: Handler, unopenable: set<string>): (r': Registry)
    ensures r.nextId <= r'.nextId <= r.nextId + 1
    ensures forall m :: m != name ==> View(r', m) == View(r, m)
    ensures View(r', name).level == View(r, name).level && View(r', name).propagate == View(r, name).propagate
    ensures View(r, name).handlers <= View(r', name).handlers
    ensures |View(r', name).handlers| <= |View(r, name).handlers| + 1
  {
    var cur := View(r, name);
    if h in cur.handlers then r
    else match h.sink
      case Stream =>
        Registry(r.loggers[name := cur.(handlers := cur.handlers + [h])], r.nextId)
      case File(path) =>
        if path in unopenable then r
        else
          var created := Handler(r.nextId, File(path), h.level);
          Registry(r.loggers[name := cur.(handlers := cur.handlers + [created])], r.nextId + 1)
  }

  function AttachAll(r: Registry, name: string, hs: seq<Handler>, unopenable: set<string>): (r': Registry)
    decreases |hs|
    ensures r.nextId <= r'.nextId
    ensures forall m :: m != name ==> View(r', m) == View(r, m)
    ensures View(r', name).level == View(r, name).level && View(r', name).propagate == View(r, name).propagate
    ensures View(r, name).handlers <= View(r', name).handlers
    ensures |View(r', name).handlers| <= |View(r, name).handlers| + |hs|
  {
    if hs == [] then r else AttachAll(AttachOne(r, name, hs[0], unopenable), name, hs[1..], unopenable)
  }

  /** The body of the outer loop for one name, after its snapshot entry:
      `setLevel(INFO)`, `propagate = True`, then the root handlers. */
  function ConfigureOne(r: Registry, name: string, unopenable: set<string>): (r': Registry)
    ensures r.nextId <= r'.nextId
    ensures forall m :: m != name ==> View(r', m) == View(r, m)
    ensures View(r', name).level == INFO && View(r', name).propagate
    ensures View(r, name).handlers <= View(r', name).handlers
  {
    var cur := View(r, name);
    var r1 := Registry(r.loggers[name := cur.(level := INFO, propagate := true)], r.nextId);
    AttachAll(r1, name, View(r1, RootName).handlers, unopenable)
  }

  /** The outer loop over `names`: the final registry and the snapshot. */
  function ConfigureFrom(r: Registry, names: seq<string>, unopenable: set<string>): (c: (Registry, Snapshot))
    decreases |names|
    ensures r.nextId <= c.0.nextId
    ensures |c.1| == |names|
    ensures forall m :: m !in names ==> View(c.0, m) == View(r, m)
  {
    if names == [] then (r, [])
    else
      var entry := Entry(names[0], View(r, names[0]));
      var rest := ConfigureFrom(ConfigureOne(r, names[0], unopenable), names[1..], unopenable);
      (rest.0, [entry] + rest.1)
  }

  // ---------------------------------------------------------------------
  // restore_manus_logging

  /** The handlers of `hs` that are in `saved`, in their order. */
  function Keep(hs: seq<Handler>, saved: seq<Handler>): (r: seq<Handler>)
    ensures |r| <= |hs|
  {
    if hs == [] then []
    else (if hs[0] in saved then [hs[0]] else []) + Keep(hs[1..], saved)
  }

  /** A handler survives `Keep` exactly when it was current and saved. */
  lemma {:induction false} KeepMembers(hs: seq<Handler>, saved: seq<Handler>)
    ensures forall h :: h in Keep(hs, saved) <==> h in hs && h in saved
  {
    if hs != [] {
      KeepMembers(hs[1..], saved);
      assert hs == [hs[0]] + hs[1..];
    }
  }

  /** A logger after restoring `saved` over its current state `cur`. */
  function Restored(cur: LoggerState, saved: LoggerState): (l: LoggerState)
    ensures l.level == saved.level && l.propagate == saved.propagate
    ensures forall h :: h in l.handlers <==> h in cur.handlers && h in saved.handlers
  {
    KeepMembers(cur.handlers, saved.handlers);
    LoggerState(saved.level, Keep(cur.handlers, saved.handlers), saved.propagate)
  }

  /** Restoring one entry of the snapshot. */
  function RestoreOne(r: Registry, e: Entry): (r': Registry)
    ensures r'.nextId == r.nextId
    ensures forall m :: m != e.name ==> View(r', m) == View(r, m)
    ensures View(r', e.name).level == e.saved.level && View(r', e.name).propagate == e.saved.propagate
  {
    Registry(r.loggers[e.name := Restored(View(r, e.name), e.saved)], r.nextId)
  }

  /** Restoring the snapshot's entries in order. */
  function RestoreFrom(r: Registry, snapshot: Snapshot): (r': Registry)
    decreases |snapshot|
    ensures r'.nextId == r.nextId
    ensures forall m :: m !in Names(snapshot) ==> View(r', m) == View(r, m)
  {
    if snapshot == [] then r else RestoreFrom(RestoreOne(r, snapshot[0]), snapshot[1..])
  }

  function Names(snapshot: Snapshot): (r: seq<string>)
    ensures |r| == |snapshot| && forall i :: 0 <= i < |r| ==> r[i] == snapshot[i].name
  {
    if snapshot == [] then [] else [snapshot[0].name] + Names(snapshot[1..])
  }

  /** `removeHandler`: drops the first occurrence, if any. */
  function RemoveFirst(hs: seq<Handler>, h: Handler): (r: seq<Handler>)
    ensures h !in hs ==> r == hs
  {
    if hs == [] then []
    else if hs[0] == h then hs[1..]
    else [hs[0]] + RemoveFirst(hs[1..], h)
  }

  // ---------------------------------------------------------------------
  // Lemmas about the list operations

  lemma {:induction false} KeepAppend(a: seq<Handler>, b: seq<Handler>, saved: seq<Handler>)
    ensures Keep(a + b, saved) == Keep(a, saved) + Keep(b, saved)
  {
    if a == [] {
      assert a + b == b;
    } else {
      var x := if a[0] in saved then [a[0]] else [];
      assert (a + b)[0] == a[0] && (a + b)[1..] == a[1..] + b;
      assert Keep(a + b, saved) == x + Keep(a[1..] + b, saved);
      KeepAppend(a[1..], b, saved);
      assert Keep(a, saved) == x + Keep(a[1..], saved);
    }
  }

  lemma {:induction false} KeepAll(hs: seq<Handler>, saved: seq<Handler>)
    requires forall h :: h in hs ==> h in saved
    ensures Keep(hs, saved) == hs
  {
    if hs != [] {
      KeepAll(hs[1..], saved);
    }
  }

  lemma {:induction false} KeepNone(hs: seq<Handler>, saved: seq<Handler>)
    requires forall h :: h in hs ==> h !in saved
    ensures Keep(hs, saved) == []
  {
    if hs != [] {
      KeepNone(hs[1..], saved);
    }
  }

  /** Restoring keeps exactly the saved prefix of a list that was extended
      after the snapshot. */
  lemma KeepExtended(after: seq<Handler>, before: seq<Handler>)
    requires Extends(after, before)
    ensures Keep(after, before) == before
  {
    var extra := after[|before|..];
    assert after == before + extra;
    KeepAppend(before, extra, before);
    KeepAll(before, before);
    forall h | h in extra ensures h !in before {
      var k :| 0 <= k < |extra| && extra[k] == h;
      assert after[|before| + k] == h;
    }
    KeepNone(extra, before);
  }

  /** Removing the first occurrence of a handler that a prefix lacks removes
      it from the rest. */
  lemma {:induction false} RemoveFirstAfter(p: seq<Handler>, h: Handler, rest: seq<Handler>)
    requires h !in p
    ensures RemoveFirst(p + [h] + rest, h) == p + rest
  {
    if p == [] {
      assert p + [h] + rest == [h] + rest;
    } else {
      assert (p + [h] + rest)[1..] == p[1..] + [h] + rest;
      RemoveFirstAfter(p[1..], h, rest);
      assert [p[0]] + (p[1..] + rest) == p + rest;
    }
  }

  // ---------------------------------------------------------------------
  // Lemmas about configure

  /** `Attached(x, roots, lo)`: `x` is a non-file root handler, or a file
      handler created by the bridge (id at least `lo`) that copies the path
      and level of a root file handler. */
  ghost predicate Attached(x: Handler, roots: seq<Handler>, lo: nat) {
    || (x.sink.Stream? && x in roots)
    || (x.sink.File? && x.id >= lo && exists h :: h in roots && h.sink == x.sink && h.level == x.level)
  }

  /** `hs` holds a handler created by the bridge that copies the file handler
      `h`. */
  ghost predicate Copied(h: Handler, hs: seq<Handler>, lo: nat) {
    exists x :: x in hs && x.id >= lo && x.sink == h.sink && x.level == h.level
  }

  /** What configuring does to one logger, given the root handlers `roots`
      and the first new id `lo`. */
  ghost predicate Bridged(before: LoggerState, after: LoggerState, roots: seq<Handler>, lo: nat, unopenable: set<string>) {
    && Extends(after.handlers, before.handlers)
    && (forall h :: h in roots && h.sink.Stream? ==> h in after.handlers)
    && (forall h :: (h in roots && h.sink.File? && h !in before.handlers && h.sink.path !in unopenable)
                      ==> Copied(h, after.handlers, lo))
    && (forall x :: x in after.handlers && x !in before.handlers ==> Attached(x, roots, lo))
    && (NoDup(before.handlers) ==> NoDup(after.handlers))
  }

  lemma BridgedWeaken(before: LoggerState, after: LoggerState, roots: seq<Handler>, lo: nat, lo': nat, unopenable: set<string>)
    requires Bridged(before, after, roots, lo', unopenable) && lo <= lo'
    ensures Bridged(before, after, roots, lo, unopenable)
  {
    forall h | h in roots && h.sink.File? && h !in before.handlers && h.sink.path !in unopenable
      ensures Copied(h, after.handlers, lo)
    {
      var x :| x in after.handlers && x.id >= lo' && x.sink == h.sink && x.level == h.level;
    }
  }

  /** Bridging then bridging again with the same roots composes. */
  lemma BridgedTrans(a: LoggerState, b: LoggerState, c: LoggerState, roots: seq<Handler>, lo: nat, unopenable: set<string>)
    requires Extends(b.handlers, a.handlers) && Extends(c.handlers, b.handlers)
    requires forall x :: x in b.handlers && x !in a.handlers ==> Attached(x, roots, lo)
    requires forall x :: x in c.handlers && x !in b.handlers ==> Attached(x, roots, lo)
    requires NoDup(a.handlers) ==> NoDup(b.handlers)
    requires NoDup(b.handlers) ==> NoDup(c.handlers)
    ensures Extends(c.handlers, a.handlers)
    ensures forall x :: x in c.handlers && x !in a.handlers ==> Attached(x, roots, lo)
    ensures NoDup(a.handlers) ==> NoDup(c.handlers)
  {
    ExtendsTrans(c.handlers, b.handlers, a.handlers);
    forall x | x in c.handlers && x !in a.handlers ensures Attached(x, roots, lo) {
      if x !in b.handlers {
      } else {
      }
    }
  }

  lemma ExtendsTrans(c: seq<Handler>, b: seq<Handler>, a: seq<Handler>)
    requires Extends(c, b) && Extends(b, a)
    ensures Extends(c, a)
  {
    assert c[..|a|] == c[..|b|][..|a|];
    forall k | |a| <= k < |c| ensures c[k] !in a {
      if k < |b| {
        assert c[k] == c[..|b|][k] == b[k];
      } else {
        assert c[k] !in b;
        assert forall h :: h in a ==> h in b by {
          forall h | h in a ensures h in b {
            var i :| 0 <= i < |a| && a[i] == h;
            assert b[..|a|][i] == h;
          }
        }
      }
    }
  }

  /** One pass of the inner loop, as a fact about the logger it changes. */
  lemma AttachOneFacts(r: Registry, n: string, h: Handler, unopenable: set<string>)
    requires WellFormed(r) && h.id < r.nextId
    ensures var r' := AttachOne(r, n, h, unopenable);
      && WellFormed(r') && r.nextId <= r'.nextId
      && (forall m :: m != n ==> View(r', m) == View(r, m))
      && View(r', n).level == View(r, n).level && View(r', n).propagate == View(r, n).propagate
      && Extends(View(r', n).handlers, View(r, n).handlers)
      && (h.sink.Stream? ==> h in View(r', n).handlers)
      && ((h.sink.File? && h !in View(r, n).handlers && h.sink.path !in unopenable)
            ==> Handler(r.nextId, h.sink, h.level) in View(r', n).handlers)
      && (forall x :: x in View(r', n).handlers && x !in View(r, n).handlers ==>
            (x == h && h.sink.Stream?) || (x == Handler(r.nextId, h.sink, h.level) && h.sink.File?))
      && (NoDup(View(r, n).handlers) ==> NoDup(View(r', n).handlers))
  {
    AttachOneFrame(r, n, h, unopenable);
    var cur, after := View(r, n).handlers, View(AttachOne(r, n, h, unopenable), n).handlers;
    AttachOneShape(r, n, h, unopenable);
    if after == cur {
      assert cur[..|cur|] == cur;
    } else {
      AppendFacts(cur, after[|cur|]);
    }
  }

  /** One pass of the inner loop changes the logger `name` only, and only
      its handlers. */
  lemma AttachOneFrame(r: Registry, n: string, h: Handler, unopenable: set<string>)
    requires WellFormed(r) && h.id < r.nextId
    ensures var r' := AttachOne(r, n, h, unopenable);
      && WellFormed(r') && r.nextId <= r'.nextId
      && (forall m :: m != n ==> View(r', m) == View(r, m))
      && View(r', n).level == View(r, n).level && View(r', n).propagate == View(r, n).propagate
  {
    var r' := AttachOne(r, n, h, unopenable);
    if r' != r {
      UpdateWellFormed(r, n, View(r', n), r'.nextId);
    }
  }

  /** One pass of the inner loop appends at most one handler the logger
      lacks: the root handler itself, or a new copy of a root file handler. */
  lemma AttachOneShape(r: Registry, n: string, h: Handler, unopenable: set<string>)
    requires WellFormed(r) && h.id < r.nextId
    ensures var cur, after := View(r, n).handlers, View(AttachOne(r, n, h, unopenable), n).handlers;
      && (after == cur || (|after| == |cur| + 1 && after == cur + [after[|cur|]] && after[|cur|] !in cur
            && ((after[|cur|] == h && h.sink.Stream?)
                || (after[|cur|] == Handler(r.nextId, h.sink, h.level) && h.sink.File?))))
      && (h.sink.Stream? ==> h in after)
      && ((h.sink.File? && h !in cur && h.sink.path !in unopenable) ==> Handler(r.nextId, h.sink, h.level) in after)
  {
    var cur := View(r, n).handlers;
    if h.sink.File? && h !in cur && h.sink.path !in unopenable {
      assert forall y :: y in cur ==> y.id < r.nextId by {
        if n in r.loggers {
          assert forall y :: y in cur ==> y in r.loggers[n].handlers;
        }
      }
    }
  }

  lemma AppendFacts(cur: seq<Handler>, x: Handler)
    requires x !in cur
    ensures Extends(cur + [x], cur)
    ensures forall y :: y in cur + [x] && y !in cur ==> y == x
    ensures NoDup(cur) ==> NoDup(cur + [x])
  {
    assert (cur + [x])[..|cur|] == cur;
  }

  /** The inner loop over the root handlers `hs`, as a fact about the logger
      it changes. */
  lemma {:induction false} AttachAllFacts(r: Registry, n: string, hs: seq<Handler>, unopenable: set<string>)
    requires WellFormed(r) && forall h :: h in hs ==> h.id < r.nextId
    ensures var r' := AttachAll(r, n, hs, unopenable);
      && WellFormed(r') && r.nextId <= r'.nextId
      && (forall m :: m != n ==> View(r', m) == View(r, m))
      && View(r', n).level == View(r, n).level && View(r', n).propagate == View(r, n).propagate
      && Bridged(View(r, n), View(r', n), hs, r.nextId, unopenable)
    decreases |hs|
  {
    if hs == [] {
      assert View(r, n).handlers[..|View(r, n).handlers|] == View(r, n).handlers;
    } else {
      var h := hs[0];
      var r1 := AttachOne(r, n, h, unopenable);
      AttachOneFacts(r, n, h, unopenable);
      AttachAllFacts(r1, n, hs[1..], unopenable);
      var r' := AttachAll(r1, n, hs[1..], unopenable);
      assert r' == AttachAll(r, n, hs, unopenable);
      BridgedWeaken(View(r1, n), View(r', n), hs[1..], r.nextId, r1.nextId, unopenable);
      AttachStep(View(r, n), View(r1, n), View(r', n), hs, r.nextId, unopenable);
    }
  }

  /** The inductive step of `AttachAllFacts`: `b` is `a` after attaching
      `hs[0]`, and `c` is `b` bridged to the rest of `hs`. */
  lemma AttachStep(a: LoggerState, b: LoggerState, c: LoggerState, hs: seq<Handler>, lo: nat, unopenable: set<string>)
    requires hs != [] && forall g :: g in hs ==> g.id < lo
    requires Extends(b.handlers, a.handlers)
    requires hs[0].sink.Stream? ==> hs[0] in b.handlers
    requires (hs[0].sink.File? && hs[0] !in a.handlers && hs[0].sink.path !in unopenable)
               ==> Handler(lo, hs[0].sink, hs[0].level) in b.handlers
    requires forall x :: x in b.handlers && x !in a.handlers ==>
               (x == hs[0] && hs[0].sink.Stream?) || (x == Handler(lo, hs[0].sink, hs[0].level) && hs[0].sink.File?)
    requires NoDup(a.handlers) ==> NoDup(b.handlers)
    requires Bridged(b, c, hs[1..], lo, unopenable)
    ensures Bridged(a, c, hs, lo, unopenable)
  {
    var h := hs[0];
    forall x | x in b.handlers && x !in a.handlers ensures Attached(x, hs, lo) {
      assert h in hs;
      if x.sink.File? {
        assert x == Handler(lo, h.sink, h.level);
      }
    }
    forall x | x in c.handlers && x !in b.handlers ensures Attached(x, hs, lo) {
      assert Attached(x, hs[1..], lo);
      if x.sink.File? {
        var g :| g in hs[1..] && g.sink == x.sink && g.level == x.level;
        assert g in hs;
      }
    }
    BridgedTrans(a, b, c, hs, lo, unopenable);
    forall g | g in hs && g.sink.Stream? ensures g in c.handlers {
      if g == h {
        ExtendsHolds(c.handlers, b.handlers, g);
      } else {
        assert g in hs[1..];
      }
    }
    forall g | g in hs && g.sink.File? && g !in a.handlers && g.sink.path !in unopenable
      ensures Copied(g, c.handlers, lo)
    {
      if g == h {
        ExtendsHolds(c.handlers, b.handlers, Handler(lo, h.sink, h.level));
      } else {
        assert g in hs[1..];
        assert g.id < lo;
        assert g !in b.handlers;
      }
    }
  }

  lemma ExtendsHolds(after: seq<Handler>, before: seq<Handler>, x: Handler)
    requires Extends(after, before) && x in before
    ensures x in after
  {
    var i :| 0 <= i < |before| && before[i] == x;
    assert after[..|before|][i] == x;
  }

  /** Root handlers the logger already holds are skipped, so attaching them
      changes nothing; in particular configuring the root logger attaches
      nothing to it. */
  lemma {:induction false} AttachAllPresent(r: Registry, n: string, hs: seq<Handler>, unopenable: set<string>)
    requires forall h :: h in hs ==> h in View(r, n).handlers
    ensures AttachAll(r, n, hs, unopenable) == r
    decreases |hs|
  {
    if hs != [] {
      AttachAllPresent(r, n, hs[1..], unopenable);
    }
  }

  /** Configuring one name: the level becomes INFO, propagation is switched
      on, the root handlers are attached, no other logger changes, and
      the root handler list stays as it was. */
  lemma ConfigureOneFacts(r: Registry, n: string, unopenable: set<string>)
    requires WellFormed(r)
    ensures var r' := ConfigureOne(r, n, unopenable);
      && WellFormed(r') && r.nextId <= r'.nextId
      && (forall m :: m != n ==> View(r', m) == View(r, m))
      && View(r', n).level == INFO && View(r', n).propagate
      && Bridged(View(r, n), View(r', n), View(r, RootName).handlers, r.nextId, unopenable)
      && View(r', RootName).handlers == View(r, RootName).handlers
  {
    var cur := View(r, n);
    var r1 := Registry(r.loggers[n := cur.(level := INFO, propagate := true)], r.nextId);
    var roots := View(r1, RootName).handlers;
    assert roots == View(r, RootName).handlers;
    assert WellFormed(r1) by {
      forall m, y | m in r1.loggers && y in r1.loggers[m].handlers ensures y.id < r1.nextId {
        if m != n { assert y in r.loggers[m].handlers; }
      }
    }
    assert forall h :: h in roots ==> h.id < r1.nextId by {
      if RootName in r1.loggers {
        assert forall h :: h in roots ==> h in r1.loggers[RootName].handlers;
      }
    }
    AttachAllFacts(r1, n, roots, unopenable);
    if n == RootName {
      AttachAllPresent(r1, n, roots, unopenable);
    }
  }

  /** Configuring a list of distinct names: the snapshot records each name's
      state before any change, each named logger ends at level INFO with
      propagation on and the root handlers attached, and every other logger
      is left alone. */
  lemma {:induction false} ConfigureFromFacts(r: Registry, ns: seq<string>, unopenable: set<string>)
    requires WellFormed(r) && Distinct(ns)
    ensures var c := ConfigureFrom(r, ns, unopenable);
      && WellFormed(c.0) && r.nextId <= c.0.nextId
      && |c.1| == |ns|
      && (forall i :: 0 <= i < |ns| ==> c.1[i] == Entry(ns[i], View(r, ns[i])))
      && (forall m :: m !in ns ==> View(c.0, m) == View(r, m))
      && (forall i :: 0 <= i < |ns| ==> View(c.0, ns[i]).level == INFO && View(c.0, ns[i]).propagate)
      && (forall i :: 0 <= i < |ns| ==>
            Bridged(View(r, ns[i]), View(c.0, ns[i]), View(r, RootName).handlers, r.nextId, unopenable))
      && View(c.0, RootName).handlers == View(r, RootName).handlers
    decreases |ns|
  {
    if ns == [] {
    } else {
      var n := ns[0];
      var r1 := ConfigureOne(r, n, unopenable);
      ConfigureOneFacts(r, n, unopenable);
      assert Distinct(ns[1..]);
      ConfigureFromFacts(r1, ns[1..], unopenable);
      var c := ConfigureFrom(r, ns, unopenable);
      var c1 := ConfigureFrom(r1, ns[1..], unopenable);
      assert c.0 == c1.0 && c.1 == [Entry(n, View(r, n))] + c1.1;
      var roots := View(r, RootName).handlers;
      assert n !in ns[1..];
      forall i | 0 <= i < |ns|
        ensures c.1[i] == Entry(ns[i], View(r, ns[i]))
        ensures View(c.0, ns[i]).level == INFO && View(c.0, ns[i]).propagate
        ensures Bridged(View(r, ns[i]), View(c.0, ns[i]), roots, r.nextId, unopenable)
      {
        if i == 0 {
          assert View(c.0, n) == View(r1, n);
        } else {
          assert ns[i] == ns[1..][i - 1] && ns[i] != n;
          BridgedWeaken(View(r, ns[i]), View(c.0, ns[i]), roots, r.nextId, r1.nextId, unopenable);
        }
      }
      forall m | m !in ns ensures View(c.0, m) == View(r, m) {
        assert m !in ns[1..];
      }
    }
  }

  /** The outer loop of `configure_manus_logging`, one name at a time. */
  lemma ConfigureFromStep(r: Registry, ns: seq<string>, i: nat, unopenable: set<string>)
    requires i < |ns|
    ensures var rest := ConfigureFrom(ConfigureOne(r, ns[i], unopenable), ns[i + 1..], unopenable);
            ConfigureFrom(r, ns[i..], unopenable) == (rest.0, [Entry(ns[i], View(r, ns[i]))] + rest.1)
  {
    assert ns[i..][0] == ns[i] && ns[i..][1..] == ns[i + 1..];
  }

  /** One pass of the outer loop moves one entry from the rest of the
      snapshot to the part already built. */
  lemma ConfigureNameStep(before: Registry, after: Registry, ns: seq<string>, i: nat, unopenable: set<string>,
                          snapshot: Snapshot, snapshot': Snapshot)
    requires i < |ns| && after == ConfigureOne(before, ns[i], unopenable)
    requires snapshot' == snapshot + [Entry(ns[i], View(before, ns[i]))]
    ensures ConfigureFrom(after, ns[i + 1..], unopenable).0 == ConfigureFrom(before, ns[i..], unopenable).0
    ensures snapshot' + ConfigureFrom(after, ns[i + 1..], unopenable).1
         == snapshot + ConfigureFrom(before, ns[i..], unopenable).1
  {
    var e := Entry(ns[i], View(before, ns[i]));
    var whole := ConfigureFrom(before, ns[i..], unopenable);
    var rest := ConfigureFrom(after, ns[i + 1..], unopenable);
    ConfigureFromStep(before, ns, i, unopenable);
    assert whole == (rest.0, [e] + rest.1);
    assert snapshot' + rest.1 == snapshot + ([e] + rest.1);
  }

  lemma ConfigureFromStart(r: Registry, ns: seq<string>, unopenable: set<string>)
    ensures ConfigureFrom(r, ns[0..], unopenable) == ConfigureFrom(r, ns, unopenable)
    ensures [] + ConfigureFrom(r, ns, unopenable).1 == ConfigureFrom(r, ns, unopenable).1
  {
    assert ns[0..] == ns;
  }

  lemma ConfigureFromEnd(r: Registry, ns: seq<string>, unopenable: set<string>)
    ensures ConfigureFrom(r, ns[|ns|..], unopenable) == (r, [])
  {
    assert ns[|ns|..] == [];
  }

  // ---------------------------------------------------------------------
  // Lemmas about restore

  /** Restoring one entry changes that one logger only. */
  lemma RestoreOneFacts(r: Registry, e: Entry)
    ensures var r' := RestoreOne(r, e);
      && r'.nextId == r.nextId
      && (forall k :: k in r'.loggers <==> k in r.loggers || k == e.name)
      && View(r', e.name) == Restored(View(r, e.name), e.saved)
      && (forall m :: m != e.name ==> View(r', m) == View(r, m))
      && (WellFormed(r) ==> WellFormed(r'))
  {
    var r' := RestoreOne(r, e);
    KeepMembers(View(r, e.name).handlers, e.saved.handlers);
    if WellFormed(r) {
      forall m, y | m in r'.loggers && y in r'.loggers[m].handlers ensures y.id < r'.nextId {
        if m != e.name { assert y in r.loggers[m].handlers; }
        else { assert y in View(r, m).handlers; }
      }
    }
  }

  /** Restoring never touches the id counter and keeps the registry well
      formed; it registers exactly the snapshot's names in addition. */
  lemma {:induction false} RestoreFromFrame(r: Registry, s: Snapshot)
    ensures RestoreFrom(r, s).nextId == r.nextId
    ensures forall k :: k in RestoreFrom(r, s).loggers <==> k in r.loggers || k in Names(s)
    ensures WellFormed(r) ==> WellFormed(RestoreFrom(r, s))
    decreases |s|
  {
    if s != [] {
      RestoreOneFacts(r, s[0]);
      RestoreFromFrame(RestoreOne(r, s[0]), s[1..]);
      assert Names(s) == [s[0].name] + Names(s[1..]);
    }
  }

  /** Restoring leaves a logger the snapshot does not name alone. */
  lemma {:induction false} RestoreFromElsewhere(r: Registry, s: Snapshot, m: string)
    requires m !in Names(s)
    ensures View(RestoreFrom(r, s), m) == View(r, m)
    decreases |s|
  {
    if s != [] {
      assert Names(s) == [s[0].name] + Names(s[1..]);
      RestoreOneFacts(r, s[0]);
      RestoreFromElsewhere(RestoreOne(r, s[0]), s[1..], m);
    }
  }

  /** Restoring a snapshot whose names are distinct gives the logger of entry
      `i` its saved level and propagation back, and keeps, in order, those of
      its current handlers that were saved. */
  lemma {:induction false} RestoreFromAt(r: Registry, s: Snapshot, i: nat)
    requires Distinct(Names(s)) && i < |s|
    ensures View(RestoreFrom(r, s), s[i].name) == Restored(View(r, s[i].name), s[i].saved)
    decreases |s|
  {
    var e := s[0];
    var r1 := RestoreOne(r, e);
    RestoreOneFacts(r, e);
    assert Names(s) == [e.name] + Names(s[1..]);
    if i == 0 {
      assert e.name !in Names(s[1..]) by {
        forall j | 0 <= j < |s[1..]| ensures Names(s[1..])[j] != e.name {
          assert Names(s)[0] != Names(s)[j + 1];
        }
      }
      RestoreFromElsewhere(r1, s[1..], e.name);
    } else {
      assert s[i] == s[1..][i - 1];
      assert Names(s)[0] != Names(s)[i];
      assert Distinct(Names(s[1..]));
      RestoreFromAt(r1, s[1..], i - 1);
    }
  }

  /** Round trip: configuring a list of distinct loggers and restoring the
      snapshot, with no change in between, leaves every logger's level,
      handler sequence (same handlers, same order) and propagation exactly
      as they were. */
  lemma BridgeRoundTrip(r: Registry, ns: seq<string>, unopenable: set<string>)
    requires WellFormed(r) && Distinct(ns)
    ensures var c := ConfigureFrom(r, ns, unopenable);
            forall m :: View(RestoreFrom(c.0, c.1), m) == View(r, m)
  {
    forall m ensures View(RestoreFrom(ConfigureFrom(r, ns, unopenable).0, ConfigureFrom(r, ns, unopenable).1), m) == View(r, m) {
      RoundTripAt(r, ns, unopenable, m);
    }
  }

  /** The round trip for one logger. */
  lemma RoundTripAt(r: Registry, ns: seq<string>, unopenable: set<string>, m: string)
    requires WellFormed(r) && Distinct(ns)
    ensures var c := ConfigureFrom(r, ns, unopenable);
            View(RestoreFrom(c.0, c.1), m) == View(r, m)
  {
    var c := ConfigureFrom(r, ns, unopenable);
    ConfigureRestorable(r, ns, unopenable);
    assert Names(c.1) == ns;
    if m in ns {
      var i :| 0 <= i < |ns| && ns[i] == m;
      RestoreSaved(c.0, c.1, r, i);
    } else {
      RestoreFromElsewhere(c.0, c.1, m);
    }
  }

  /** Restoring entry `i` of a snapshot taken from `r`, when the logger has
      only gained handlers since, gives back its state in `r`. */
  lemma RestoreSaved(cur: Registry, s: Snapshot, r: Registry, i: nat)
    requires Distinct(Names(s)) && i < |s| && s[i].saved == View(r, s[i].name)
    requires Extends(View(cur, s[i].name).handlers, View(r, s[i].name).handlers)
    ensures View(RestoreFrom(cur, s), s[i].name) == View(r, s[i].name)
  {
    RestoreFromAt(cur, s, i);
    KeepExtended(View(cur, s[i].name).handlers, View(r, s[i].name).handlers);
  }

  /** What restoring a bridge's snapshot relies on: the snapshot holds each
      name's prior state, bridged loggers only gained handlers, and the
      others are unchanged. */
  lemma ConfigureRestorable(r: Registry, ns: seq<string>, unopenable: set<string>)
    requires WellFormed(r) && Distinct(ns)
    ensures var c := ConfigureFrom(r, ns, unopenable);
      && |c.1| == |ns|
      && (forall i :: 0 <= i < |ns| ==> c.1[i] == Entry(ns[i], View(r, ns[i])))
      && (forall m :: m !in ns ==> View(c.0, m) == View(r, m))
      && (forall i :: 0 <= i < |ns| ==> Extends(View(c.0, ns[i]).handlers, View(r, ns[i]).handlers))
  {
    ConfigureFromFacts(r, ns, unopenable);
  }

  /** Restore only removes: after restoring, every logger holds a subset of
      the handlers it held just before (a handler removed elsewhere in the
      meantime is not put back), and the level and propagation are the saved
      ones. */
  lemma RestoreOnlyRemoves(r: Registry, s: Snapshot)
    requires Distinct(Names(s))
    ensures forall m, h :: h in View(RestoreFrom(r, s), m).handlers ==> h in View(r, m).handlers
    ensures forall i :: 0 <= i < |s| ==>
              View(RestoreFrom(r, s), s[i].name).level == s[i].saved.level
              && View(RestoreFrom(r, s), s[i].name).propagate == s[i].saved.propagate
  {
    forall m, h | h in View(RestoreFrom(r, s), m).handlers ensures h in View(r, m).handlers {
      if m in Names(s) {
        var i :| 0 <= i < |s| && Names(s)[i] == m;
        RestoreFromAt(r, s, i);
        KeepMembers(View(r, m).handlers, s[i].saved.handlers);
      } else {
        RestoreFromElsewhere(r, s, m);
      }
    }
    forall i | 0 <= i < |s|
      ensures View(RestoreFrom(r, s), s[i].name).level == s[i].saved.level
      ensures View(RestoreFrom(r, s), s[i].name).propagate == s[i].saved.propagate
    {
      RestoreFromAt(r, s, i);
    }
  }

  /** A second restore of the same snapshot changes nothing. */
  lemma RestoreIdempotent(r: Registry, s: Snapshot)
    requires Distinct(Names(s))
    ensures RestoreFrom(RestoreFrom(r, s), s) == RestoreFrom(r, s)
  {
    var r1 := RestoreFrom(r, s);
    var r2 := RestoreFrom(r1, s);
    RestoreFromFrame(r, s);
    RestoreFromFrame(r1, s);
    forall k | k in r2.loggers ensures k in r1.loggers && r2.loggers[k] == r1.loggers[k] {
      assert View(r2, k) == View(r1, k) by {
        if k in Names(s) {
          var i :| 0 <= i < |s| && Names(s)[i] == k;
          RestoreFromAt(r, s, i);
          RestoreFromAt(r1, s, i);
          KeepMembers(View(r, k).handlers, s[i].saved.handlers);
          KeepAll(Keep(View(r, k).handlers, s[i].saved.handlers), s[i].saved.handlers);
        } else {
          RestoreFromElsewhere(r1, s, k);
        }
      }
    }
    assert r2.loggers == r1.loggers;
  }

  /** Restoring reads the registry only through what `getLogger` shows. */
  lemma RestoreFromViews(r1: Registry, r2: Registry, s: Snapshot)
    requires Distinct(Names(s)) && forall m :: View(r1, m) == View(r2, m)
    ensures forall m :: View(RestoreFrom(r1, s), m) == View(RestoreFrom(r2, s), m)
  {
    forall m ensures View(RestoreFrom(r1, s), m) == View(RestoreFrom(r2, s), m) {
      if m in Names(s) {
        var i :| 0 <= i < |s| && Names(s)[i] == m;
        RestoreFromAt(r1, s, i);
        RestoreFromAt(r2, s, i);
      } else {
        RestoreFromElsewhere(r1, s, m);
        RestoreFromElsewhere(r2, s, m);
      }
    }
  }

  /** Two bridges used one inside the other (A configures, B configures,
      B restores, A restores) leave every logger as it was before A. */
  lemma NestedBridgesRestore(r: Registry, nsA: seq<string>, nsB: seq<string>, uA: set<string>, uB: set<string>)
    requires WellFormed(r) && Distinct(nsA) && Distinct(nsB)
    ensures var a := ConfigureFrom(r, nsA, uA);
            var b := ConfigureFrom(a.0, nsB, uB);
            forall m :: View(RestoreFrom(RestoreFrom(b.0, b.1), a.1), m) == View(r, m)
  {
    var a := ConfigureFrom(r, nsA, uA);
    var b := ConfigureFrom(a.0, nsB, uB);
    ConfigureFromFacts(r, nsA, uA);
    assert Names(a.1) == nsA;
    BridgeRoundTrip(a.0, nsB, uB);
    RestoreFromViews(RestoreFrom(b.0, b.1), a.0, a.1);
    BridgeRoundTrip(r, nsA, uA);
  }

  /** Two bridges that overlap without nesting (A configures, B configures,
      A restores, B restores) leave every bridged logger at level INFO with
      propagation on, whatever it was before A: B's snapshot was taken while
      A's changes were in place. */
  lemma CrossedBridgesLeaveInfo(r: Registry, ns: seq<string>, uA: set<string>, uB: set<string>)
    requires WellFormed(r) && Distinct(ns)
    ensures var a := ConfigureFrom(r, ns, uA);
            var b := ConfigureFrom(a.0, ns, uB);
            var after := RestoreFrom(RestoreFrom(b.0, a.1), b.1);
            forall i :: 0 <= i < |ns| ==> View(after, ns[i]).level == INFO && View(after, ns[i]).propagate
  {
    var a := ConfigureFrom(r, ns, uA);
    ConfigureFromFacts(r, ns, uA);
    var b := ConfigureFrom(a.0, ns, uB);
    ConfigureFromFacts(a.0, ns, uB);
    assert Names(b.1) == ns;
    forall i | 0 <= i < |ns|
      ensures View(RestoreFrom(RestoreFrom(b.0, a.1), b.1), ns[i]).level == INFO
      ensures View(RestoreFrom(RestoreFrom(b.0, a.1), b.1), ns[i]).propagate
    {
      RestoreFromAt(RestoreFrom(b.0, a.1), b.1, i);
    }
  }

  /** Replacing one logger by a state whose handlers it already held, or
      that are fresh below `nextId`, keeps the registry well formed. */
  lemma UpdateWellFormed(r: Registry, name: string, st: LoggerState, nextId: nat)
    requires WellFormed(r) && r.nextId <= nextId
    requires forall h :: h in st.handlers ==> h in View(r, name).handlers || h.id < nextId
    ensures WellFormed(Registry(r.loggers[name := st], nextId))
  {
    var r' := Registry(r.loggers[name := st], nextId);
    forall m, y | m in r'.loggers && y in r'.loggers[m].handlers ensures y.id < r'.nextId {
      if m != name { assert y in r.loggers[m].handlers; }
      else if y in View(r, name).handlers {
        if name in r.loggers { assert y in r.loggers[name].handlers; }
      }
    }
  }

  // ---------------------------------------------------------------------
  // The registry object

  /** The process-wide logger registry that `logging.getLogger` hands out
      loggers from. */
  class LoggingRegistry {
    var loggers: map<string, LoggerState>
    var nextId: nat

    function State(): Registry
      reads this
    {
      Registry(loggers, nextId)
    }

    ghost predicate Valid()
      reads this
    {
      WellFormed(State())
    }

    constructor (initial: Registry)
      requires WellFormed(initial)
      ensures Valid() && State() == initial
    {
      loggers := initial.loggers;
      nextId := initial.nextId;
    }

    /** `logger.addHandler(h)`: appends `h` unless the logger holds it. */
    method AddHandler(name: string, h: Handler)
      requires Valid() && h.id < nextId
      modifies this
      ensures Valid() && nextId == old(nextId)
      ensures var cur := View(old(State()), name);
              loggers == old(loggers)[name := cur.(handlers := if h in cur.handlers then cur.handlers else cur.handlers + [h])]
    {
      var cur := View(State(), name);
      var updated := cur.(handlers := if h in cur.handlers then cur.handlers else cur.handlers + [h]);
      UpdateWellFormed(State(), name, updated, nextId);
      loggers := loggers[name := updated];
    }

    /** `logger.removeHandler(h)`: drops `h` if the logger holds it. */
    method RemoveHandler(name: string, h: Handler)
      requires Valid()
      modifies this
      ensures Valid()
      ensures State() == WithHandlers(old(State()), name, RemoveFirst(View(old(State()), name).handlers, h))
    {
      var cur := View(State(), name);
      var updated := cur.(handlers := RemoveFirst(cur.handlers, h));
      RemoveFirstSubset(cur.handlers, h);
      UpdateWellFormed(State(), name, updated, nextId);
      loggers := loggers[name := updated];
    }

    /** One pass of the inner loop of `configure_manus_logging`: attach the
        root handler `h` to the logger `name`. */
    method AttachHandler(name: string, h: Handler, unopenable: set<string>)
      requires Valid() && h.id < nextId
      modifies this
      ensures Valid() && old(nextId) <= nextId
      ensures State() == AttachOne(old(State()), name, h, unopenable)
    {
      var cur := View(State(), name);
      if h !in cur.handlers {
        match h.sink {
          case Stream =>
            AddHandler(name, h);
          case File(path) =>
            if path !in unopenable {
              var created := Handler(nextId, File(path), h.level);
              nextId := nextId + 1;
              AddHandler(name, created);
            }
        }
      }
    }

    /** The inner loop of `configure_manus_logging` over the root handlers. */
    method AttachRoots(name: string, roots: seq<Handler>, unopenable: set<string>)
      requires Valid() && forall h :: h in roots ==> h.id < nextId
      modifies this
      ensures Valid() && old(nextId) <= nextId
      ensures State() == AttachAll(old(State()), name, roots, unopenable)
    {
      assert roots[0..] == roots;
      for j := 0 to |roots|
        invariant Valid() && old(nextId) <= nextId
        invariant AttachAll(State(), name, roots[j..], unopenable) == AttachAll(old(State()), name, roots, unopenable)
      {
        assert roots[j..][1..] == roots[j + 1..];
        AttachHandler(name, roots[j], unopenable);
      }
      assert roots[|roots|..] == [];
    }

    /** The body of the outer loop of `configure_manus_logging` for one
        name, after its snapshot entry: level INFO, propagation on, then one
        pass over the root handlers. */
    method ConfigureEntry(name: string, unopenable: set<string>)
      requires Valid()
      modifies this
      ensures Valid()
      ensures State() == ConfigureOne(old(State()), name, unopenable)
    {
      var logger := View(State(), name);
      UpdateWellFormed(State(), name, logger.(level := INFO, propagate := true), nextId);
      loggers := loggers[name := logger.(level := INFO, propagate := true)];
      var roots := View(State(), RootName).handlers;
      assert forall h :: h in roots ==> h.id < nextId by {
        if RootName in loggers {
          assert forall h :: h in roots ==> h in loggers[RootName].handlers;
        }
      }
      AttachRoots(name, roots, unopenable);
    }

    /** `configure_manus_logging()`: snapshots each bridged logger, then sets
        its level to INFO, turns propagation on and attaches the root
        handlers. A file handler whose path cannot be opened is skipped (the
        `IOError` branch). */
    method Configure(unopenable: set<string>) returns (snapshot: Snapshot)
      requires Valid()
      modifies this
      ensures Valid()
      ensures (State(), snapshot) == ConfigureFrom(old(State()), BridgedLoggers, unopenable)
    {
      ghost var goal := ConfigureFrom(State(), BridgedLoggers, unopenable);
      snapshot := [];
      ConfigureFromStart(State(), BridgedLoggers, unopenable);
      for i := 0 to |BridgedLoggers|
        invariant Valid()
        invariant ConfigureFrom(State(), BridgedLoggers[i..], unopenable).0 == goal.0
        invariant snapshot + ConfigureFrom(State(), BridgedLoggers[i..], unopenable).1 == goal.1
      {
        snapshot := ConfigureName(BridgedLoggers, i, unopenable, snapshot);
      }
      ConfigureFromEnd(State(), BridgedLoggers, unopenable);
      assert snapshot + [] == snapshot;
    }

    /** One pass of the outer loop: the snapshot entry for `names[i]`, then
        its configuration. */
    method ConfigureName(names: seq<string>, i: nat, unopenable: set<string>, snapshot: Snapshot)
        returns (snapshot': Snapshot)
      requires Valid() && i < |names|
      modifies this
      ensures Valid()
      ensures ConfigureFrom(State(), names[i + 1..], unopenable).0 == ConfigureFrom(old(State()), names[i..], unopenable).0
      ensures snapshot' + ConfigureFrom(State(), names[i + 1..], unopenable).1
           == snapshot + ConfigureFrom(old(State()), names[i..], unopenable).1
    {
      var name := names[i];
      ghost var before := State();
      snapshot' := snapshot + [Entry(name, View(State(), name))];
      ConfigureEntry(name, unopenable);
      ConfigureNameStep(before, State(), names, i, unopenable, snapshot, snapshot');
    }

    /** The inner loop of `restore_manus_logging`: over a copy of the
        logger's handlers, `removeHandler` for each one `saved` lacks. */
    method DropUnsaved(name: string, saved: seq<Handler>)
      requires Valid() && name in loggers
      modifies this
      ensures Valid()
      ensures State() == WithHandlers(old(State()), name, Keep(View(old(State()), name).handlers, saved))
    {
      ghost var start := State();
      var copy := View(State(), name).handlers;
      PendingEnds(copy, saved);
      WithHandlersSame(start, name);
      for j := 0 to |copy|
        invariant Valid()
        invariant State() == WithHandlers(start, name, Pending(copy, j, saved))
      {
        DropPending(name, copy, j, saved, start);
      }
    }

    /** One pass of the loop of `DropUnsaved`, over the copy `copy` of the
        handlers `start` gave the logger. */
    method DropPending(name: string, copy: seq<Handler>, j: nat, saved: seq<Handler>, ghost start: Registry)
      requires Valid() && name in loggers && j < |copy|
      requires State() == WithHandlers(start, name, Pending(copy, j, saved))
      modifies this
      ensures Valid()
      ensures State() == WithHandlers(start, name, Pending(copy, j + 1, saved))
    {
      assert View(State(), name).handlers == Pending(copy, j, saved);
      DropIfUnsaved(name, copy[j], saved);
      PendingStep(copy, j, saved);
      WithHandlersTwice(start, name, Pending(copy, j, saved), Pending(copy, j + 1, saved));
    }

    /** The body of the inner loop of `restore_manus_logging`: a handler the
        snapshot lacks is removed. */
    method DropIfUnsaved(name: string, h: Handler, saved: seq<Handler>)
      requires Valid() && name in loggers
      modifies this
      ensures Valid()
      ensures State() == WithHandlers(old(State()), name, Unless(View(old(State()), name).handlers, h, saved))
    {
      if h !in saved {
        RemoveHandler(name, h);
      } else {
        WithHandlersSame(State(), name);
      }
    }

    /** The body of the loop of `restore_manus_logging` for one entry: the
        saved level, removal of every current handler the entry lacks, the
        saved propagation. */
    method RestoreEntry(e: Entry)
      requires Valid()
      modifies this
      ensures Valid()
      ensures State() == RestoreOne(old(State()), e)
    {
      var logger := View(State(), e.name);
      UpdateWellFormed(State(), e.name, logger.(level := e.saved.level), nextId);
      loggers := loggers[e.name := logger.(level := e.saved.level)];
      DropUnsaved(e.name, e.saved.handlers);
      var restored := View(State(), e.name).(propagate := e.saved.propagate);
      UpdateWellFormed(State(), e.name, restored, nextId);
      loggers := loggers[e.name := restored];
    }

    /** `restore_manus_logging(original_configs)`: an empty snapshot is left
        alone; otherwise each saved logger gets its level back, loses every
        handler it holds that the snapshot lacks, and gets its propagation
        back. */
    method Restore(snapshot: Snapshot)
      requires Valid()
      modifies this
      ensures Valid()
      ensures State() == RestoreFrom(old(State()), snapshot)
      ensures snapshot == [] ==> State() == old(State())
    {
      if snapshot == [] {
        return;
      }
      assert snapshot[0..] == snapshot;
      for i := 0 to |snapshot|
        invariant Valid()
        invariant RestoreFrom(State(), snapshot[i..]) == RestoreFrom(old(State()), snapshot)
      {
        assert snapshot[i..][1..] == snapshot[i + 1..];
        RestoreEntry(snapshot[i]);
      }
      assert snapshot[|snapshot|..] == [];
    }
  }

  /** The handler list after the first `j` passes of the `removeHandler`
      loop over `copy`. */
  function Pending(copy: seq<Handler>, j: nat, saved: seq<Handler>): seq<Handler>
    requires j <= |copy|
  {
    Keep(copy[..j], saved) + copy[j..]
  }

  lemma PendingEnds(copy: seq<Handler>, saved: seq<Handler>)
    ensures Pending(copy, 0, saved) == copy
    ensures Pending(copy, |copy|, saved) == Keep(copy, saved)
  {
    assert copy[..0] == [] && copy[0..] == copy;
    assert copy[..|copy|] == copy && copy[|copy|..] == [];
  }

  /** The registry with the handler list of `name` replaced. */
  function WithHandlers(r: Registry, name: string, hs: seq<Handler>): Registry {
    Registry(r.loggers[name := View(r, name).(handlers := hs)], r.nextId)
  }

  lemma WithHandlersSame(r: Registry, name: string)
    requires name in r.loggers
    ensures WithHandlers(r, name, View(r, name).handlers) == r
  {
    assert r.loggers[name := r.loggers[name]] == r.loggers;
  }

  lemma WithHandlersTwice(r: Registry, name: string, a: seq<Handler>, b: seq<Handler>)
    ensures WithHandlers(WithHandlers(r, name, a), name, b) == WithHandlers(r, name, b)
  {
  }

  /** The handler list after the body of the `removeHandler` loop for `h`. */
  function Unless(hs: seq<Handler>, h: Handler, saved: seq<Handler>): seq<Handler> {
    if h in saved then hs else RemoveFirst(hs, h)
  }

  /** One pass of the `removeHandler` loop over a copy of the handlers. */
  lemma PendingStep(copy: seq<Handler>, j: nat, saved: seq<Handler>)
    requires j < |copy|
    ensures Unless(Pending(copy, j, saved), copy[j], saved) == Pending(copy, j + 1, saved)
  {
    if copy[j] in saved {
      DropKept(copy, j, saved);
    } else {
      DropRemoved(copy, j, saved);
    }
  }

  /** For a handler the snapshot holds: the handler stays. */
  lemma DropKept(copy: seq<Handler>, j: nat, saved: seq<Handler>)
    requires j < |copy| && copy[j] in saved
    ensures Pending(copy, j + 1, saved) == Pending(copy, j, saved)
  {
    var h, pre, rest := copy[j], copy[..j], copy[j + 1..];
    assert copy[..j + 1] == pre + [h];
    assert copy[j..] == [h] + rest;
    KeepAppend(pre, [h], saved);
    assert Keep([h], saved) == [h] + Keep([], saved);
  }

  /** For a handler the snapshot lacks: it is removed. */
  lemma DropRemoved(copy: seq<Handler>, j: nat, saved: seq<Handler>)
    requires j < |copy| && copy[j] !in saved
    ensures RemoveFirst(Pending(copy, j, saved), copy[j]) == Pending(copy, j + 1, saved)
  {
    assert copy[..j + 1] == copy[..j] + [copy[j]];
    assert copy[j..] == [copy[j]] + copy[j + 1..];
    DropRemovedSplit(copy[..j], copy[j], copy[j + 1..], saved);
  }

  lemma DropRemovedSplit(pre: seq<Handler>, h: Handler, rest: seq<Handler>, saved: seq<Handler>)
    requires h !in saved
    ensures RemoveFirst(Keep(pre, saved) + ([h] + rest), h) == Keep(pre + [h], saved) + rest
  {
    var k := Keep(pre, saved);
    KeepAppend(pre, [h], saved);
    assert Keep([h], saved) == [] + Keep([], saved);
    KeepMembers(pre, saved);
    assert k + ([h] + rest) == k + [h] + rest;
    RemoveFirstAfter(k, h, rest);
  }

  lemma {:induction false} RemoveFirstSubset(hs: seq<Handler>, h: Handler)
    ensures forall y :: y in RemoveFirst(hs, h) ==> y in hs
  {
    if hs != [] && hs[0] != h {
      RemoveFirstSubset(hs[1..], h);
    }
  }
}
