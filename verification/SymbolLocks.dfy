/**
 * One asyncio lock per symbol, counted by its reservers and collected when long unused. A reservation, a
 * release and a collection each run under the guard lock and are one step; between them tasks wait for the
 * symbol's lock and render.
 */
module SymbolLocks {
  const LOCK_TTL := 4 * 3600

  /** Lock objects are identified by number. */
  datatype Table = Table(locks: map<string, nat>, lastUsed: map<string, int>, refs: map<string, int>)

  function Refs(t: Table, symbol: string): int {
    if symbol in t.refs then t.refs[symbol] else 0
  }

  function Reserve(t: Table, symbol: string, unused: nat, now: int): Table {
    Table(if symbol in t.locks then t.locks else t.locks[symbol := unused],
          t.lastUsed[symbol := now],
          t.refs[symbol := Refs(t, symbol) + 1])
  }

  function Release(t: Table, symbol: string, now: int): Table {
    var remaining := Refs(t, symbol) - 1;
    t.(lastUsed := t.lastUsed[symbol := now],
       refs := if remaining > 0 then t.refs[symbol := remaining] else t.refs - {symbol})
  }

  predicate Unused(t: Table, now: int, symbol: string) {
    symbol in t.lastUsed && now - t.lastUsed[symbol] >= LOCK_TTL && Refs(t, symbol) == 0
  }

  /** A symbol without a lock object raises `KeyError`; the pass is then abandoned as a whole. */
  predicate CleanupFails(t: Table, now: int) {
    exists symbol <- t.lastUsed :: Unused(t, now, symbol) && symbol !in t.locks
  }

  function Expired(t: Table, held: set<nat>, now: int): set<string> {
    set symbol | symbol in t.lastUsed && Unused(t, now, symbol) && symbol in t.locks && t.locks[symbol] !in held
  }

  function Cleanup(t: Table, held: set<nat>, now: int): Table {
    if CleanupFails(t, now) then t
    else
      var expired := Expired(t, held, now);
      Table(t.locks - expired, t.lastUsed - expired, t.refs - expired)
  }

  lemma RemoveOneMore<V>(m: map<string, V>, gone: set<string>, symbol: string)
    ensures m - gone - {symbol} == m - (gone + {symbol})
  {
  }

  class Locks {
    var locks: map<string, nat>
    var lastUsed: map<string, int>
    var refs: map<string, int>

    function State(): Table
      reads this
    {
      Table(locks, lastUsed, refs)
    }

    constructor ()
      ensures State() == Table(map[], map[], map[])
    {
      locks, lastUsed, refs := map[], map[], map[];
    }

    /** `unused` is the lock object that is created when the symbol has none. */
    method ReserveSymbolLock(symbol: string, unused: nat, now: int) returns (lock: nat)
      modifies this
      ensures State() == Reserve(old(State()), symbol, unused, now)
      ensures symbol in locks && lock == locks[symbol]
    {
      if symbol in locks {
        lock := locks[symbol];
      } else {
        lock := unused;
        locks := locks[symbol := lock];
      }
      lastUsed := lastUsed[symbol := now];
      refs := refs[symbol := (if symbol in refs then refs[symbol] else 0) + 1];
    }

    method ReleaseSymbolLock(symbol: string, now: int)
      modifies this`lastUsed, this`refs
      ensures State() == Release(old(State()), symbol, now)
    {
      lastUsed := lastUsed[symbol := now];
      var remaining := (if symbol in refs then refs[symbol] else 0) - 1;
      if remaining > 0 {
        refs := refs[symbol := remaining];
      } else {
        refs := refs - {symbol};
      }
    }

    method CleanupSymbolLocks(held: set<nat>, now: int)
      modifies this
      ensures State() == Cleanup(old(State()), held, now)
    {
      if CleanupFails(State(), now) { return; }
      RemoveSymbols(Expired(State(), held, now));
    }

    method RemoveSymbols(expired: set<string>)
      modifies this
      ensures locks == old(locks) - expired && lastUsed == old(lastUsed) - expired && refs == old(refs) - expired
    {
      var left := expired;
      ghost var gone := {};
      while left != {}
        invariant left + gone == expired
        invariant locks == old(locks) - gone
        invariant lastUsed == old(lastUsed) - gone
        invariant refs == old(refs) - gone
        decreases |left|
      {
        var symbol :| symbol in left;
        locks := locks - {symbol};
        lastUsed := lastUsed - {symbol};
        refs := refs - {symbol};
        RemoveOneMore(old(locks), gone, symbol);
        RemoveOneMore(old(lastUsed), gone, symbol);
        RemoveOneMore(old(refs), gone, symbol);
        left := left - {symbol};
        gone := gone + {symbol};
      }
    }
  }

  // ----- tasks -----

  datatype Phase = Waiting | Rendering | Leaving

  /** A task that has reserved a lock and has not released its reservation. */
  datatype Task = Task(symbol: string, lock: nat, phase: Phase)

  datatype World = World(table: Table, tasks: map<nat, Task>, owner: map<nat, nat>, nextLock: nat)

  datatype Action =
    | StartTask(task: nat, symbol: string, now: int)
    | Acquire(task: nat)
    | GiveUp(task: nat)
    | Leave(task: nat)
    | Finish(task: nat, now: int)
    | Collect(now: int)

  function Step(w: World, a: Action): World {
    match a
    case StartTask(task, symbol, now) =>
      if task in w.tasks then w
      else
        var table := Reserve(w.table, symbol, w.nextLock, now);
        World(table, w.tasks[task := Task(symbol, table.locks[symbol], Waiting)], w.owner, w.nextLock + 1)
    case Acquire(task) =>
      if task in w.tasks && w.tasks[task].phase == Waiting && w.tasks[task].lock !in w.owner
      then w.(tasks := w.tasks[task := w.tasks[task].(phase := Rendering)],
        owner := w.owner[w.tasks[task].lock := task])
      else w
    case GiveUp(task) =>
      if task in w.tasks && w.tasks[task].phase == Waiting
      then w.(tasks := w.tasks[task := w.tasks[task].(phase := Leaving)]) else w
    case Leave(task) =>
      if task in w.tasks && w.tasks[task].phase == Rendering
      then w.(tasks := w.tasks[task := w.tasks[task].(phase := Leaving)], owner := w.owner - {w.tasks[task].lock})
      else w
    case Finish(task, now) =>
      if task in w.tasks && w.tasks[task].phase == Leaving
      then w.(table := Release(w.table, w.tasks[task].symbol, now), tasks := w.tasks - {task})
      else w
    case Collect(now) => w.(table := Cleanup(w.table, w.owner.Keys, now))
  }

  function Run(actions: seq<Action>): World {
    if actions == [] then World(Table(map[], map[], map[]), map[], map[], 0)
    else Step(Run(actions[..|actions| - 1]), actions[|actions| - 1])
  }

  /** The tasks that hold a reservation of a symbol. */
  function Reservers(tasks: map<nat, Task>, symbol: string): set<nat> {
    set t | t in tasks && tasks[t].symbol == symbol
  }

  // ----- invariant -----

  ghost predicate Counted(w: World) {
    && w.table.locks.Keys == w.table.lastUsed.Keys
    && w.table.refs.Keys <= w.table.locks.Keys
    && (forall s: string :: Refs(w.table, s) == |Reservers(w.tasks, s)|)
    && (forall s <- w.table.refs :: w.table.refs[s] > 0)
  }

  ghost predicate Stored(w: World) {
    && (forall t <- w.tasks ::
      w.tasks[t].symbol in w.table.locks && w.table.locks[w.tasks[t].symbol] == w.tasks[t].lock)
    && (forall s <- w.table.locks :: w.table.locks[s] < w.nextLock)
    && (forall s, r | s in w.table.locks && r in w.table.locks :: w.table.locks[s] == w.table.locks[r] ==> s == r)
  }

  ghost predicate Owned(w: World) {
    && (forall l <- w.owner ::
      w.owner[l] in w.tasks && w.tasks[w.owner[l]].lock == l && w.tasks[w.owner[l]].phase == Rendering)
    && (forall t <- w.tasks :: w.tasks[t].phase == Rendering ==>
      w.tasks[t].lock in w.owner && w.owner[w.tasks[t].lock] == t)
  }

  ghost predicate Inv(w: World) {
    Counted(w) && Stored(w) && Owned(w)
  }

  lemma ReserversGrow(tasks: map<nat, Task>, task: nat, v: Task, s: string)
    requires task !in tasks
    ensures |Reservers(tasks[task := v], s)| == |Reservers(tasks, s)| + if v.symbol == s then 1 else 0
  {
    if v.symbol == s { assert Reservers(tasks[task := v], s) == Reservers(tasks, s) + {task}; }
    else { assert Reservers(tasks[task := v], s) == Reservers(tasks, s); }
  }

  lemma ReserversShrink(tasks: map<nat, Task>, task: nat, s: string)
    requires task in tasks
    ensures |Reservers(tasks - {task}, s)| == |Reservers(tasks, s)| - if tasks[task].symbol == s then 1 else 0
  {
    if tasks[task].symbol == s { assert Reservers(tasks - {task}, s) == Reservers(tasks, s) - {task}; }
    else { assert Reservers(tasks - {task}, s) == Reservers(tasks, s); }
  }

  lemma PhaseKeepsReservers(tasks: map<nat, Task>, task: nat, phase: Phase, s: string)
    requires task in tasks
    ensures Reservers(tasks[task := tasks[task].(phase := phase)], s) == Reservers(tasks, s)
  {
  }

  lemma ReservedIsCounted(w: World, task: nat)
    requires Inv(w) && task in w.tasks
    ensures Refs(w.table, w.tasks[task].symbol) > 0
  {
    assert task in Reservers(w.tasks, w.tasks[task].symbol);
  }

  lemma StartKeepsCount(w: World, task: nat, symbol: string, now: int)
    requires Inv(w)
    ensures Counted(Step(w, StartTask(task, symbol, now)))
  {
    if task !in w.tasks {
      var t := Step(w, StartTask(task, symbol, now));
      forall s: string ensures Refs(t.table, s) == |Reservers(t.tasks, s)| {
        ReserversGrow(w.tasks, task, t.tasks[task], s);
      }
    }
  }

  lemma StartKeepsStored(w: World, task: nat, symbol: string, now: int)
    requires Inv(w)
    ensures Stored(Step(w, StartTask(task, symbol, now)))
  {
  }

  lemma StartKeepsOwned(w: World, task: nat, symbol: string, now: int)
    requires Inv(w)
    ensures Owned(Step(w, StartTask(task, symbol, now)))
  {
  }

  lemma StartKeepsInv(w: World, task: nat, symbol: string, now: int)
    requires Inv(w)
    ensures Inv(Step(w, StartTask(task, symbol, now)))
  {
    StartKeepsCount(w, task, symbol, now);
    StartKeepsStored(w, task, symbol, now);
    StartKeepsOwned(w, task, symbol, now);
  }

  lemma FinishKeepsInv(w: World, task: nat, now: int)
    requires Inv(w)
    ensures Inv(Step(w, Finish(task, now)))
  {
    if task in w.tasks && w.tasks[task].phase == Leaving {
      var t := Step(w, Finish(task, now));
      ReservedIsCounted(w, task);
      forall s: string ensures Refs(t.table, s) == |Reservers(t.tasks, s)| {
        ReserversShrink(w.tasks, task, s);
      }
      assert t.table.lastUsed.Keys == w.table.lastUsed.Keys;
    }
  }

  lemma CollectKeepsInv(w: World, now: int)
    requires Inv(w)
    ensures Inv(Step(w, Collect(now)))
  {
    var t := Step(w, Collect(now));
    forall task | task in t.tasks ensures w.tasks[task].symbol in t.table.locks {
      ReservedIsCounted(w, task);
    }
    assert t.table.locks.Keys == t.table.lastUsed.Keys;
  }

  /** Moving to another phase changes neither the reservations nor the stored locks. */
  lemma PhaseKeepsStored(w: World, task: nat, phase: Phase, owner: map<nat, nat>)
    requires Inv(w) && task in w.tasks
    ensures var t := w.(tasks := w.tasks[task := w.tasks[task].(phase := phase)], owner := owner);
            Counted(t) && Stored(t)
  {
    var t := w.(tasks := w.tasks[task := w.tasks[task].(phase := phase)], owner := owner);
    forall s: string ensures Refs(t.table, s) == |Reservers(t.tasks, s)| {
      PhaseKeepsReservers(w.tasks, task, phase, s);
    }
  }

  lemma AcquireKeepsInv(w: World, task: nat)
    requires Inv(w)
    ensures Inv(Step(w, Acquire(task)))
  {
    if task in w.tasks && w.tasks[task].phase == Waiting && w.tasks[task].lock !in w.owner {
      PhaseKeepsStored(w, task, Rendering, w.owner[w.tasks[task].lock := task]);
    }
  }

  lemma GiveUpKeepsInv(w: World, task: nat)
    requires Inv(w)
    ensures Inv(Step(w, GiveUp(task)))
  {
    if task in w.tasks && w.tasks[task].phase == Waiting { PhaseKeepsStored(w, task, Leaving, w.owner); }
  }

  lemma LeaveKeepsOwned(w: World, task: nat)
    requires Inv(w)
    ensures Owned(Step(w, Leave(task)))
  {
  }

  lemma LeaveKeepsInv(w: World, task: nat)
    requires Inv(w)
    ensures Inv(Step(w, Leave(task)))
  {
    if task in w.tasks && w.tasks[task].phase == Rendering {
      PhaseKeepsStored(w, task, Leaving, w.owner - {w.tasks[task].lock});
    }
    LeaveKeepsOwned(w, task);
  }

  lemma {:induction false} RunKeepsInv(actions: seq<Action>)
    ensures Inv(Run(actions))
  {
    if actions != [] {
      var before := actions[..|actions| - 1];
      RunKeepsInv(before);
      match actions[|actions| - 1] {
        case StartTask(task, symbol, now) => StartKeepsInv(Run(before), task, symbol, now);
        case Finish(task, now) => FinishKeepsInv(Run(before), task, now);
        case Collect(now) => CollectKeepsInv(Run(before), now);
        case Acquire(task) => AcquireKeepsInv(Run(before), task);
        case GiveUp(task) => GiveUpKeepsInv(Run(before), task);
        case Leave(task) => LeaveKeepsInv(Run(before), task);
      }
    } else {
      assert forall s: string :: Reservers(map[], s) == {};
    }
  }

  /** What each step does to the task that takes it, and when a lock counts as used. */
  lemma TaskMoves(w: World, task: nat, now: int)
    requires Inv(w) && task in w.tasks
    ensures var t := w.tasks[task];
            && (t.phase == Waiting ==>
                  && Step(w, GiveUp(task)).tasks == w.tasks[task := t.(phase := Leaving)]
                  && Step(w, GiveUp(task)).owner == w.owner
                  && (t.lock !in w.owner ==>
                        && Step(w, Acquire(task)).tasks == w.tasks[task := t.(phase := Rendering)]
                        && Step(w, Acquire(task)).owner == w.owner[t.lock := task])
                  && (t.lock in w.owner ==> Step(w, Acquire(task)) == w))
            && (t.phase == Rendering ==>
                  && Step(w, Leave(task)).tasks == w.tasks[task := t.(phase := Leaving)]
                  && Step(w, Leave(task)).owner == w.owner - {t.lock})
            && (t.phase == Leaving ==>
                  && Step(w, Finish(task, now)).tasks == w.tasks - {task}
                  && Step(w, Finish(task, now)).table.lastUsed == w.table.lastUsed[t.symbol := now]
                  && Step(w, Finish(task, now)).table.locks == w.table.locks)
  {
  }

  /** A new task waits with the symbol's lock, which is the stored one if there is one, and counts as used now. */
  lemma TaskStarts(w: World, task: nat, symbol: string, now: int)
    requires Inv(w) && task !in w.tasks
    ensures var t := Step(w, StartTask(task, symbol, now));
            && task in t.tasks && t.tasks[task].symbol == symbol && t.tasks[task].phase == Waiting
            && symbol in t.table.locks && t.tasks[task].lock == t.table.locks[symbol]
            && (symbol in w.table.locks ==> t.table.locks == w.table.locks)
            && (symbol !in w.table.locks ==> forall s <- w.table.locks :: w.table.locks[s] != t.table.locks[symbol])
            && t.table.lastUsed == w.table.lastUsed[symbol := now]
  {
  }

  /** A lock that is held is never collected, whatever the counts say. */
  lemma HeldIsNeverCollected(t: Table, held: set<nat>, now: int, symbol: string)
    requires symbol in t.locks && t.locks[symbol] in held
    ensures symbol in Cleanup(t, held, now).locks
  {
  }

  /**
   * In every interleaving: the reference count is the number of unreleased reservers, all of them hold the stored
   * lock object, every lock object has a last-used time and the other way round, and at most one task of a symbol
   * renders.
   */
  lemma LocksSurviveCollection(actions: seq<Action>, symbol: string)
    ensures var w := Run(actions);
            && Refs(w.table, symbol) == |Reservers(w.tasks, symbol)|
            && (symbol in w.table.refs <==> Reservers(w.tasks, symbol) != {})
            && (forall t <- Reservers(w.tasks, symbol) ::
              symbol in w.table.locks && w.tasks[t].lock == w.table.locks[symbol])
            && w.table.locks.Keys == w.table.lastUsed.Keys
            && (forall t, u | t in Reservers(w.tasks, symbol) && u in Reservers(w.tasks, symbol) ::
                  w.tasks[t].phase == Rendering && w.tasks[u].phase == Rendering ==> t == u)
  {
    RunKeepsInv(actions);
  }

  /**
   * A pass never fails, and it collects a lock object exactly when nobody has reserved it and its last use was four
   * hours ago or more: checking besides that it is not locked changes nothing.
   */
  lemma CollectedExactly(actions: seq<Action>, now: int, symbol: string)
    requires symbol in Run(actions).table.lastUsed
    ensures !CleanupFails(Run(actions).table, now)
    ensures symbol in Step(Run(actions), Collect(now)).table.locks
            <==> Reservers(Run(actions).tasks, symbol) != {} || now - Run(actions).table.lastUsed[symbol] < 4 * 3600
  {
    RunKeepsInv(actions);
    var w := Run(actions);
    if w.table.locks[symbol] in w.owner {
      ReservedIsCounted(w, w.owner[w.table.locks[symbol]]);
    }
  }

  /** Locks of different symbols are different objects: renders of one symbol never wait for another's. */
  lemma SymbolsDoNotShareLocks(actions: seq<Action>, t: nat, u: nat)
    requires t in Run(actions).tasks && u in Run(actions).tasks
    ensures Run(actions).tasks[t].lock == Run(actions).tasks[u].lock <==>
              Run(actions).tasks[t].symbol == Run(actions).tasks[u].symbol
  {
    RunKeepsInv(actions);
  }
}
