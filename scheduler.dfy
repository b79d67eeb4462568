/**
 * The fixed-period, multi-bus task scheduler (lib/Scheduler/Scheduler.hpp).
 *
 * Each of the NUM_MCP2515 buses owns a row of NUM_TASKS slots; a slot holds a task, its
 * interval in ticks and a countdown of the ticks left before it fires. The class keeps the
 * declared arrays and, as a ghost `table`, the populated prefix of every row as values; the
 * specification functions below are stated on that table.
 */
module Scheduler {
  import opened Words

  // ---------------------------------------------------------------------------------------
  // Slots and tables as values
  // ---------------------------------------------------------------------------------------

  /** One populated slot: the task, task_ticks (its interval) and task_counters (ticks left). */
  datatype Slot<T> = Slot(task: T, ticks: Byte, counter: Byte)

  /** Row `i` lists, in insertion order, the populated slots of bus `i`. */
  type Table<T> = seq<seq<Slot<T>>>

  /** A populated slot is enabled (interval at least 1) and at most one interval from firing. */
  predicate SlotOk<T>(s: Slot<T>)
  {
    1 <= s.counter <= s.ticks
  }

  /** Every row fits its `cap` slots and every slot is in range. */
  predicate WellFormed<T>(tbl: Table<T>, cap: nat)
  {
    forall i :: 0 <= i < |tbl| ==>
      |tbl[i]| <= cap && forall j :: 0 <= j < |tbl[i]| ==> SlotOk(tbl[i][j])
  }

  /** The slot's counter reaches zero on this tick. */
  predicate Due<T>(s: Slot<T>)
  {
    s.counter <= 1
  }

  /** One tick of one slot: count down, and on reaching zero fire and reload the interval. */
  function Tick<T>(s: Slot<T>): (r: Slot<T>)
    ensures r.task == s.task && r.ticks == s.ticks
    ensures SlotOk(s) ==> SlotOk(r)
    ensures SlotOk(s) ==> (Due(s) <==> r.counter == s.ticks)
  {
    if Due(s) then s.(counter := s.ticks) else s.(counter := s.counter - 1)
  }

  /**
   * The slots after one dispatch pass: every populated slot ticks once, in place, so the
   * rows keep their shape, tasks and intervals, and a well-formed table stays well-formed.
   */
  function TickTable<T>(tbl: Table<T>): (r: Table<T>)
    ensures |r| == |tbl| && forall i :: 0 <= i < |tbl| ==> |r[i]| == |tbl[i]|
    ensures forall i, j :: 0 <= i < |tbl| && 0 <= j < |tbl[i]| ==>
              r[i][j].task == tbl[i][j].task && r[i][j].ticks == tbl[i][j].ticks
    ensures forall cap: nat :: WellFormed(tbl, cap) ==> WellFormed(r, cap)
  {
    seq(|tbl|, i requires 0 <= i < |tbl| => seq(|tbl[i]|, j requires 0 <= j < |tbl[i]| => Tick(tbl[i][j])))
  }

  /**
   * The tasks due at slot index `j` of buses 0 .. n-1, bus by bus: at most one per bus.
   */
  function Column<T>(tbl: Table<T>, j: nat, n: nat): (r: seq<T>)
    requires n <= |tbl|
    ensures |r| <= n
    decreases n
  {
    if n == 0 then []
    else Column(tbl, j, n - 1) + (if j < |tbl[n - 1]| && Due(tbl[n - 1][j]) then [tbl[n - 1][j].task] else [])
  }

  /**
   * The tasks one dispatch pass runs among slot indices 0 .. w-1, in round-robin order: slot
   * 0 of every bus, then slot 1 of every bus, and so on, so that consecutive sends go to
   * different buses. It runs at most one task per slot index per bus: never more than one
   * full pass, however late the call.
   */
  function Pass<T>(tbl: Table<T>, w: nat): (r: seq<T>)
    ensures |r| <= |tbl| * w
    decreases w
  {
    if w == 0 then []
    else
      MulSucc(|tbl|, w - 1);
      Pass(tbl, w - 1) + Column(tbl, w - 1, |tbl|)
  }

  /** A task is in a column exactly when some bus has it due at that slot index. */
  lemma {:induction false} ColumnMembership<T>(tbl: Table<T>, j: nat, n: nat, t: T)
    requires n <= |tbl|
    ensures t in Column(tbl, j, n) <==>
            exists i :: 0 <= i < n && j < |tbl[i]| && Due(tbl[i][j]) && tbl[i][j].task == t
    decreases n
  {
    if n > 0 {
      ColumnMembership(tbl, j, n - 1, t);
    }
  }

  /** One pass runs a task exactly when some slot holding it is due. */
  lemma PassMembership<T>(tbl: Table<T>, w: nat, t: T)
    ensures t in Pass(tbl, w) <==>
            exists i, j :: 0 <= i < |tbl| && 0 <= j < w && j < |tbl[i]| && Due(tbl[i][j]) && tbl[i][j].task == t
  {
    PassColumns(tbl, w, t);
    if t in Pass(tbl, w) {
      var j :| 0 <= j < w && t in Column(tbl, j, |tbl|);
      ColumnMembership(tbl, j, |tbl|, t);
    } else {
      forall i, j | 0 <= i < |tbl| && 0 <= j < w && j < |tbl[i]| && Due(tbl[i][j])
        ensures tbl[i][j].task != t
      {
        ColumnMembership(tbl, j, |tbl|, t);
      }
    }
  }

  /** A task is in a pass exactly when it is in one of its columns. */
  lemma {:induction false} PassColumns<T>(tbl: Table<T>, w: nat, t: T)
    ensures t in Pass(tbl, w) <==> exists j :: 0 <= j < w && t in Column(tbl, j, |tbl|)
    decreases w
  {
    if w > 0 {
      PassColumns(tbl, w - 1, t);
      var prev, col := Pass(tbl, w - 1), Column(tbl, w - 1, |tbl|);
      assert Pass(tbl, w) == prev + col;
      if t in col {
        assert Column(tbl, w - 1, |tbl|) == col;
        assert exists j :: 0 <= j < w && t in Column(tbl, j, |tbl|);
      }
      if t in prev {
        var j :| 0 <= j < w - 1 && t in Column(tbl, j, |tbl|);
        assert 0 <= j < w;
      }
      if t !in prev + col {
        forall j | 0 <= j < w ensures t !in Column(tbl, j, |tbl|) {
          if j == w - 1 {
            assert Column(tbl, j, |tbl|) == col;
          }
        }
      }
    }
  }

  lemma MulSucc(a: nat, b: nat)
    ensures a * (b + 1) == a * b + a
  {
  }

  /** `k` ticks of one slot. */
  function TickN<T>(s: Slot<T>, k: nat): Slot<T>
    decreases k
  {
    if k == 0 then s else Tick(TickN(s, k - 1))
  }

  /** `a` ticks and then `b` more are `a + b` ticks. */
  lemma {:induction false} TickNAdd<T>(s: Slot<T>, a: nat, b: nat)
    ensures TickN(s, a + b) == TickN(TickN(s, a), b)
    decreases b
  {
    if b > 0 {
      TickNAdd(s, a, b - 1);
    }
  }

  /** Before it fires, each tick takes one off the counter. */
  lemma {:induction false} CountsDown<T>(s: Slot<T>, k: nat)
    requires SlotOk(s) && k < s.counter
    ensures TickN(s, k) == s.(counter := s.counter - k)
    decreases k
  {
    if k > 0 {
      CountsDown(s, k - 1);
    }
  }

  /**
   * A slot with `c` ticks left fires on the c-th tick and on none before it, and is then
   * re-armed with its full interval.
   */
  lemma FiresAfterCounter<T>(s: Slot<T>, k: nat)
    requires SlotOk(s) && k < s.counter
    ensures Due(TickN(s, k)) <==> k == s.counter - 1
    ensures k == s.counter - 1 ==> TickN(s, k + 1) == s.(counter := s.ticks)
  {
    CountsDown(s, k);
  }

  /**
   * A task added with interval `t` (counter == ticks == t) fires on ticks t, 2t, 3t, ... and
   * on no others: never more than once per configured interval, and first only after a
   * full interval.
   */
  lemma {:induction false} FiresEveryInterval<T>(task: T, t: Byte, k: nat)
    requires t >= 1
    ensures Due(TickN(Slot(task, t, t), k)) <==> (k + 1) % t == 0
    decreases k
  {
    var s := Slot(task, t, t);
    if k >= t {
      FiresAfterCounter(s, t - 1);
      TickNAdd(s, t, k - t);
      FiresEveryInterval(task, t, k - t);
      ModShift(k + 1, t);
    } else {
      FiresAfterCounter(s, k);
      SmallMod(k + 1, t);
    }
  }

  lemma ModShift(a: int, d: int)
    requires d > 0
    ensures a % d == (a - d) % d
  {
    var q, r := (a - d) / d, (a - d) % d;
    assert a == (q + 1) * d + r;
    ModUnique(a, d, q + 1, r);
  }

  /** The remainder is the unique r in [0, d) with a == q * d + r. */
  lemma ModUnique(a: int, d: int, q: int, r: int)
    requires d > 0 && 0 <= r < d && a == q * d + r
    ensures a % d == r
  {
    var q', r' := a / d, a % d;
    assert a == q' * d + r';
    var m := q - q';
    assert m * d == r' - r by {
      assert q * d - q' * d == (q - q') * d;
    }
    if m >= 1 {
      MulAtLeast(m, d);
    } else if m <= -1 {
      MulAtLeast(-m, d);
    }
  }

  lemma {:induction false} MulAtLeast(m: int, d: int)
    requires m >= 1 && d > 0
    ensures m * d >= d
    decreases m
  {
    if m > 1 {
      MulAtLeast(m - 1, d);
      assert m * d == (m - 1) * d + d;
    }
  }

  lemma SmallMod(a: int, d: int)
    requires 0 < a <= d
    ensures a % d == 0 <==> a == d
  {
  }

  // ---------------------------------------------------------------------------------------
  // addTask / removeTask as values
  // ---------------------------------------------------------------------------------------

  /** The index of the first slot of a row holding `task`, or -1. */
  function Find<T(==)>(row: seq<Slot<T>>, task: T): (r: int)
    ensures -1 <= r < |row|
    ensures 0 <= r ==> row[r].task == task && forall k :: 0 <= k < r ==> row[k].task != task
    ensures r == -1 <==> forall k :: 0 <= k < |row| ==> row[k].task != task
    decreases |row|
  {
    if row == [] then -1
    else if row[0].task == task then 0
    else
      var r := Find(row[1..], task);
      if r < 0 then -1 else r + 1
  }

  /**
   * addTask: an interval of 0 fails; a task already on the bus gets the new interval and a
   * full countdown in place; otherwise the task is appended if the bus has a free slot, and
   * the call fails on a full bus. A failed call changes nothing.
   */
  function AddSpec<T(==)>(tbl: Table<T>, cap: nat, bus: nat, task: T, interval: Byte): (r: (Table<T>, bool))
    requires bus < |tbl|
    ensures r.1 <==> interval != 0 && (Find(tbl[bus], task) >= 0 || |tbl[bus]| < cap)
    ensures !r.1 ==> r.0 == tbl
    ensures |r.0| == |tbl| && forall i :: 0 <= i < |tbl| && i != bus ==> r.0[i] == tbl[i]
    ensures WellFormed(tbl, cap) ==> WellFormed(r.0, cap)
    ensures r.1 ==> exists j :: 0 <= j < |r.0[bus]| && r.0[bus][j] == Slot(task, interval, interval)
    // a new task goes after the slots already on the bus; a present one is re-armed in its own slot
    ensures r.1 && Find(tbl[bus], task) < 0 ==> r.0[bus] == tbl[bus] + [Slot(task, interval, interval)]
    ensures r.1 && Find(tbl[bus], task) >= 0 ==>
              r.0[bus] == tbl[bus][Find(tbl[bus], task) := Slot(task, interval, interval)]
  {
    if interval == 0 then (tbl, false)
    else
      var k := Find(tbl[bus], task);
      if k >= 0 then
        assert tbl[bus][k := Slot(task, interval, interval)][k] == Slot(task, interval, interval);
        (tbl[bus := tbl[bus][k := Slot(task, interval, interval)]], true)
      else if |tbl[bus]| < cap then
        var row := tbl[bus] + [Slot(task, interval, interval)];
        assert row[|tbl[bus]|] == Slot(task, interval, interval);
        (tbl[bus := row], true)
      else (tbl, false)
  }

  /**
   * removeTask: the first slot holding `task` is removed and the later slots move up one
   * place, keeping their order; a task that is not on the bus fails and changes nothing.
   */
  function RemoveSpec<T(==)>(tbl: Table<T>, bus: nat, task: T): (r: (Table<T>, bool))
    requires bus < |tbl|
    ensures r.1 <==> exists j :: 0 <= j < |tbl[bus]| && tbl[bus][j].task == task
    ensures !r.1 ==> r.0 == tbl
    ensures |r.0| == |tbl| && forall i :: 0 <= i < |tbl| && i != bus ==> r.0[i] == tbl[i]
    ensures r.1 ==> |r.0[bus]| == |tbl[bus]| - 1
    // the first slot holding the task goes; the slots before it stay, the slots after it move up
    ensures r.1 ==> var k := Find(tbl[bus], task);
              && (forall j :: 0 <= j < k ==> r.0[bus][j] == tbl[bus][j])
              && (forall j :: k < j < |tbl[bus]| ==> r.0[bus][j - 1] == tbl[bus][j])
    ensures forall cap: nat :: WellFormed(tbl, cap) ==> WellFormed(r.0, cap)
  {
    var k := Find(tbl[bus], task);
    if k < 0 then (tbl, false)
    else (tbl[bus := tbl[bus][..k] + tbl[bus][k + 1..]], true)
  }

  /** Removing a task right after adding it to a bus that did not hold it restores the table. */
  lemma RemoveUndoesAdd<T>(tbl: Table<T>, cap: nat, bus: nat, task: T, interval: Byte)
    requires bus < |tbl| && Find(tbl[bus], task) < 0 && |tbl[bus]| < cap && interval != 0
    ensures AddSpec(tbl, cap, bus, task, interval).1
    ensures RemoveSpec(AddSpec(tbl, cap, bus, task, interval).0, bus, task) == (tbl, true)
  {
    var row := tbl[bus] + [Slot(task, interval, interval)];
    var r := Find(row, task);
    assert row[|tbl[bus]|].task == task;
    assert r == |tbl[bus]|;
    var added := tbl[bus := row];
    assert AddSpec(tbl, cap, bus, task, interval) == (added, true);
    assert added[bus] == row;
    assert row[..r] + row[r + 1..] == tbl[bus];
    assert added[bus := tbl[bus]] == tbl;
  }

  /** Adding a task again only re-arms it: the row keeps its length and order. */
  lemma ReAddKeepsRow<T>(tbl: Table<T>, cap: nat, bus: nat, task: T, interval: Byte)
    requires bus < |tbl| && Find(tbl[bus], task) >= 0 && interval != 0
    ensures var r := AddSpec(tbl, cap, bus, task, interval).0;
            |r[bus]| == |tbl[bus]| &&
            forall j :: 0 <= j < |tbl[bus]| ==> r[bus][j].task == tbl[bus][j].task
  {
  }

  // ---------------------------------------------------------------------------------------
  // Timing
  // ---------------------------------------------------------------------------------------

  /**
   * update's decision: wait (return at once) while the next tick is at least `spin` away,
   * otherwise fire (after spin-waiting the remaining time if the tick is not yet due).
   */
  predicate ShouldFire(period: U32, spin: U32, last: U32, now: U32)
    // a tick that is due always fires
    ensures Sub32(now, last) >= period ==> ShouldFire(period, spin, last, now)
    // without a spin window it fires exactly when due
    ensures spin == 0 ==> (ShouldFire(period, spin, last, now) <==> Sub32(now, last) >= period)
  {
    var elapsed := Sub32(now, last);
    elapsed >= period || period - elapsed < spin
  }

  /**
   * last_fire_us after a firing: advanced by whole periods, so the ticks stay phase-locked to
   * a virtual clock. A firing after a spin-wait or at most one period late advances exactly
   * one period; after a longer stall it skips to the last tick boundary before `now`, so
   * the next call does not fire again at once.
   */
  function NextFire(period: U32, last: U32, now: U32): (r: U32)
    requires period > 0
    ensures Sub32(now, last) < 2 * period ==> Sub32(r, last) == period
    ensures Sub32(now, last) >= period ==> Sub32(r, last) <= Sub32(now, last)
    ensures Sub32(now, last) >= period ==> Sub32(now, r) == Sub32(now, last) % period < period
  {
    var elapsed := Sub32(now, last);
    if elapsed >= period then
      StallRemainder(elapsed, period);
      // the largest multiple of the period not above `elapsed`
      var skip := elapsed - elapsed % period;
      SubAfterAdd(last, now, skip);
      Add32(last, skip)
    else Add32(last, period)
  }

  /** The remainder a stall leaves: below one period, and `e - p` when less than two periods passed. */
  lemma StallRemainder(e: nat, p: nat)
    requires 0 < p <= e
    ensures 0 <= e % p < p && e % p <= e
    ensures e < 2 * p ==> e % p == e - p
  {
    if e < 2 * p {
      ModUnique(e, p, 1, e - p);
    }
  }

  /** Advancing `last` by d <= now - last leaves now - (last + d) == (now - last) - d. */
  lemma SubAfterAdd(last: U32, now: U32, d: nat)
    requires d <= Sub32(now, last)
    ensures Sub32(now, Add32(last, d)) == Sub32(now, last) - d
  {
  }

  // ---------------------------------------------------------------------------------------
  // The Scheduler object
  // ---------------------------------------------------------------------------------------

  class Scheduler<T(==,0)> {
    const numBuses: Byte   // NUM_MCP2515
    const numTasks: Byte   // NUM_TASKS
    const tasks: array2<T>
    const taskTicks: array2<Byte>
    const taskCounters: array2<Byte>
    const taskCnt: array<Byte>
    const periodUs: U32
    const spinUs: U32
    var lastFireUs: U32
    /** The populated slots of the arrays, as values. */
    ghost var table: Table<T>

    ghost predicate Valid()
      reads this, tasks, taskTicks, taskCounters, taskCnt
    {
      && 0 < periodUs
      && tasks.Length0 == taskTicks.Length0 == taskCounters.Length0 == taskCnt.Length == numBuses as int
      && tasks.Length1 == taskTicks.Length1 == taskCounters.Length1 == numTasks as int
      && taskTicks != taskCounters
      && tasks as object != taskTicks as object && tasks as object != taskCounters as object
      && |table| == numBuses as int
      && WellFormed(table, numTasks as int)
      && (forall i :: 0 <= i < numBuses as int ==> |table[i]| == taskCnt[i] as int)
      && (forall i, j :: 0 <= i < numBuses as int && 0 <= j < taskCnt[i] as int ==>
            table[i][j] == Slot(tasks[i, j], taskTicks[i, j], taskCounters[i, j]))
      // an unpopulated slot is disabled
      && (forall i, j :: 0 <= i < numBuses as int && taskCnt[i] as int <= j < numTasks as int ==> taskTicks[i, j] == 0)
    }

    /** Scheduler::Scheduler: every slot empty, the first tick one period after `now`. */
    constructor (numBuses: Byte, numTasks: Byte, periodUs: U32, spinUs: U32, now: U32)
      requires periodUs > 0
      ensures Valid() && fresh(tasks) && fresh(taskTicks) && fresh(taskCounters) && fresh(taskCnt)
      ensures this.numBuses == numBuses && this.numTasks == numTasks
      ensures this.periodUs == periodUs && this.spinUs == spinUs && lastFireUs == now
      ensures table == seq(numBuses as int, _ => [])
    {
      this.numBuses := numBuses;
      this.numTasks := numTasks;
      this.periodUs := periodUs;
      this.spinUs := spinUs;
      tasks := new T[numBuses, numTasks];
      taskTicks := new Byte[numBuses, numTasks]((_, _) => 0);
      taskCounters := new Byte[numBuses, numTasks]((_, _) => 0);
      taskCnt := new Byte[numBuses](_ => 0);
      lastFireUs := now;
      table := seq(numBuses as int, _ => []);
    }

    /** getPeriodUs: the period fixed at construction, a constant of the object. */
    function GetPeriodUs(): (r: U32)
      ensures r == periodUs
    {
      periodUs
    }

    /** cyclesNeeded: the number of whole periods in `intervalUs`, rounded down. */
    function CyclesNeeded(intervalUs: U32): (r: U32)
      requires periodUs > 0
      ensures r * periodUs <= intervalUs < (r + 1) * periodUs
    {
      intervalUs / periodUs
    }

    /** The first slot of bus `bus` holding `task`, or -1. */
    method FindSlot(bus: Byte, task: T) returns (k: int)
      requires Valid() && bus < numBuses
      ensures k == Find(table[bus], task)
    {
      k := 0;
      while k < taskCnt[bus] as int
        invariant 0 <= k <= taskCnt[bus] as int
        invariant forall m :: 0 <= m < k ==> table[bus][m].task != task
      {
        if tasks[bus, k] == task {
          return;
        }
        k := k + 1;
      }
      k := -1;
    }

    /** Scheduler::addTask. */
    method AddTask(bus: Byte, task: T, interval: Byte) returns (ok: bool)
      requires Valid() && bus < numBuses
      modifies this`table, tasks, taskTicks, taskCounters, taskCnt
      ensures Valid()
      ensures (table, ok) == AddSpec(old(table), numTasks as int, bus as int, task, interval)
    {
      if interval == 0 {
        return false;
      }
      var k := FindSlot(bus, task);
      if k >= 0 {
        Rearm(bus as int, k, interval);
        return true;
      }
      if taskCnt[bus] >= numTasks {
        return false;
      }
      Append(bus as int, task, interval);
      ok := true;
    }

    /** Gives slot `k` of `bus` a new interval and a full countdown. */
    method Rearm(bus: int, k: int, interval: Byte)
      requires Valid() && 0 <= bus < numBuses as int && 0 <= k < taskCnt[bus] as int && interval != 0
      modifies this`table, taskTicks, taskCounters
      ensures Valid()
      ensures table == old(table)[bus := old(table)[bus][k := Slot(old(table)[bus][k].task, interval, interval)]]
    {
      taskTicks[bus, k] := interval;
      taskCounters[bus, k] := interval;
      table := table[bus := table[bus][k := Slot(table[bus][k].task, interval, interval)]];
    }

    /** Puts `task` in the first free slot of `bus`. */
    method Append(bus: int, task: T, interval: Byte)
      requires Valid() && 0 <= bus < numBuses as int && taskCnt[bus] < numTasks && interval != 0
      modifies this`table, tasks, taskTicks, taskCounters, taskCnt
      ensures Valid()
      ensures table == old(table)[bus := old(table)[bus] + [Slot(task, interval, interval)]]
    {
      var n := taskCnt[bus];
      tasks[bus, n] := task;
      taskTicks[bus, n] := interval;
      taskCounters[bus, n] := interval;
      taskCnt[bus] := n + 1;
      table := table[bus := table[bus] + [Slot(task, interval, interval)]];
    }

    /** Scheduler::removeTask. */
    method RemoveTask(bus: Byte, task: T) returns (ok: bool)
      requires Valid() && bus < numBuses
      modifies this`table, tasks, taskTicks, taskCounters, taskCnt
      ensures Valid()
      ensures (table, ok) == RemoveSpec(old(table), bus as int, task)
    {
      var k := FindSlot(bus, task);
      if k < 0 {
        return false;
      }
      RemoveAt(bus as int, k);
      ok := true;
    }

    /** Removes slot `k` of `bus`: the later slots move up and the last one is disabled. */
    method RemoveAt(bus: int, k: int)
      requires Valid() && 0 <= bus < numBuses as int && 0 <= k < taskCnt[bus] as int
      modifies this`table, tasks, taskTicks, taskCounters, taskCnt
      ensures Valid()
      ensures table == old(table)[bus := old(table)[bus][..k] + old(table)[bus][k + 1..]]
    {
      var n := taskCnt[bus] as int;
      ghost var row := table[bus][..k] + table[bus][k + 1..];
      assert forall m :: 0 <= m < k ==> row[m] == table[bus][m];
      assert forall m :: k <= m < n - 1 ==> row[m] == table[bus][m + 1];
      ShiftDown(bus, k);
      taskTicks[bus, n - 1] := 0;
      taskCounters[bus, n - 1] := 0;
      taskCnt[bus] := (n - 1) as Byte;
      table := table[bus := row];
      assert forall m :: 0 <= m < n - 1 ==> row[m] == Slot(tasks[bus, m], taskTicks[bus, m], taskCounters[bus, m]);
    }

    /** The slots of `bus` after slot `k` each move up one place; nothing else changes. */
    method ShiftDown(bus: int, k: int)
      requires Valid() && 0 <= bus < numBuses as int && 0 <= k < taskCnt[bus] as int
      modifies tasks, taskTicks, taskCounters
      ensures forall i, m :: 0 <= i < numBuses as int && i != bus && 0 <= m < numTasks as int ==>
                tasks[i, m] == old(tasks[i, m]) && taskTicks[i, m] == old(taskTicks[i, m]) &&
                taskCounters[i, m] == old(taskCounters[i, m])
      ensures forall m :: taskCnt[bus] as int <= m < numTasks as int ==> taskTicks[bus, m] == old(taskTicks[bus, m])
      ensures forall m :: 0 <= m < k ==> table[bus][m] == Slot(tasks[bus, m], taskTicks[bus, m], taskCounters[bus, m])
      ensures forall m :: k <= m < taskCnt[bus] as int - 1 ==>
                table[bus][m + 1] == Slot(tasks[bus, m], taskTicks[bus, m], taskCounters[bus, m])
    {
      var n := taskCnt[bus] as int;
      var j := k;
      while j < n - 1
        invariant k <= j <= n - 1
        invariant forall i, m :: 0 <= i < numBuses as int && i != bus && 0 <= m < numTasks as int ==>
                    tasks[i, m] == old(tasks[i, m]) && taskTicks[i, m] == old(taskTicks[i, m]) &&
                    taskCounters[i, m] == old(taskCounters[i, m])
        invariant forall m :: n <= m < numTasks as int ==> taskTicks[bus, m] == old(taskTicks[bus, m])
        invariant forall m :: 0 <= m < k ==> table[bus][m] == Slot(tasks[bus, m], taskTicks[bus, m], taskCounters[bus, m])
        invariant forall m :: k <= m < j ==> table[bus][m + 1] == Slot(tasks[bus, m], taskTicks[bus, m], taskCounters[bus, m])
        invariant forall m :: j <= m < n ==> table[bus][m] == Slot(tasks[bus, m], taskTicks[bus, m], taskCounters[bus, m])
      {
        tasks[bus, j] := tasks[bus, j + 1];
        taskTicks[bus, j] := taskTicks[bus, j + 1];
        taskCounters[bus, j] := taskCounters[bus, j + 1];
        j := j + 1;
      }
    }

    /**
     * Scheduler::update at time `now`. Returns the tasks fired, in the order they run; a call
     * that does not fire changes nothing.
     */
    method Update(now: U32) returns (fired: seq<T>)
      requires Valid()
      modifies this`table, this`lastFireUs, taskCounters
      ensures Valid()
      ensures if ShouldFire(periodUs, spinUs, old(lastFireUs), now) then
                && fired == Pass(old(table), numTasks as int)
                && table == TickTable(old(table))
                && lastFireUs == NextFire(periodUs, old(lastFireUs), now)
              else
                fired == [] && table == old(table) && lastFireUs == old(lastFireUs)
    {
      if !ShouldFire(periodUs, spinUs, lastFireUs, now) {
        return [];
      }
      fired := RunTasks();
      lastFireUs := NextFire(periodUs, lastFireUs, now);
    }

    /** One slot of a dispatch pass: count down, and report whether the task fires. */
    method TickSlot(i: int, j: int) returns (fire: bool)
      requires Valid() && 0 <= i < numBuses as int && 0 <= j < taskCnt[i] as int
      modifies this`table, taskCounters
      ensures Valid()
      ensures table == old(table)[i := old(table)[i][j := Tick(old(table)[i][j])]]
      ensures fire <==> Due(old(table)[i][j])
    {
      var c := taskCounters[i, j];
      fire := c <= 1;
      if fire {
        taskCounters[i, j] := taskTicks[i, j];
      } else {
        taskCounters[i, j] := c - 1;
      }
      table := table[i := table[i][j := Tick(table[i][j])]];
    }

    /** Scheduler::runTasks: one dispatch pass over every populated slot. */
    method RunTasks() returns (fired: seq<T>)
      requires Valid()
      modifies this`table, taskCounters
      ensures Valid()
      ensures fired == Pass(old(table), numTasks as int) && table == TickTable(old(table))
    {
      ghost var t0 := table;
      fired := [];
      var j := 0;
      while j < numTasks as int
        invariant 0 <= j <= numTasks as int
        invariant Valid()
        invariant fired == Pass(t0, j)
        invariant |table| == |t0| && forall i :: 0 <= i < |t0| ==> |table[i]| == |t0[i]|
        invariant forall i, k :: 0 <= i < |t0| && 0 <= k < |t0[i]| ==>
                    table[i][k] == if k < j then Tick(t0[i][k]) else t0[i][k]
      {
        var column := RunColumn(j, t0);
        fired := fired + column;
        j := j + 1;
      }
      assert forall i :: 0 <= i < |t0| ==> table[i] == TickTable(t0)[i];
    }

    /** Slot `j` of every bus, bus by bus, with the slots before `j` already ticked. */
    method RunColumn(j: int, ghost t0: Table<T>) returns (fired: seq<T>)
      requires Valid() && 0 <= j < numTasks as int
      requires |table| == |t0| && forall i :: 0 <= i < |t0| ==> |table[i]| == |t0[i]|
      requires forall i, k :: 0 <= i < |t0| && 0 <= k < |t0[i]| ==>
                 table[i][k] == if k < j then Tick(t0[i][k]) else t0[i][k]
      modifies this`table, taskCounters
      ensures Valid()
      ensures fired == Column(t0, j, |t0|)
      ensures |table| == |t0| && forall i :: 0 <= i < |t0| ==> |table[i]| == |t0[i]|
      ensures forall i, k :: 0 <= i < |t0| && 0 <= k < |t0[i]| ==>
                table[i][k] == if k <= j then Tick(t0[i][k]) else t0[i][k]
    {
      fired := [];
      var i := 0;
      while i < numBuses as int
        invariant 0 <= i <= numBuses as int
        invariant Valid()
        invariant fired == Column(t0, j, i)
        invariant |table| == |t0| && forall i' :: 0 <= i' < |t0| ==> |table[i']| == |t0[i']|
        invariant forall i', k :: 0 <= i' < |t0| && 0 <= k < |t0[i']| ==>
                    table[i'][k] == if k < j || (k == j && i' < i) then Tick(t0[i'][k]) else t0[i'][k]
      {
        if j < taskCnt[i] as int {
          assert table[i][j] == t0[i][j];
          var task := tasks[i, j];
          var fire := TickSlot(i, j);
          if fire {
            fired := fired + [task];
          }
          assert fired == Column(t0, j, i + 1);
        } else {
          assert |t0[i]| <= j;
        }
        i := i + 1;
      }
    }

    /** Scheduler::synchronize: re-arm the phase at `now`, e.g. after a long blocking call. */
    method Synchronize(now: U32)
      modifies this`lastFireUs
      ensures lastFireUs == now
    {
      lastFireUs := now;
    }
  }
}
