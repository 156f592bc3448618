/** The proxy machines as the readers and pollers see them: each one's clock and table, and the
    one step by which a row is recorded. One machine is one process lifetime. */
module Machines {
  import opened UsageIds
  import opened Rows
  import opened Ledger

  /** A machine's rows are in writing order and as a page shows them (id = cursor). */
  datatype Machine = Machine(name: string, clock: Clock, table: seq<UsageRow>)

  function NextCursor(c: Clock): int {
    c.Next() - EPOCH_MS * PER_MS
  }

  ghost predicate InTables(machines: seq<Machine>, r: UsageRow) {
    exists i :: 0 <= i < |machines| && r in machines[i].table
  }

  /** Tables are in id order below their clocks, rows say where they were written, and a usage_id
      names one row among all machines. */
  ghost predicate MachinesOk(machines: seq<Machine>) {
    && (forall i :: 0 <= i < |machines| ==> TableOk(machines[i].table, machines[i].clock))
    && (forall i, r :: 0 <= i < |machines| && r in machines[i].table ==> r.machineId == machines[i].name)
    && (forall i, j :: 0 <= i < j < |machines| ==> machines[i].name != machines[j].name)
    && (forall r, q :: InTables(machines, r) && InTables(machines, q) && r.usageId == q.usageId ==> r == q)
  }

  ghost predicate Booted(machines: seq<Machine>) {
    && (forall i :: 0 <= i < |machines| ==> machines[i].clock == BOOT && machines[i].table == [])
    && (forall i, j :: 0 <= i < j < |machines| ==> machines[i].name != machines[j].name)
  }

  /** Machine i makes the next id for a row. Ids never collide with another machine's: the 62
      random bits are taken to differ. */
  ghost predicate CanRecord(machines: seq<Machine>, i: nat, now: int, row: UsageRow) {
    && i < |machines| && row.machineId == machines[i].name
    && Stamp(row.usageId) == IdStamp(Tick(machines[i].clock, now))
    && (forall r :: InTables(machines, r) ==> r.usageId != row.usageId)
  }

  function Recorded(machines: seq<Machine>, i: nat, now: int, row: UsageRow): seq<Machine>
    requires i < |machines|
  {
    machines[i := machines[i].(clock := Tick(machines[i].clock, now), table := machines[i].table + [row])]
  }

  /** Machine i makes an id whose insert fails, or answers a floor. */
  function Clocked(machines: seq<Machine>, i: nat, call: Call): seq<Machine>
    requires i < |machines|
  {
    machines[i := machines[i].(clock := After(machines[i].clock, call))]
  }

  lemma TablesAfter(ms: seq<Machine>, i: nat, m: Machine, more: seq<UsageRow>, r: UsageRow)
    requires i < |ms| && m.table == ms[i].table + more
    ensures InTables(ms[i := m], r) <==> InTables(ms, r) || r in more
  {
    var t := ms[i := m];
    if k :| 0 <= k < |ms| && r in ms[k].table {
      assert r in t[k].table;
    }
    if r in more {
      assert r in t[i].table;
    }
    if k :| 0 <= k < |t| && r in t[k].table {
      assert r in more || r in ms[k].table;
    }
  }

  lemma RecordedTableOk(rows: seq<UsageRow>, c: Clock, now: int, row: UsageRow)
    requires TableOk(rows, c) && Stamp(row.usageId) == IdStamp(Tick(c, now))
    ensures TableOk(rows + [row], Tick(c, now)) && Tick(c, now).Next() >= c.Next() && Stamp(row.usageId) >= c.Next()
  {
    TickIsOneNumber(c, now);
  }

  lemma RecordedTables(ms: seq<Machine>, i: nat, now: int, row: UsageRow)
    requires i < |ms|
    ensures forall r :: InTables(Recorded(ms, i, now, row), r) <==> InTables(ms, r) || r == row
  {
    var t := Recorded(ms, i, now, row);
    forall r
      ensures InTables(t, r) <==> InTables(ms, r) || r == row
    {
      TablesAfter(ms, i, t[i], [row], r);
    }
  }

  /** Recording adds one row, above everything the machine could have handed out before. */
  lemma RecordingKeepsMachines(ms: seq<Machine>, i: nat, now: int, row: UsageRow)
    requires MachinesOk(ms) && CanRecord(ms, i, now, row)
    ensures MachinesOk(Recorded(ms, i, now, row))
    ensures forall r :: InTables(Recorded(ms, i, now, row), r) <==> InTables(ms, r) || r == row
    ensures Stamp(row.usageId) >= ms[i].clock.Next()
    ensures Recorded(ms, i, now, row)[i].clock.Next() >= ms[i].clock.Next()
  {
    RecordedTableOk(ms[i].table, ms[i].clock, now, row);
    RecordedTables(ms, i, now, row);
    var t := Recorded(ms, i, now, row);
    forall j, r | 0 <= j < |t| && r in t[j].table
      ensures r.machineId == t[j].name
    {
      assert j == i ==> r in ms[i].table || r == row;
    }
  }

  lemma ClockingKeepsMachines(ms: seq<Machine>, i: nat, call: Call)
    requires MachinesOk(ms) && i < |ms|
    ensures MachinesOk(Clocked(ms, i, call))
    ensures forall r :: InTables(Clocked(ms, i, call), r) <==> InTables(ms, r)
    ensures Clocked(ms, i, call)[i].clock.Next() >= ms[i].clock.Next()
  {
    TickIsOneNumber(ms[i].clock, call.now);
    FloorIsOneNumber(ms[i].clock, call.now);
    var t := Clocked(ms, i, call);
    forall r
      ensures InTables(t, r) <==> InTables(ms, r)
    {
      TablesAfter(ms, i, t[i], [], r);
    }
  }
}
