/**
 What one durable object's SQLite file holds, and what a dispatched method body
 does to it. A body is an arbitrary finite list of operations; it may create and
 drop tables, write and delete rows, arm the object's alarm, and (as workflow
 bodies do) commit and reopen the transaction in the middle.
 */
module ObjectContent {
  import opened Prelude

  /** One arming of the object's alarm. `serial` names the execution of
      `set_alarm` that produced it; it exists only to tell equal payloads apart. */
  datatype Alarm = Alarm(dueMs: int, className: string, name: string, ownKey: string, serial: nat)

  type Rows = map<string, string>

  /** `alarms` is the reserved `__actias_alarm` table, which script SQL cannot reach. */
  datatype Content = Content(tables: map<string, Rows>, alarms: seq<Alarm>)

  datatype Op =
    | CreateTable(table: string)
    | DropTable(table: string)
    | Put(table: string, key: string, value: string)
    | Delete(table: string, key: string)
    | SetAlarm(alarm: Alarm)
    | Barrier // commit, then begin again

  function ApplyOp(c: Content, op: Op): Content {
    match op
    case CreateTable(t) => if t in c.tables then c else c.(tables := c.tables[t := map[]])
    case DropTable(t) => c.(tables := c.tables - {t})
    case Put(t, k, v) => if t in c.tables then c.(tables := c.tables[t := c.tables[t][k := v]]) else c
    case Delete(t, k) => if t in c.tables then c.(tables := c.tables[t := c.tables[t] - {k}]) else c
    case SetAlarm(a) => c.(alarms := [a])
    case Barrier => c
  }

  /** How far one operation moves SQLite's `total_changes`: rows inserted, updated
      or deleted. Schema statements count nothing, even a drop that discards rows. */
  function Changes(c: Content, op: Op): nat {
    match op
    case CreateTable(_) => 0
    case DropTable(_) => 0
    case Put(t, _, _) => if t in c.tables then 1 else 0
    case Delete(t, k) => if t in c.tables && k in c.tables[t] then 1 else 0
    case SetAlarm(_) => |c.alarms| + 1
    case Barrier => 0
  }

  function ApplyAll(c: Content, ops: seq<Op>): Content {
    if ops == [] then c
    else ApplyOp(ApplyAll(c, ops[..|ops| - 1]), ops[|ops| - 1])
  }

  function ChangesAll(c: Content, ops: seq<Op>): nat {
    if ops == [] then 0
    else ChangesAll(c, ops[..|ops| - 1]) + Changes(ApplyAll(c, ops[..|ops| - 1]), ops[|ops| - 1])
  }

  /** The part of a body that survives its failure: everything up to its last barrier. */
  function BarrierPrefix(ops: seq<Op>): (kept: seq<Op>)
    ensures kept <= ops
    ensures kept != [] ==> kept[|kept| - 1] == Barrier
    ensures Barrier !in ops[|kept|..]
  {
    if ops == [] then []
    else if ops[|ops| - 1] == Barrier then ops
    else BarrierPrefix(ops[..|ops| - 1])
  }

  predicate IsDdl(op: Op) {
    op.CreateTable? || op.DropTable?
  }

  predicate HasDdl(ops: seq<Op>) {
    exists i :: 0 <= i < |ops| && IsDdl(ops[i])
  }

  /** The alarm a list of operations leaves armed, if it arms any. */
  function LastArming(ops: seq<Op>): Option<Alarm> {
    if ops == [] then None
    else if ops[|ops| - 1].SetAlarm? then Some(ops[|ops| - 1].alarm)
    else LastArming(ops[..|ops| - 1])
  }

  function Serials(ops: seq<Op>): set<nat> {
    set i | 0 <= i < |ops| && ops[i].SetAlarm? :: ops[i].alarm.serial
  }

  lemma ApplyAllStep(c: Content, ops: seq<Op>, n: nat)
    requires n < |ops|
    ensures ApplyAll(c, ops[..n + 1]) == ApplyOp(ApplyAll(c, ops[..n]), ops[n])
    ensures ChangesAll(c, ops[..n + 1]) == ChangesAll(c, ops[..n]) + Changes(ApplyAll(c, ops[..n]), ops[n])
    ensures BarrierPrefix(ops[..n + 1]) == if ops[n] == Barrier then ops[..n + 1] else BarrierPrefix(ops[..n])
    ensures LastArming(ops[..n + 1]) == if ops[n].SetAlarm? then Some(ops[n].alarm) else LastArming(ops[..n])
  {
    assert ops[..n + 1][..n] == ops[..n];
  }

  /** A body never leaves more than one alarm row, and the row it leaves is its last arming. */
  lemma {:induction false} ApplyAllAlarms(c: Content, ops: seq<Op>)
    ensures ApplyAll(c, ops).alarms ==
            match LastArming(ops) { case Some(a) => [a] case None => c.alarms }
  {
    if ops != [] {
      ApplyAllAlarms(c, ops[..|ops| - 1]);
    }
  }

  /** Operations the counter does not see leave the content as it was, unless they are DDL. */
  lemma {:induction false} UncountedIsIdentity(c: Content, ops: seq<Op>)
    requires ChangesAll(c, ops) == 0 && !HasDdl(ops)
    ensures ApplyAll(c, ops) == c
  {
    if ops != [] {
      var front := ops[..|ops| - 1];
      assert !HasDdl(front) by {
        assert forall i :: 0 <= i < |front| ==> front[i] == ops[i];
      }
      UncountedIsIdentity(c, front);
      QuietOpIsIdentity(c, ops[|ops| - 1]);
    }
  }

  lemma QuietOpIsIdentity(c: Content, op: Op)
    requires Changes(c, op) == 0 && !IsDdl(op)
    ensures ApplyOp(c, op) == c
  {
    if op.Delete? && op.table in c.tables {
      assert c.tables[op.table] - {op.key} == c.tables[op.table];
      assert c.tables[op.table := c.tables[op.table]] == c.tables;
    }
  }

  lemma {:induction false} LastArmingSerial(ops: seq<Op>)
    ensures LastArming(ops).Some? ==>
              SetAlarm(LastArming(ops).value) in ops && LastArming(ops).value.serial in Serials(ops)
  {
    if ops != [] {
      var front := ops[..|ops| - 1];
      LastArmingSerial(front);
      assert ops == front + [ops[|ops| - 1]];
      if LastArming(front).Some? && !ops[|ops| - 1].SetAlarm? {
        var i :| 0 <= i < |front| && front[i] == SetAlarm(LastArming(front).value);
        assert ops[i] == front[i];
      }
      if ops[|ops| - 1].SetAlarm? {
        assert ops[|ops| - 1].alarm.serial in Serials(ops);
      }
    }
  }

  // ---- What operations mean, cell by cell -------------------------------------------------

  function Cell(c: Content, table: string, key: string): Option<string> {
    if table in c.tables && key in c.tables[table] then Some(c.tables[table][key]) else None
  }

  /** The operation is about this cell: it writes or deletes it, or drops its table. */
  predicate Concerns(op: Op, table: string, key: string) {
    match op
    case Put(t, k, _) => t == table && k == key
    case Delete(t, k) => t == table && k == key
    case DropTable(t) => t == table
    case _ => false
  }

  /**
   One statement does what it says to its own cell and table, counts the rows it affects, and
   leaves every other cell, table and alarm row alone.
   */
  lemma OpMeaning(c: Content, op: Op, table: string, key: string)
    ensures var c' := ApplyOp(c, op);
            && (!Concerns(op, table, key) ==> Cell(c', table, key) == Cell(c, table, key))
            && (op.Put? && Concerns(op, table, key) ==>
                  Cell(c', table, key) == if table in c.tables then Some(op.value) else None)
            && (op.Delete? && Concerns(op, table, key) ==> Cell(c', table, key) == None)
            && (op == DropTable(table) ==> Cell(c', table, key) == None)
            && (table in c'.tables <==> op == CreateTable(table) || (table in c.tables && op != DropTable(table)))
            && c'.alarms == (if op.SetAlarm? then [op.alarm] else c.alarms)
    ensures Changes(c, op) ==
            match op
            case Put(t, _, _) => (if t in c.tables then 1 else 0)
            case Delete(t, k) => (if Cell(c, t, k).Some? then 1 else 0)
            case SetAlarm(_) => |c.alarms| + 1
            case _ => 0
  {
  }

  /** Cells, table names and alarm rows are all there is. */
  lemma CellsAreContent(c: Content, d: Content)
    requires forall t, k :: Cell(c, t, k) == Cell(d, t, k)
    requires c.tables.Keys == d.tables.Keys && c.alarms == d.alarms
    ensures c == d
  {
    forall t | t in c.tables ensures c.tables[t] == d.tables[t] {
      forall k ensures k in c.tables[t] <==> k in d.tables[t] {
        assert Cell(c, t, k) == Cell(d, t, k);
      }
      forall k | k in c.tables[t] ensures c.tables[t][k] == d.tables[t][k] {
        assert Cell(c, t, k) == Cell(d, t, k);
      }
    }
    assert c.tables == d.tables;
  }

  /** Whether a table is there after a list of operations: the last creation or drop of it decides. */
  predicate TableLeft(before: bool, ops: seq<Op>, table: string) {
    if ops == [] then before
    else if ops[|ops| - 1] == CreateTable(table) then true
    else if ops[|ops| - 1] == DropTable(table) then false
    else TableLeft(before, ops[..|ops| - 1], table)
  }

  /** What a cell holds after a list of operations: what the last one about it left. A write into a
      table that is not there by then leaves nothing. */
  function CellLeft(before: Option<string>, there: bool, ops: seq<Op>, table: string, key: string): Option<string> {
    if ops == [] then before
    else
      var front, op := ops[..|ops| - 1], ops[|ops| - 1];
      if !Concerns(op, table, key) then CellLeft(before, there, front, table, key)
      else if op.Put? && TableLeft(there, front, table) then Some(op.value)
      else None
  }

  /** A body leaves in every cell what the last operation about that cell says. */
  lemma {:induction false} BodyMeaning(c: Content, ops: seq<Op>, table: string, key: string)
    ensures Cell(ApplyAll(c, ops), table, key) == CellLeft(Cell(c, table, key), table in c.tables, ops, table, key)
    ensures table in ApplyAll(c, ops).tables <==> TableLeft(table in c.tables, ops, table)
  {
    if ops != [] {
      BodyMeaning(c, ops[..|ops| - 1], table, key);
      OpMeaning(ApplyAll(c, ops[..|ops| - 1]), ops[|ops| - 1], table, key);
    }
  }

  /** The last word on a cell stands, whatever the rest of the body does elsewhere. */
  lemma {:induction false} LastWordStands(c: Content, ops: seq<Op>, i: nat, table: string, key: string)
    requires i < |ops| && Concerns(ops[i], table, key)
    requires forall j | i < j < |ops| :: !Concerns(ops[j], table, key)
    ensures Cell(ApplyAll(c, ops), table, key)
            == if ops[i].Put? && table in ApplyAll(c, ops[..i]).tables then Some(ops[i].value) else None
  {
    var front := ops[..|ops| - 1];
    OpMeaning(ApplyAll(c, front), ops[|ops| - 1], table, key);
    if i < |ops| - 1 {
      LastWordStands(c, front, i, table, key);
      assert front[..i] == ops[..i];
    }
  }
}
