/**
 The durable message counter. Flash keeps the last committed value; a write that was not
 committed may or may not survive the next power cut. Every flash call may fail.
 */
module MessageIdStore {
  import opened ChatTypes

  const MAX_SAFE_ID: nat := 9007199254740991

  /** `current` is committed, if it was ever written; any value of `maybe` may have reached flash. */
  datatype Cell = Cell(current: Option<nat>, maybe: set<nat>)

  const ERASED := Cell(None, {})

  /** How the four calls of a persist turn out; a failing write may still have been applied. */
  datatype WriteFaults = WriteFaults(openOk: bool, setOk: bool, setApplied: bool, setBootOk: bool, commitOk: bool)

  /** How a read turns out, and which of the possible values it sees. */
  datatype ReadFaults = ReadFaults(openOk: bool, getOk: bool, seen: Option<nat>)

  function Committed(c: Cell): nat {
    if c.current.Some? then c.current.value else 0
  }

  function Stage(c: Cell, id: nat): Cell {
    c.(maybe := c.maybe + {id})
  }

  /** A power cut settles which write survived. */
  function Settle(c: Cell, survivor: Option<nat>): Cell {
    Cell(if survivor.Some? && survivor.value in c.maybe then survivor else c.current, {})
  }

  /** What a read returns: an uncommitted value if the flash shows it, else the committed one. */
  function Visible(c: Cell, seen: Option<nat>): Option<nat> {
    if seen.Some? && seen.value in c.maybe then seen else c.current
  }

  /** The effect of a persist on flash, and whether it reports success. */
  function Persist(c: Cell, id: nat, f: WriteFaults): (r: (Cell, bool))
    ensures r.1 ==> r.0 == Cell(Some(id), {})
    ensures !r.1 ==> r.0 == c || r.0 == Stage(c, id)
  {
    if !f.openOk then (c, false)
    else if !f.setOk then (if f.setApplied then Stage(c, id) else c, false)
    else if !f.setBootOk || !f.commitOk then (Stage(c, id), false)
    else (Cell(Some(id), {}), true)
  }

  datatype IdState = IdState(currentId: nat, bootStart: nat, loaded: bool)

  function BootStart(current: nat): nat {
    if current < MAX_SAFE_ID then current + 1 else MAX_SAFE_ID
  }

  /** The effect of a load: the state it fills in, and flash after the value is written back. */
  function Load(c: Cell, r: ReadFaults, f: WriteFaults): (Cell, IdState) {
    if !r.openOk || !r.getOk then (c, IdState(0, 1, false))
    else
      var v := Visible(c, r.seen);
      var raw := if v.Some? then v.value else 0;
      var current := if raw > MAX_SAFE_ID then MAX_SAFE_ID else raw;
      (Persist(c, current, f).0, IdState(current, BootStart(current), true))
  }

  class Flash {
    var cell: Cell

    constructor (c: Cell)
      ensures cell == c
    {
      cell := c;
    }

    method SetCurrent(id: nat, f: WriteFaults) returns (ok: bool)
      modifies this
      ensures ok == f.setOk
      ensures cell == if f.setOk || f.setApplied then Stage(old(cell), id) else old(cell)
    {
      if f.setOk || f.setApplied {
        cell := Stage(cell, id);
      }
      ok := f.setOk;
    }

    method Commit(id: nat, f: WriteFaults) returns (ok: bool)
      modifies this
      ensures ok == f.commitOk
      ensures cell == if f.commitOk then Cell(Some(id), {}) else old(cell)
    {
      if f.commitOk {
        cell := Cell(Some(id), {});
      }
      ok := f.commitOk;
    }

    method PersistIds(currentId: nat, f: WriteFaults) returns (ok: bool)
      modifies this
      ensures (cell, ok) == Persist(old(cell), currentId, f)
    {
      if !f.openOk {
        return false;
      }
      ok := SetCurrent(currentId, f);
      if ok {
        ok := f.setBootOk; // the boot_start key is written and never read back
      }
      if ok {
        ok := Commit(currentId, f);
      }
    }

    method LoadIds(r: ReadFaults, f: WriteFaults) returns (state: IdState)
      modifies this
      ensures (cell, state) == Load(old(cell), r, f)
    {
      state := IdState(0, 1, false);
      if !r.openOk || !r.getOk {
        return;
      }
      var value := Visible(cell, r.seen);
      var current := 0;
      if value.Some? {
        current := value.value;
      }
      if current > MAX_SAFE_ID {
        current := MAX_SAFE_ID;
      }
      state := state.(currentId := current, loaded := true);
      state := state.(bootStart := BootStart(current));
      var persisted := PersistIds(state.currentId, f);
    }
  }
}
