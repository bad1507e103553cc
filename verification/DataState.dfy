/** The cache cell of one datatype. */
module DataState {
  import opened Text
  import opened ParentalControl

  /** Data of one datatype: whether it counts as true and is a dictionary, and the rule table where it
      carries one. `born` is the time at which the router gave the oldest answer the data is built from. */
  datatype Value = Value(truthy: bool, dict: bool, born: int, rules: Option<Table>)

  /** `released` is the completion event waiters block on. */
  datatype Cell = Cell(data: Option<Value>, timestamp: int, active: bool, released: bool,
                       invalidated: bool, generation: nat)

  function NewCell(timestamp: int): Cell {
    Cell(None, timestamp, false, false, false, 0)
  }

  function Invalidated(c: Cell): Cell {
    c.(invalidated := true, generation := c.generation + 1)
  }

  function Started(c: Cell): Cell {
    c.(active := true, released := false)
  }

  function Stopped(c: Cell): Cell {
    c.(active := false, released := true)
  }

  function Updated(c: Cell, v: Value, wall: int): Cell {
    Stopped(c.(data := Some(v), invalidated := false, timestamp := wall))
  }

  /** A scalar saved into the data dict, or into a new dict in place of anything else. */
  function StateSaved(c: Cell, at: int): Cell {
    c.(data := Some(if c.data.Some? && c.data.value.dict then c.data.value.(truthy := true) else Value(true, true, at, None)))
  }

  function TimeOffset(c: Cell, offset: Option<int>, wall: int): Cell {
    if c.invalidated then c
    else c.(timestamp := wall + if offset.Some? then offset.value else 0)
  }

  class AsusDataState {
    var data: Option<Value>
    var timestamp: int
    var active: bool
    var released: bool
    var invalidated: bool
    var generation: nat

    constructor (timestamp: int)
      ensures Contents() == NewCell(timestamp)
      ensures data == None && this.timestamp == timestamp && !active && !released && !invalidated && generation == 0
    {
      data, active, released, invalidated, generation := None, false, false, false, 0;
      this.timestamp := timestamp;
    }

    function Contents(): Cell
      reads this
    {
      Cell(data, timestamp, active, released, invalidated, generation)
    }

    method Invalidate()
      modifies this
      ensures Contents() == Invalidated(old(Contents()))
      ensures invalidated && generation == old(generation) + 1 && data == old(data) && timestamp == old(timestamp)
      ensures active == old(active) && released == old(released)
    {
      invalidated := true;
      generation := generation + 1;
    }

    method Start()
      modifies this
      ensures Contents() == Started(old(Contents()))
      ensures active && !released && data == old(data) && timestamp == old(timestamp)
      ensures invalidated == old(invalidated) && generation == old(generation)
    {
      active := true;
      released := false;
    }

    method Stop()
      modifies this
      ensures Contents() == Stopped(old(Contents()))
      ensures !active && released && data == old(data) && timestamp == old(timestamp)
      ensures invalidated == old(invalidated) && generation == old(generation)
    {
      active := false;
      released := true;
    }

    method Update(v: Value, wall: int)
      modifies this
      ensures Contents() == Updated(old(Contents()), v, wall)
      ensures data == Some(v) && timestamp == wall && !invalidated && generation == old(generation) && !active && released
    {
      data := Some(v);
      invalidated := false;
      timestamp := wall;
      Stop();
    }

    method UpdateState(at: int)
      modifies this
      ensures Contents() == StateSaved(old(Contents()), at)
      ensures data.Some? && data.value.dict && data.value.truthy && timestamp == old(timestamp)
      ensures invalidated == old(invalidated) && generation == old(generation) && active == old(active) && released == old(released)
      ensures if old(data.Some? && data.value.dict) then data.value.born == old(data.value.born) && data.value.rules == old(data.value.rules)
              else data.value.born == at && data.value.rules == None
    {
      if data.Some? && data.value.dict {
        data := Some(data.value.(truthy := true));
      } else {
        data := Some(Value(true, true, at, None));
      }
    }

    method OffsetTime(offset: Option<int>, wall: int)
      modifies this
      ensures Contents() == TimeOffset(old(Contents()), offset, wall)
      ensures timestamp == if old(invalidated) then old(timestamp) else if offset.Some? then wall + offset.value else wall
      ensures data == old(data) && active == old(active) && released == old(released)
      ensures invalidated == old(invalidated) && generation == old(generation)
    {
      if invalidated {
        return;
      }
      timestamp := wall + if offset.Some? then offset.value else 0;
    }
  }
}
