/** Concurrent reads of the router through the generation-checked cache, and rule updates that
    re-read, edit and rewrite the whole rule table under a lock. */
module DataCache {
  import opened Text
  import opened ParentalControl
  import opened DataState

  datatype AsusData = PC | Other(id: nat)

  type Cells = map<AsusData, Cell>

  // ---- the segments of a read between its suspension points ----------------------------------

  function Generation(cells: Cells, key: AsusData): nat {
    if key in cells then cells[key].generation else 0
  }

  function Generations(cells: Cells): map<AsusData, nat> {
    map k | k in cells :: cells[k].generation
  }

  /** `_check_state`: a missing cell is created, already expired. */
  function Checked(cells: Cells, key: AsusData, expired: int): Cells {
    if key in cells then cells else cells[key := NewCell(expired)]
  }

  predicate CacheHit(c: Cell, force: bool, wall: int, cacheTime: int) {
    c.data.Some? && c.data.value.truthy && !force && !c.invalidated && wall - c.timestamp < cacheTime
  }

  /** What a read does once it need not wait: serve the cache, give up without a finder, or fetch. */
  datatype Decision = Serve(value: Value) | NoFinder | Request(snapshot: map<AsusData, nat>)

  function Decided(cells: Cells, key: AsusData, force: bool, hasFinder: bool, wall: int, cacheTime: int): Decision
    requires key in cells
  {
    if CacheHit(cells[key], force, wall, cacheTime) then Serve(cells[key].data.value)
    else if !hasFinder then NoFinder
    else Request(Generations(cells))
  }

  function Begun(cells: Cells, key: AsusData, d: Decision): Cells
    requires key in cells
  {
    match d
    case Serve(_) => cells
    case NoFinder => cells[key := Stopped(cells[key])]
    case Request(_) => cells[key := Started(cells[key])]
  }

  /** A read in flight: what it asked for, the generations when it started, and what it has so far. */
  datatype Fetch = Fetch(key: AsusData, force: bool, any: bool, snapshot: map<AsusData, nat>, startedAt: int,
                         result: map<AsusData, Value>)

  function SnapshotOf(f: Fetch, key: AsusData): nat {
    if key in f.snapshot then f.snapshot[key] else 0
  }

  /** The saving loop skips a datatype whose generation moved on since the snapshot. */
  predicate Installs(cells: Cells, f: Fetch, key: AsusData) {
    key in f.result && !(key in cells && cells[key].generation != SnapshotOf(f, key))
  }

  /** The cells after the saving loop has been through `keys`. */
  function InstalledOver(cells: Cells, f: Fetch, keys: set<AsusData>, wall: int): Cells {
    map k | k in cells.Keys + keys && (k in cells || Installs(cells, f, k)) ::
      if k in keys && Installs(cells, f, k) then Updated(if k in cells then cells[k] else NewCell(wall), f.result[k], wall)
      else cells[k]
  }

  function Installed(cells: Cells, f: Fetch, wall: int): Cells {
    InstalledOver(cells, f, f.result.Keys, wall)
  }

  lemma InstalledOneMore(cells: Cells, f: Fetch, keys: set<AsusData>, key: AsusData, wall: int)
    requires key !in keys
    ensures InstalledOver(InstalledOver(cells, f, keys, wall), f, {key}, wall) == InstalledOver(cells, f, keys + {key}, wall)
  {
  }

  lemma InstalledNext(cells: Cells, f: Fetch, todo: set<AsusData>, key: AsusData, wall: int)
    requires key in todo && todo <= f.result.Keys
    ensures InstalledOver(InstalledOver(cells, f, f.result.Keys - todo, wall), f, {key}, wall)
            == InstalledOver(cells, f, f.result.Keys - (todo - {key}), wall)
  {
    InstalledOneMore(cells, f, f.result.Keys - todo, key, wall);
    assert f.result.Keys - (todo - {key}) == f.result.Keys - todo + {key};
  }

  lemma InstalledSingle(cells: Cells, f: Fetch, key: AsusData, wall: int)
    requires key in f.result
    ensures InstalledOver(cells, f, {key}, wall) ==
            if !Installs(cells, f, key) then cells
            else var c := if key in cells then cells else cells[key := NewCell(wall)];
                 c[key := Updated(c[key], f.result[key], wall)]
  {
  }

  /** The read ends normally: its datatype was not invalidated meanwhile and is not missing. */
  predicate Succeeds(cells: Cells, f: Fetch) {
    Generation(cells, f.key) == SnapshotOf(f, f.key) && (f.force ==> f.key in f.result)
  }

  function Finished(cells: Cells, f: Fetch, wall: int): Cells
    requires f.key in cells
  {
    var saved := if Succeeds(cells, f) then Installed(cells, f, wall) else cells;
    saved[f.key := Stopped(saved[f.key])]
  }

  function MergeValue(a: Value, b: Value): Value {
    Value(a.truthy || b.truthy, a.dict || b.dict, if a.born <= b.born then a.born else b.born, a.rules)
  }

  /** What two answers to one read merge to: the earlier one prevails. */
  function Merged(a: map<AsusData, Value>, b: map<AsusData, Value>): map<AsusData, Value> {
    map k | k in a.Keys + b.Keys ::
      if k in a && k in b then MergeValue(a[k], b[k]) else if k in a then a[k] else b[k]
  }

  /** What is served without a request: the data of the cell itself, if there is any, it counts as true, it is not
      stale, it is younger than the cache time, and the read does not insist on new data. Without a finder any
      other read is over; with one it begins a request with the generations of all cells. */
  lemma DecidedIff(cells: Cells, key: AsusData, force: bool, hasFinder: bool, wall: int, cacheTime: int)
    requires key in cells
    ensures var d := Decided(cells, key, force, hasFinder, wall, cacheTime);
            var c := cells[key];
            && (d.Serve? <==> !force && c.data.Some? && c.data.value.truthy && !c.invalidated && wall < c.timestamp + cacheTime)
            && (d.Serve? ==> Some(d.value) == c.data)
            && (d.NoFinder? <==> !d.Serve? && !hasFinder)
            && (d.Request? ==> d.snapshot.Keys == cells.Keys && forall k | k in cells :: d.snapshot[k] == cells[k].generation)
  {
  }

  /** A read that is served changes nothing, one without a finder releases whoever waits, and one that asks holds them
      back. */
  lemma BegunEach(cells: Cells, key: AsusData, d: Decision, k: AsusData)
    requires key in cells
    ensures var cells' := Begun(cells, key, d);
            && (k in cells' <==> k in cells)
            && (k in cells && (k != key || d.Serve?) ==> cells'[k] == cells[k])
            && (d.NoFinder? ==> cells'[key] == cells[key].(active := false, released := true))
            && (d.Request? ==> cells'[key] == cells[key].(active := true, released := false))
  {
  }

  /** The end of a read, cell by cell. It returns unless its datatype was invalidated, or is missing from an answer
      insisted on. Then each datatype of the answer that was not invalidated holds its new value, stamped and not
      stale; everything else keeps its data. No generation moves, and the waiters are released in any case. */
  lemma FinishedEach(cells: Cells, f: Fetch, wall: int, k: AsusData)
    requires f.key in cells
    ensures var ok := cells[f.key].generation == SnapshotOf(f, f.key) && (f.force ==> f.key in f.result);
            var installed := ok && k in f.result && (k in cells ==> cells[k].generation == SnapshotOf(f, k));
            var c' := Finished(cells, f, wall);
            && Succeeds(cells, f) == ok
            && (k in c' <==> k in cells || installed)
            && (installed ==> c'[k].data == Some(f.result[k]) && c'[k].timestamp == wall && !c'[k].invalidated)
            && (k in cells ==> c'[k].generation == cells[k].generation)
            && (k in cells && !installed ==>
                  c'[k].data == cells[k].data && c'[k].timestamp == cells[k].timestamp && c'[k].invalidated == cells[k].invalidated)
            && (k == f.key || installed ==> !c'[k].active && c'[k].released)
            && (k in cells && k != f.key && !installed ==> c'[k] == cells[k])
  {
  }

  /** Two answers merged: all datatypes of either; where both have one it is as old as the older, with the rules of
      the first. */
  lemma MergedEach(a: map<AsusData, Value>, b: map<AsusData, Value>, k: AsusData)
    ensures k in Merged(a, b) <==> k in a || k in b
    ensures k in a && k !in b ==> Merged(a, b)[k] == a[k]
    ensures k in b && k !in a ==> Merged(a, b)[k] == b[k]
    ensures k in a && k in b ==>
              var m := Merged(a, b)[k];
              && m.born <= a[k].born && m.born <= b[k].born && m.born in {a[k].born, b[k].born} && m.rules == a[k].rules
              && (m.truthy <==> a[k].truthy || b[k].truthy) && (m.dict <==> a[k].dict || b[k].dict)
  {
  }

  class AsusRouter {
    var state: map<AsusData, AsusDataState>
    const cacheTime: int

    constructor (cacheTime: int)
      ensures state == map[] && this.cacheTime == cacheTime
    {
      state := map[];
      this.cacheTime := cacheTime;
    }

    /** No two datatypes share a cell. */
    ghost predicate Valid()
      reads this
    {
      forall k, l | k in state && l in state && k != l :: state[k] != state[l]
    }

    ghost function View(): Cells
      reads this, state.Values
    {
      map k | k in state :: state[k].Contents()
    }

    method CheckState(key: AsusData, wall: int)
      requires Valid()
      modifies this
      ensures Valid() && key in state
      ensures forall k | k in old(state) :: k in state && state[k] == old(state[k])
      ensures forall k | k in state :: k in old(state) || (k == key && fresh(state[k]))
      ensures View() == Checked(old(View()), key, wall - 2 * cacheTime)
    {
      AddCell(key, wall - 2 * cacheTime);
    }

    /** The acknowledged parental-control write. */
    method InvalidateParentalControl(wall: int)
      requires Valid()
      modifies this, state.Values
      ensures Valid()
      ensures var cells := Checked(old(View()), PC, wall - 2 * cacheTime);
              View() == cells[PC := Invalidated(cells[PC])]
    {
      CheckState(PC, wall);
      state[PC].Invalidate();
    }

    /** From the cache test to the first request. Without a finder the read is over, and the `finally`
        block releases the waiters at once. */
    method BeginRead(key: AsusData, force: bool, hasFinder: bool, wall: int) returns (d: Decision)
      requires Valid() && key in state
      modifies state[key]
      ensures Valid()
      ensures d == Decided(old(View()), key, force, hasFinder, wall, cacheTime)
      ensures d.Serve? <==> !force && old(state[key].data.Some? && state[key].data.value.truthy && !state[key].invalidated
                                          && wall < state[key].timestamp + cacheTime)
      ensures d.Serve? ==> Some(d.value) == old(state[key].data)
      ensures View() == Begun(old(View()), key, d)
    {
      var hit := TestCache(key, force, wall);
      if hit.Some? {
        return Serve(hit.value);
      }
      if !hasFinder {
        GiveUp(key);
        return NoFinder;
      }
      d := StartFetch(key);
    }

    method TestCache(key: AsusData, force: bool, wall: int) returns (hit: Option<Value>)
      requires key in state
      ensures hit == if CacheHit(state[key].Contents(), force, wall, cacheTime) then state[key].data else None
    {
      var cell := state[key];
      if cell.data.Some? && cell.data.value.truthy && !force && !cell.invalidated {
        if wall - cell.timestamp < cacheTime {
          return cell.data;
        }
      }
      hit := None;
    }

    method GiveUp(key: AsusData)
      requires Valid() && key in state
      modifies state[key]
      ensures View() == old(View())[key := Stopped(old(View())[key])]
    {
      StartCell(key);
      StopCell(key);
    }

    method StartFetch(key: AsusData) returns (d: Decision)
      requires Valid() && key in state
      modifies state[key]
      ensures d == Request(Generations(old(View()))) && View() == Begun(old(View()), key, d)
    {
      var snapshot := TakeSnapshot();
      StartCell(key);
      d := Request(snapshot);
    }

    method TakeSnapshot() returns (snapshot: map<AsusData, nat>)
      ensures snapshot == Generations(View())
    {
      snapshot := map k | k in state :: state[k].generation;
    }

    method StartCell(key: AsusData)
      requires Valid() && key in state
      modifies state[key]
      ensures View() == old(View())[key := Started(old(View())[key])]
    {
      state[key].Start();
    }

    method StopCell(key: AsusData)
      requires Valid() && key in state
      modifies state[key]
      ensures View() == old(View())[key := Stopped(old(View())[key])]
    {
      state[key].Stop();
    }

    /** The end of a read: the generation check, the saving loop and the release of its waiters. */
    method FinishFetch(f: Fetch, wall: int) returns (ok: bool)
      requires Valid() && f.key in state
      modifies this, state.Values
      ensures Valid()
      ensures ok == Succeeds(old(View()), f)
      ensures View() == Finished(old(View()), f, wall)
    {
      ok := state[f.key].generation == SnapshotOf(f, f.key) && (f.force ==> f.key in f.result);
      if ok {
        Install(f, wall);
      }
      StopCell(f.key);
    }

    method Install(f: Fetch, wall: int)
      requires Valid()
      modifies this, state.Values
      ensures Valid()
      ensures forall k | k in old(state) :: k in state && state[k] == old(state[k])
      ensures View() == Installed(old(View()), f, wall)
    {
      ghost var before := View();
      var todo := f.result.Keys;
      assert View() == InstalledOver(before, f, {}, wall);
      while todo != {}
        invariant todo <= f.result.Keys && Valid()
        invariant forall k | k in old(state) :: k in state && state[k] == old(state[k])
        invariant forall k | k in state :: k in old(state) || fresh(state[k])
        invariant View() == InstalledOver(before, f, f.result.Keys - todo, wall)
        decreases todo
      {
        var key :| key in todo;
        InstalledNext(before, f, todo, key, wall);
        InstallOne(f, key, wall);
        todo := todo - {key};
      }
      assert f.result.Keys - {} == f.result.Keys;
    }

    method InstallOne(f: Fetch, key: AsusData, wall: int)
      requires Valid() && key in f.result
      modifies this, state.Values
      ensures Valid()
      ensures forall k | k in old(state) :: k in state && state[k] == old(state[k])
      ensures forall k | k in state :: k in old(state) || fresh(state[k])
      ensures View() == InstalledOver(old(View()), f, {key}, wall)
    {
      InstalledSingle(View(), f, key, wall);
      if key in state && state[key].generation != SnapshotOf(f, key) {
        return;
      }
      AddCell(key, wall);
      UpdateCell(key, f.result[key], wall);
    }

    method AddCell(key: AsusData, wall: int)
      requires Valid()
      modifies this
      ensures Valid() && key in state
      ensures forall k | k in old(state) :: k in state && state[k] == old(state[k])
      ensures forall k | k in state :: k in old(state) || (k == key && fresh(state[k]))
      ensures View() == if key in old(state) then old(View()) else old(View())[key := NewCell(wall)]
    {
      if key !in state {
        var cell := new AsusDataState(wall);
        state := state[key := cell];
      }
    }

    method UpdateCell(key: AsusData, v: Value, wall: int)
      requires Valid() && key in state
      modifies state[key]
      ensures View() == old(View())[key := Updated(old(View())[key], v, wall)]
    {
      state[key].Update(v, wall);
    }
  }
}
