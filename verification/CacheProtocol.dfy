/** Every interleaving of reads, rule updates and scalar parental-control writes through one router
    object, as steps between suspension points. The clock counts steps; `history` records the rule
    vectors the router held at each of them. */
module CacheProtocol {
  import opened Text
  import opened ParentalControl
  import opened DataState
  import opened DataCache

  /** A rule update is a forced read followed by an edit and a write, all under the rule lock. */
  datatype Purpose = Plain | ForRule(rule: Rule)

  datatype Task =
    | Waiting(key: AsusData, force: bool, purpose: Purpose)
    | Fetching(fetch: Fetch, left: nat, reply: Option<map<AsusData, Value>>, purpose: Purpose)
    | RuleReady(rule: Rule)
    | RuleSent(rule: Rule, vectors: Vectors)
    | RuleStored(rule: Rule, at: int)
    | ScalarSent
    | ScalarStored(at: int)

  /** `lost` tells that, since the last acknowledged write, the call of some rule write that the router took
      ended without a reply. */
  datatype System = System(cells: Cells, tasks: map<nat, Task>, lock: Option<nat>, history: seq<Vectors>,
                           lastInvalidated: int, acknowledged: set<int>, log: seq<Rule>, lost: bool, cacheTime: int)

  /** What the outside contributes to the start of a read. */
  datatype Env = Env(hasFinder: bool, endpoints: nat, any: bool, wall: int)

  datatype Event =
    | Read(task: nat, key: AsusData, force: bool, env: Env)
    | CallRule(task: nat, rule: Rule, env: Env)
    | CallScalar(task: nat)
    | Resume(task: nat, env: Env)
    | Answer(task: nat, reply: map<AsusData, Value>)
    | Deliver(task: nat, wall: int)
    | Fail(task: nat)
    | SetRule(task: nat)
    | Store(task: nat)
    | Acknowledge(task: nat, save: bool, wall: int)
    | SaveOther(id: nat, offset: Option<int>, wall: int)
    | Foreign(written: Vectors)

  function Now(s: System): int {
    |s.history| - 1
  }

  function Current(s: System): Vectors
    requires s.history != []
  {
    s.history[|s.history| - 1]
  }

  predicate Holding(t: Task) {
    match t
    case Waiting(_, _, purpose) => purpose.ForRule?
    case Fetching(_, _, _, purpose) => purpose.ForRule?
    case ScalarSent => false
    case ScalarStored(_) => false
    case _ => true
  }

  function Leave(s: System, id: nat): System {
    s.(tasks := s.tasks - {id}, lock := if s.lock == Some(id) then None else s.lock)
  }

  /** A read that returned. */
  function AfterRead(s: System, id: nat, purpose: Purpose): System {
    if purpose.ForRule? then s.(tasks := s.tasks[id := RuleReady(purpose.rule)]) else Leave(s, id)
  }

  function EndRead(s: System, id: nat, f: Fetch, purpose: Purpose, wall: int): System
    requires f.key in s.cells
  {
    var s' := s.(cells := Finished(s.cells, f, wall));
    if Succeeds(s.cells, f) then AfterRead(s', id, purpose) else Leave(s', id)
  }

  function BeginRead(s: System, id: nat, key: AsusData, force: bool, purpose: Purpose, env: Env): System
    requires key in s.cells
  {
    var d := Decided(s.cells, key, force, env.hasFinder, env.wall, s.cacheTime);
    var s' := s.(cells := Begun(s.cells, key, d));
    if !d.Request? then AfterRead(s', id, purpose)
    else
      var f := Fetch(key, force, env.any, d.snapshot, Now(s), map[]);
      if env.endpoints == 0 then EndRead(s', id, f, purpose, env.wall)
      else s'.(tasks := s'.tasks[id := Fetching(f, env.endpoints, None, purpose)])
  }

  function EnterChecked(s: System, id: nat, key: AsusData, force: bool, purpose: Purpose, env: Env): System
    requires key in s.cells
  {
    if s.cells[key].active then s.(tasks := s.tasks[id := Waiting(key, force, purpose)])
    else BeginRead(s, id, key, force, purpose, env)
  }

  function EnterRead(s: System, id: nat, key: AsusData, force: bool, purpose: Purpose, env: Env): System {
    EnterChecked(s.(cells := Checked(s.cells, key, env.wall - 2 * s.cacheTime)), id, key, force, purpose, env)
  }

  /** An answer tells what the router holds now; one answer of a read carries the rules. */
  ghost predicate Truthful(s: System, f: Fetch, reply: map<AsusData, Value>, lenient: string -> Option<int>)
    requires s.history != []
  {
    && (forall k | k in reply :: reply[k].born == Now(s))
    && (PC in reply ==> PC !in f.result)
    && (PC in reply && reply[PC].rules.Some? ==> View(Current(s), lenient) == Ok(reply[PC].rules.value))
  }

  /** With one more answer merged in, the read asks the next endpoint or is done. */
  function GoOn(s: System, id: nat, f: Fetch, left: nat, purpose: Purpose, wall: int): System
    requires f.key in s.cells
  {
    if left <= 1 || (f.result != map[] && f.any) then EndRead(s, id, f, purpose, wall)
    else s.(tasks := s.tasks[id := Fetching(f, left - 1, None, purpose)])
  }

  function Delivered(s: System, id: nat, f: Fetch, left: nat, reply: map<AsusData, Value>, purpose: Purpose, wall: int): System
    requires f.key in s.cells
  {
    GoOn(s, id, f.(result := Merged(f.result, reply)), left, purpose, wall)
  }

  function ReleaseKey(cells: Cells, key: AsusData): Cells {
    if key in cells then cells[key := Stopped(cells[key])] else cells
  }

  /** The vectors `set_rule` sends for the cached cell; None where it refuses. */
  function Planned(cells: Cells, rule: Rule): Option<Vectors> {
    if PC !in cells || cells[PC].data.None? || cells[PC].data.value.rules.None? || cells[PC].invalidated then None
    else match Edit(cells[PC].data.value.rules.value, rule)
      case None => None
      case Some(t) => Some(WriteRules(t))
  }

  /** An acknowledged write invalidates; a scalar one may then save its flag into the stale data. */
  function Acked(s: System, id: nat, save: bool, wall: int, stored: set<int>): System {
    var cells := Checked(s.cells, PC, wall - 2 * s.cacheTime);
    var cell := Invalidated(cells[PC]);
    var saved := if save then TimeOffset(StateSaved(cell, Now(s)), None, wall) else cell;
    Leave(s.(cells := cells[PC := saved], lastInvalidated := Now(s), acknowledged := s.acknowledged + stored,
             lost := false), id)
  }

  /** The effect of one event on everything but the clock; None where it cannot happen. Every call may end
      without a reply, also after the router took its write. `Foreign` is a write by somebody else, or one
      that the router takes only after the call that sent it has ended. */
  ghost function Effect(s: System, e: Event, lenient: string -> Option<int>): Option<System>
    requires s.history != []
  {
    match e
    case Read(id, key, force, env) =>
      if id in s.tasks then None else Some(EnterRead(s, id, key, force, Plain, env))
    case CallRule(id, rule, env) =>
      if id in s.tasks || s.lock.Some? then None
      else Some(EnterRead(s.(lock := Some(id)), id, PC, true, ForRule(rule), env))
    case CallScalar(id) =>
      if id in s.tasks then None else Some(s.(tasks := s.tasks[id := ScalarSent]))
    case SaveOther(n, offset, wall) =>
      var key := Other(n);
      if key !in s.cells then None
      else Some(s.(cells := s.cells[key := TimeOffset(StateSaved(s.cells[key], Now(s)), offset, wall)]))
    case Foreign(_) => Some(s)
    case _ =>
      if e.task !in s.tasks then None else TaskEffect(s, e, s.tasks[e.task], lenient)
  }

  ghost function TaskEffect(s: System, e: Event, t: Task, lenient: string -> Option<int>): Option<System>
    requires s.history != []
    requires !e.Read? && !e.CallRule? && !e.CallScalar? && !e.SaveOther? && !e.Foreign?
  {
    match e
    case Resume(id, env) =>
      if t.Waiting? && t.key in s.cells then Some(BeginRead(s, id, t.key, t.force, t.purpose, env)) else None
    case Answer(id, reply) =>
      if t.Fetching? && t.reply.None? && Truthful(s, t.fetch, reply, lenient)
      then Some(s.(tasks := s.tasks[id := t.(reply := Some(reply))])) else None
    case Deliver(id, wall) =>
      if t.Fetching? && t.reply.Some? && t.fetch.key in s.cells
      then Some(Delivered(s, id, t.fetch, t.left, t.reply.value, t.purpose, wall)) else None
    case Fail(id) =>
      var s' := Leave(if t.Fetching? then s.(cells := ReleaseKey(s.cells, t.fetch.key)) else s, id);
      Some(s'.(lost := s.lost || t.RuleStored?))
    case SetRule(id) =>
      if !t.RuleReady? then None
      else (match Planned(s.cells, t.rule)
        case None => Some(Leave(s, id))
        case Some(v) => Some(s.(tasks := s.tasks[id := RuleSent(t.rule, v)])))
    case Store(id) =>
      if t.RuleSent? then Some(s.(tasks := s.tasks[id := RuleStored(t.rule, Now(s) + 1)], log := s.log + [t.rule]))
      else if t.ScalarSent? then Some(s.(tasks := s.tasks[id := ScalarStored(Now(s) + 1)]))
      else None
    case Acknowledge(id, save, wall) =>
      if t.RuleStored? then Some(Acked(s, id, false, wall, {t.at}))
      else if t.ScalarStored? then Some(Acked(s, id, save, wall, {t.at}))
      else if t.ScalarSent? then Some(Acked(s, id, save, wall, {}))
      else None
  }

  predicate TakesRule(s: System, e: Event) {
    e.Store? && e.task in s.tasks && s.tasks[e.task].RuleSent?
  }

  function StoredBy(s: System, e: Event): Vectors
    requires s.history != []
  {
    if e.Foreign? then e.written else if TakesRule(s, e) then s.tasks[e.task].vectors else Current(s)
  }

  ghost function Next(s: System, e: Event, lenient: string -> Option<int>): Option<System>
    requires s.history != []
  {
    match Effect(s, e, lenient)
    case None => None
    case Some(s') => Some(s'.(history := s.history + [StoredBy(s, e)]))
  }

  ghost function Run(s: System, events: seq<Event>, lenient: string -> Option<int>): Option<System>
    requires s.history != []
    decreases |events|
  {
    if events == [] then Some(s)
    else match Next(s, events[0], lenient)
      case None => None
      case Some(s') => Run(s', events[1..], lenient)
  }

  // ---- the invariant ------------------------------------------------------------------------

  /** The rules a value carries are the ones the router held when it answered. */
  ghost predicate Faithful(h: seq<Vectors>, v: Value, lenient: string -> Option<int>) {
    v.rules.Some? ==> 0 <= v.born < |h| && View(h[v.born], lenient) == Ok(v.rules.value)
  }

  ghost predicate ClockOk(s: System) {
    && s.history != []
    && s.lastInvalidated < Now(s)
    && forall c | c in s.acknowledged :: c <= s.lastInvalidated
  }

  ghost predicate CacheOk(s: System, lenient: string -> Option<int>) {
    PC in s.cells && s.cells[PC].data.Some? ==>
      && Faithful(s.history, s.cells[PC].data.value, lenient)
      && (!s.cells[PC].invalidated ==> s.lastInvalidated < s.cells[PC].data.value.born)
  }

  ghost predicate ResultOk(s: System, f: Fetch, result: map<AsusData, Value>, lenient: string -> Option<int>) {
    && (forall k | k in result :: f.startedAt < result[k].born <= Now(s))
    && (PC in result ==> Faithful(s.history, result[PC], lenient))
  }

  /** `slack` is 1 inside a step, before the clock has moved on. */
  ghost predicate FetchOk(s: System, f: Fetch, slack: int, lenient: string -> Option<int>) {
    && f.key in s.cells && f.key in f.snapshot
    && f.startedAt < Now(s) + slack
    && ResultOk(s, f, f.result, lenient)
    && SnapshotOf(f, PC) <= Generation(s.cells, PC)
    && (SnapshotOf(f, PC) == Generation(s.cells, PC) ==> s.lastInvalidated < f.startedAt)
  }

  ghost predicate TaskOk(s: System, id: nat, slack: int, lenient: string -> Option<int>)
    requires id in s.tasks && s.history != []
  {
    var t := s.tasks[id];
    && (Holding(t) ==> s.lock == Some(id))
    && match t
       case Waiting(key, force, purpose) =>
         && key in s.cells && (s.cells[key].active || s.cells[key].released)
       case Fetching(f, left, reply, purpose) =>
         && FetchOk(s, f, slack, lenient)
         && (reply.Some? ==> ResultOk(s, f, reply.value, lenient) && (PC in reply.value ==> PC !in f.result))
       case RuleStored(rule, at) => at <= Now(s) + slack
       case ScalarStored(at) => at <= Now(s) + slack
       case _ => true
  }

  ghost predicate FetchedBySome(tasks: map<nat, Task>, key: AsusData) {
    exists id :: id in tasks && tasks[id].Fetching? && tasks[id].fetch.key == key
  }

  /** Someone is still fetching every datatype marked active, and its waiters are held back. */
  ghost predicate ActiveOk(s: System, except: set<AsusData>) {
    forall k | k in s.cells && k !in except && s.cells[k].active ::
      !s.cells[k].released && FetchedBySome(s.tasks, k)
  }

  /** The invariant one fact at a time. */
  datatype Aspect = Clock | Cache | TaskOf(id: nat) | Active

  ghost predicate Keeps(s: System, a: Aspect, slack: int, except: set<AsusData>, lenient: string -> Option<int>)
    requires s.history != []
  {
    match a
    case Clock => ClockOk(s)
    case Cache => CacheOk(s, lenient)
    case TaskOf(id) => id in s.tasks ==> TaskOk(s, id, slack, lenient)
    case Active => ActiveOk(s, except)
  }

  ghost predicate Inside(s: System, slack: int, except: set<AsusData>, lenient: string -> Option<int>) {
    s.history != [] && forall a :: Keeps(s, a, slack, except, lenient)
  }

  ghost predicate Parts(s: System, slack: int, except: set<AsusData>, lenient: string -> Option<int>) {
    && ClockOk(s)
    && CacheOk(s, lenient)
    && (forall id | id in s.tasks :: TaskOk(s, id, slack, lenient))
    && ActiveOk(s, except)
  }

  lemma Open(s: System, slack: int, except: set<AsusData>, lenient: string -> Option<int>)
    requires Inside(s, slack, except, lenient)
    ensures Parts(s, slack, except, lenient)
  {
    assert Keeps(s, Clock, slack, except, lenient) && Keeps(s, Cache, slack, except, lenient);
    assert Keeps(s, Active, slack, except, lenient);
    forall id | id in s.tasks ensures TaskOk(s, id, slack, lenient) {
      assert Keeps(s, TaskOf(id), slack, except, lenient);
    }
  }

  lemma Close(s: System, slack: int, except: set<AsusData>, lenient: string -> Option<int>)
    requires Parts(s, slack, except, lenient)
    ensures Inside(s, slack, except, lenient)
  {
  }

  ghost predicate Invariant(s: System, lenient: string -> Option<int>) {
    Inside(s, 0, {}, lenient)
  }

  // ---- every step keeps it ------------------------------------------------------------------

  ghost predicate CellsGrow(c: Cells, c': Cells) {
    && Generation(c', PC) == Generation(c, PC)
    && forall k | k in c :: k in c' && (c[k].active || c[k].released ==> c'[k].active || c'[k].released)
  }

  /** Inside a step, the cells change the way a read changes them. */
  lemma CellsStep(s: System, cells: Cells, slack: int, before: set<AsusData>, after: set<AsusData>, lenient: string -> Option<int>)
    requires Inside(s, slack, before, lenient) && 0 <= slack <= 1
    requires CellsGrow(s.cells, cells) && CacheOk(s.(cells := cells), lenient)
    requires forall k | k in cells && k !in after && cells[k].active :: k !in before && k in s.cells && cells[k] == s.cells[k]
    ensures Inside(s.(cells := cells), 1, after, lenient)
  {
    Open(s, slack, before, lenient);
    var s' := s.(cells := cells);
    forall u | u in s'.tasks ensures TaskOk(s', u, 1, lenient) {
      assert TaskOk(s, u, slack, lenient);
    }
    Close(s', 1, after, lenient);
  }

  /** Inside a step, one task goes on, comes or leaves; a departing lock holder releases the lock. */
  lemma TaskStep(s: System, s': System, id: nat, slack: int, before: set<AsusData>, after: set<AsusData>, lenient: string -> Option<int>)
    requires Inside(s, slack, before, lenient) && 0 <= slack <= 1
    requires s' == s.(tasks := s'.tasks, lock := s'.lock, log := s'.log, lost := s'.lost)
    requires s'.tasks == if id in s'.tasks then s.tasks[id := s'.tasks[id]] else s.tasks - {id}
    requires s'.lock == s.lock || (s.lock == Some(id) && id !in s'.tasks)
    requires id in s'.tasks ==> TaskOk(s', id, 1, lenient)
    requires forall k | k in s.cells && k !in after && s.cells[k].active ::
               if k in before then !s.cells[k].released && FetchedBySome(s'.tasks, k)
               else id in s.tasks && s.tasks[id].Fetching? && s.tasks[id].fetch.key == k ==> FetchedBySome(s'.tasks, k)
    ensures Inside(s', 1, after, lenient)
  {
    Open(s, slack, before, lenient);
    forall u | u in s'.tasks ensures TaskOk(s', u, 1, lenient) {
      if u != id {
        assert TaskOk(s, u, slack, lenient);
      }
    }
    StaysActive(s, s', id, before, after);
    Close(s', 1, after, lenient);
  }

  lemma StaysActive(s: System, s': System, id: nat, before: set<AsusData>, after: set<AsusData>)
    requires ActiveOk(s, before) && s'.cells == s.cells
    requires s'.tasks == if id in s'.tasks then s.tasks[id := s'.tasks[id]] else s.tasks - {id}
    requires forall k | k in s.cells && k !in after && s.cells[k].active ::
               if k in before then !s.cells[k].released && FetchedBySome(s'.tasks, k)
               else id in s.tasks && s.tasks[id].Fetching? && s.tasks[id].fetch.key == k ==> FetchedBySome(s'.tasks, k)
    ensures ActiveOk(s', after)
  {
    forall k | k in s'.cells && k !in after && s'.cells[k].active
      ensures !s'.cells[k].released && FetchedBySome(s'.tasks, k)
    {
      if k !in before {
        var u :| u in s.tasks && s.tasks[u].Fetching? && s.tasks[u].fetch.key == k;
        assert u != id ==> u in s'.tasks && s'.tasks[u] == s.tasks[u];
      }
    }
  }

  /** The clock moves on, whatever the router holds then. */
  lemma TickStep(s: System, s': System, held: Vectors, lenient: string -> Option<int>)
    requires Inside(s, 1, {}, lenient)
    requires s' == s.(history := s.history + [held])
    ensures Invariant(s', lenient)
  {
    Open(s, 1, {}, lenient);
    forall u | u in s'.tasks ensures TaskOk(s', u, 0, lenient) {
      assert TaskOk(s, u, 1, lenient);
    }
    Close(s', 0, {}, lenient);
  }

  /** A task whose own datatype, if it was fetching one, is no longer active may go on or leave. */
  lemma DoneStep(s: System, id: nat, purpose: Purpose, ok: bool, lenient: string -> Option<int>)
    requires Inside(s, 1, {}, lenient)
    requires id in s.tasks && s.tasks[id].Fetching? ==> s.tasks[id].fetch.key in s.cells && !s.cells[s.tasks[id].fetch.key].active
    requires purpose.ForRule? ==> s.lock == Some(id)
    ensures Inside(if ok then AfterRead(s, id, purpose) else Leave(s, id), 1, {}, lenient)
  {
    Open(s, 1, {}, lenient);
    TaskStep(s, if ok then AfterRead(s, id, purpose) else Leave(s, id), id, 1, {}, {}, lenient);
  }

  /** The saving loop installs only what was answered after the last invalidation. */
  lemma FinishedStep(s: System, f: Fetch, wall: int, slack: int, lenient: string -> Option<int>)
    requires Inside(s, slack, {f.key}, lenient) && 0 <= slack <= 1 && FetchOk(s, f, slack, lenient)
    ensures Inside(s.(cells := Finished(s.cells, f, wall)), 1, {}, lenient)
  {
    Open(s, slack, {f.key}, lenient);
    CellsStep(s, Finished(s.cells, f, wall), slack, {f.key}, {}, lenient);
  }

  /** The end of a read, successful or not. */
  lemma EndReadStep(s: System, id: nat, f: Fetch, purpose: Purpose, wall: int, slack: int, lenient: string -> Option<int>)
    requires Inside(s, slack, {f.key}, lenient) && 0 <= slack <= 1 && FetchOk(s, f, slack, lenient)
    requires id in s.tasks && s.tasks[id].Fetching? ==> s.tasks[id].fetch.key == f.key
    requires purpose.ForRule? ==> s.lock == Some(id)
    ensures Inside(EndRead(s, id, f, purpose, wall), 1, {}, lenient)
  {
    FinishedStep(s, f, wall, slack, lenient);
    DoneStep(s.(cells := Finished(s.cells, f, wall)), id, purpose, Succeeds(s.cells, f), lenient);
  }

  lemma StartedStep(s: System, key: AsusData, f: Fetch, slack: int, lenient: string -> Option<int>)
    requires Inside(s, slack, {}, lenient) && 0 <= slack <= 1 && key in s.cells
    requires f.key == key && f.snapshot == Generations(s.cells) && f.startedAt == Now(s) && f.result == map[]
    ensures var s' := s.(cells := s.cells[key := Started(s.cells[key])]);
            Inside(s', 1, {key}, lenient) && FetchOk(s', f, 1, lenient)
  {
    Open(s, slack, {}, lenient);
    CellsStep(s, s.cells[key := Started(s.cells[key])], slack, {}, {key}, lenient);
  }

  lemma RequestStep(s: System, id: nat, key: AsusData, force: bool, purpose: Purpose, env: Env, slack: int,
                    lenient: string -> Option<int>)
    requires Inside(s, slack, {}, lenient) && 0 <= slack <= 1 && key in s.cells
    requires id in s.tasks ==> s.tasks[id].Waiting?
    requires purpose.ForRule? ==> s.lock == Some(id)
    requires Decided(s.cells, key, force, env.hasFinder, env.wall, s.cacheTime).Request?
    ensures Inside(BeginRead(s, id, key, force, purpose, env), 1, {}, lenient)
  {
    var s' := s.(cells := s.cells[key := Started(s.cells[key])]);
    var f := Fetch(key, force, env.any, Generations(s.cells), Now(s), map[]);
    StartedStep(s, key, f, slack, lenient);
    if env.endpoints == 0 {
      EndReadStep(s', id, f, purpose, env.wall, 1, lenient);
    } else {
      var after := s'.(tasks := s'.tasks[id := Fetching(f, env.endpoints, None, purpose)]);
      assert after.tasks[id].fetch.key == key;
      TaskStep(s', after, id, 1, {key}, {}, lenient);
    }
  }

  lemma BeginReadStep(s: System, id: nat, key: AsusData, force: bool, purpose: Purpose, env: Env, slack: int,
                      lenient: string -> Option<int>)
    requires Inside(s, slack, {}, lenient) && 0 <= slack <= 1 && key in s.cells
    requires id in s.tasks ==> s.tasks[id].Waiting?
    requires purpose.ForRule? ==> s.lock == Some(id)
    ensures Inside(BeginRead(s, id, key, force, purpose, env), 1, {}, lenient)
  {
    Open(s, slack, {}, lenient);
    var d := Decided(s.cells, key, force, env.hasFinder, env.wall, s.cacheTime);
    if d.Request? {
      RequestStep(s, id, key, force, purpose, env, slack, lenient);
    } else {
      CellsStep(s, Begun(s.cells, key, d), slack, {}, {}, lenient);
      DoneStep(s.(cells := Begun(s.cells, key, d)), id, purpose, true, lenient);
    }
  }

  lemma CheckedStep(s: System, key: AsusData, expired: int, slack: int, lenient: string -> Option<int>)
    requires Inside(s, slack, {}, lenient) && 0 <= slack <= 1
    ensures Inside(s.(cells := Checked(s.cells, key, expired)), 1, {}, lenient)
  {
    Open(s, slack, {}, lenient);
    CellsStep(s, Checked(s.cells, key, expired), slack, {}, {}, lenient);
  }

  lemma WaitStep(s: System, id: nat, key: AsusData, force: bool, purpose: Purpose, lenient: string -> Option<int>)
    requires Inside(s, 1, {}, lenient) && id !in s.tasks && key in s.cells && s.cells[key].active
    requires purpose.ForRule? ==> s.lock == Some(id)
    ensures Inside(s.(tasks := s.tasks[id := Waiting(key, force, purpose)]), 1, {}, lenient)
  {
    Open(s, 1, {}, lenient);
    TaskStep(s, s.(tasks := s.tasks[id := Waiting(key, force, purpose)]), id, 1, {}, {}, lenient);
  }

  lemma EnterReadStep(s: System, id: nat, key: AsusData, force: bool, purpose: Purpose, env: Env, slack: int,
                      lenient: string -> Option<int>)
    requires Inside(s, slack, {}, lenient) && 0 <= slack <= 1
    requires id !in s.tasks
    requires purpose.ForRule? ==> s.lock == Some(id)
    ensures Inside(EnterRead(s, id, key, force, purpose, env), 1, {}, lenient)
  {
    CheckedStep(s, key, env.wall - 2 * s.cacheTime, slack, lenient);
    EnterCheckedStep(s.(cells := Checked(s.cells, key, env.wall - 2 * s.cacheTime)), id, key, force, purpose, env, lenient);
  }

  lemma EnterCheckedStep(s: System, id: nat, key: AsusData, force: bool, purpose: Purpose, env: Env, lenient: string -> Option<int>)
    requires Inside(s, 1, {}, lenient) && id !in s.tasks && key in s.cells
    requires purpose.ForRule? ==> s.lock == Some(id)
    ensures Inside(EnterChecked(s, id, key, force, purpose, env), 1, {}, lenient)
  {
    if s.cells[key].active {
      WaitStep(s, id, key, force, purpose, lenient);
    } else {
      BeginReadStep(s, id, key, force, purpose, env, 1, lenient);
    }
  }

  lemma MergedOk(s: System, f: Fetch, reply: map<AsusData, Value>, lenient: string -> Option<int>)
    requires FetchOk(s, f, 0, lenient) && ResultOk(s, f, reply, lenient) && (PC in reply ==> PC !in f.result)
    ensures FetchOk(s, f.(result := Merged(f.result, reply)), 0, lenient)
  {
  }

  lemma MoreStep(s: System, id: nat, f: Fetch, left: nat, lenient: string -> Option<int>)
    requires Invariant(s, lenient) && id in s.tasks && s.tasks[id].Fetching?
    requires s.tasks[id].fetch.key == f.key && FetchOk(s, f, 0, lenient)
    ensures Inside(s.(tasks := s.tasks[id := Fetching(f, left, None, s.tasks[id].purpose)]), 1, {}, lenient)
  {
    Open(s, 0, {}, lenient);
    assert TaskOk(s, id, 0, lenient);
    var after := s.(tasks := s.tasks[id := Fetching(f, left, None, s.tasks[id].purpose)]);
    assert after.tasks[id].fetch.key == f.key;
    TaskStep(s, after, id, 0, {}, {}, lenient);
  }

  lemma DeliverStep(s: System, id: nat, wall: int, lenient: string -> Option<int>)
    requires Invariant(s, lenient) && id in s.tasks
    requires s.tasks[id].Fetching? && s.tasks[id].reply.Some? && s.tasks[id].fetch.key in s.cells
    ensures var t := s.tasks[id];
            Inside(Delivered(s, id, t.fetch, t.left, t.reply.value, t.purpose, wall), 1, {}, lenient)
  {
    Open(s, 0, {}, lenient);
    assert TaskOk(s, id, 0, lenient);
    var t := s.tasks[id];
    MergedOk(s, t.fetch, t.reply.value, lenient);
    GoOnStep(s, id, t.fetch.(result := Merged(t.fetch.result, t.reply.value)), wall, lenient);
  }

  lemma GoOnStep(s: System, id: nat, f: Fetch, wall: int, lenient: string -> Option<int>)
    requires Invariant(s, lenient) && id in s.tasks && s.tasks[id].Fetching?
    requires s.tasks[id].fetch.key == f.key && FetchOk(s, f, 0, lenient)
    ensures Inside(GoOn(s, id, f, s.tasks[id].left, s.tasks[id].purpose, wall), 1, {}, lenient)
  {
    Open(s, 0, {}, lenient);
    assert TaskOk(s, id, 0, lenient);
    var t := s.tasks[id];
    if t.left <= 1 || (f.result != map[] && f.any) {
      EndReadStep(s, id, f, t.purpose, wall, 0, lenient);
    } else {
      MoreStep(s, id, f, t.left - 1, lenient);
    }
  }

  lemma FailStep(s: System, id: nat, lenient: string -> Option<int>)
    requires Invariant(s, lenient) && id in s.tasks
    ensures Inside(TaskEffect(s, Event.Fail(id), s.tasks[id], lenient).value, 1, {}, lenient)
  {
    Open(s, 0, {}, lenient);
    var t := s.tasks[id];
    assert TaskOk(s, id, 0, lenient);
    var cells := if t.Fetching? then ReleaseKey(s.cells, t.fetch.key) else s.cells;
    CellsStep(s, cells, 0, {}, {}, lenient);
    var s1 := s.(cells := cells);
    Open(s1, 1, {}, lenient);
    TaskStep(s1, Leave(s1, id).(lost := s.lost || t.RuleStored?), id, 1, {}, {}, lenient);
  }

  lemma SetRuleStep(s: System, id: nat, lenient: string -> Option<int>)
    requires Invariant(s, lenient) && id in s.tasks && s.tasks[id].RuleReady?
    ensures Inside(TaskEffect(s, SetRule(id), s.tasks[id], lenient).value, 1, {}, lenient)
  {
    Open(s, 0, {}, lenient);
    assert TaskOk(s, id, 0, lenient);
    TaskStep(s, TaskEffect(s, SetRule(id), s.tasks[id], lenient).value, id, 0, {}, {}, lenient);
  }

  lemma AnswerStep(s: System, id: nat, reply: map<AsusData, Value>, lenient: string -> Option<int>)
    requires Invariant(s, lenient) && id in s.tasks
    requires TaskEffect(s, Answer(id, reply), s.tasks[id], lenient).Some?
    ensures Inside(TaskEffect(s, Answer(id, reply), s.tasks[id], lenient).value, 1, {}, lenient)
  {
    Open(s, 0, {}, lenient);
    assert TaskOk(s, id, 0, lenient);
    var after := TaskEffect(s, Answer(id, reply), s.tasks[id], lenient).value;
    assert after.tasks[id].fetch.key == s.tasks[id].fetch.key;
    TaskStep(s, after, id, 0, {}, {}, lenient);
  }

  ghost function AckTaken(s: System, id: nat, save: bool, wall: int, stored: set<int>): System
    requires s.history != []
  {
    Acked(s, id, save, wall, stored).(history := s.history + [Current(s)])
  }

  lemma AckTakenTasks(s: System, id: nat, save: bool, wall: int, stored: set<int>, u: nat, lenient: string -> Option<int>)
    requires Invariant(s, lenient) && u in s.tasks && u != id
    ensures TaskOk(AckTaken(s, id, save, wall, stored), u, 0, lenient)
  {
    Open(s, 0, {}, lenient);
    assert TaskOk(s, u, 0, lenient);
  }

  /** An acknowledged write: every fetch that started before it has now a stale generation. */
  lemma AckTakenStep(s: System, id: nat, save: bool, wall: int, stored: set<int>, lenient: string -> Option<int>)
    requires Invariant(s, lenient) && id in s.tasks && !s.tasks[id].Fetching?
    requires forall c | c in stored :: c <= Now(s)
    ensures Invariant(AckTaken(s, id, save, wall, stored), lenient)
  {
    Open(s, 0, {}, lenient);
    var s' := AckTaken(s, id, save, wall, stored);
    forall u | u in s'.tasks ensures TaskOk(s', u, 0, lenient) {
      AckTakenTasks(s, id, save, wall, stored, u, lenient);
    }
    forall k | k in s'.cells && s'.cells[k].active
      ensures !s'.cells[k].released && FetchedBySome(s'.tasks, k)
    {
      assert k in s.cells && s.cells[k].active;
      var u :| u in s.tasks && s.tasks[u].Fetching? && s.tasks[u].fetch.key == k;
      assert s'.tasks[u] == s.tasks[u];
    }
    Close(s', 0, {}, lenient);
  }

  lemma CallStep(s: System, e: Event, lenient: string -> Option<int>)
    requires Invariant(s, lenient) && Effect(s, e, lenient).Some?
    requires e.Read? || e.CallRule? || e.CallScalar? || e.SaveOther?
    ensures Inside(Effect(s, e, lenient).value, 1, {}, lenient)
  {
    match e
    case Read(id, key, force, env) => EnterReadStep(s, id, key, force, Plain, env, 0, lenient);
    case CallRule(id, rule, env) =>
      LockStep(s, id, lenient);
      EnterReadStep(s.(lock := Some(id)), id, PC, true, ForRule(rule), env, 1, lenient);
    case CallScalar(id) => TaskStep(s, s.(tasks := s.tasks[id := ScalarSent]), id, 0, {}, {}, lenient);
    case SaveOther(n, offset, wall) => SaveOtherStep(s, n, offset, wall, lenient);
  }

  lemma FetchStep(s: System, e: Event, lenient: string -> Option<int>)
    requires Invariant(s, lenient) && Effect(s, e, lenient).Some? && (e.Resume? || e.Answer? || e.Deliver?)
    ensures Inside(Effect(s, e, lenient).value, 1, {}, lenient)
  {
    Open(s, 0, {}, lenient);
    assert TaskOk(s, e.task, 0, lenient);
    match e
    case Resume(id, env) =>
      BeginReadStep(s, id, s.tasks[id].key, s.tasks[id].force, s.tasks[id].purpose, env, 0, lenient);
    case Answer(id, reply) => AnswerStep(s, id, reply, lenient);
    case Deliver(id, wall) => DeliverStep(s, id, wall, lenient);
  }

  lemma StoreStep(s: System, id: nat, lenient: string -> Option<int>)
    requires Invariant(s, lenient) && id in s.tasks && (s.tasks[id].RuleSent? || s.tasks[id].ScalarSent?)
    ensures Inside(TaskEffect(s, Store(id), s.tasks[id], lenient).value, 1, {}, lenient)
  {
    Open(s, 0, {}, lenient);
    assert TaskOk(s, id, 0, lenient);
    TaskStep(s, TaskEffect(s, Store(id), s.tasks[id], lenient).value, id, 0, {}, {}, lenient);
  }

  lemma OtherTaskStep(s: System, e: Event, lenient: string -> Option<int>)
    requires Invariant(s, lenient) && Effect(s, e, lenient).Some?
    requires e.Fail? || e.SetRule? || e.Store?
    ensures Inside(Effect(s, e, lenient).value, 1, {}, lenient)
  {
    Open(s, 0, {}, lenient);
    assert TaskOk(s, e.task, 0, lenient);
    match e
    case Fail(id) => FailStep(s, id, lenient);
    case SetRule(id) => SetRuleStep(s, id, lenient);
    case Store(id) => StoreStep(s, id, lenient);
  }

  lemma AckStep(s: System, e: Event, lenient: string -> Option<int>)
    requires Invariant(s, lenient) && s.history != [] && e.Acknowledge? && Next(s, e, lenient).Some?
    ensures Invariant(Next(s, e, lenient).value, lenient)
  {
    var t := s.tasks[e.task];
    AckRange(s, e.task, lenient);
    AckTakenStep(s, e.task, e.save && !t.RuleStored?, e.wall, if t.ScalarSent? then {} else {t.at}, lenient);
  }

  lemma AckRange(s: System, id: nat, lenient: string -> Option<int>)
    requires Invariant(s, lenient) && id in s.tasks
    ensures s.tasks[id].RuleStored? || s.tasks[id].ScalarStored? ==> s.tasks[id].at <= Now(s)
  {
    Open(s, 0, {}, lenient);
    assert TaskOk(s, id, 0, lenient);
  }

  lemma ForeignStep(s: System, lenient: string -> Option<int>)
    requires Invariant(s, lenient)
    ensures Inside(s, 1, {}, lenient)
  {
    Open(s, 0, {}, lenient);
    forall u | u in s.tasks ensures TaskOk(s, u, 1, lenient) {
      assert TaskOk(s, u, 0, lenient);
    }
    Close(s, 1, {}, lenient);
  }

  /** Every step but an acknowledgement, before the clock moves on. */
  lemma EffectStep(s: System, e: Event, lenient: string -> Option<int>)
    requires Invariant(s, lenient) && Effect(s, e, lenient).Some? && !e.Acknowledge?
    ensures Inside(Effect(s, e, lenient).value, 1, {}, lenient)
  {
    if e.Foreign? {
      ForeignStep(s, lenient);
    } else if e.Read? || e.CallRule? || e.CallScalar? || e.SaveOther? {
      CallStep(s, e, lenient);
    } else if e.Resume? || e.Answer? || e.Deliver? {
      FetchStep(s, e, lenient);
    } else {
      OtherTaskStep(s, e, lenient);
    }
  }

  lemma StepKeepsInvariant(s: System, e: Event, lenient: string -> Option<int>)
    requires Invariant(s, lenient) && Next(s, e, lenient).Some?
    ensures Invariant(Next(s, e, lenient).value, lenient)
  {
    if e.Acknowledge? {
      AckStep(s, e, lenient);
    } else {
      EffectStep(s, e, lenient);
      TickStep(Effect(s, e, lenient).value, Next(s, e, lenient).value, StoredBy(s, e), lenient);
    }
  }

  lemma LockStep(s: System, id: nat, lenient: string -> Option<int>)
    requires Invariant(s, lenient) && s.lock == None && id !in s.tasks
    ensures Inside(s.(lock := Some(id)), 1, {}, lenient)
  {
    Open(s, 0, {}, lenient);
    var s' := s.(lock := Some(id));
    forall u | u in s'.tasks ensures TaskOk(s', u, 1, lenient) {
      assert TaskOk(s, u, 0, lenient);
    }
    Close(s', 1, {}, lenient);
  }

  lemma SaveOtherStep(s: System, n: nat, offset: Option<int>, wall: int, lenient: string -> Option<int>)
    requires Invariant(s, lenient) && Other(n) in s.cells
    ensures var key := Other(n);
            Inside(s.(cells := s.cells[key := TimeOffset(StateSaved(s.cells[key], Now(s)), offset, wall)]), 1, {}, lenient)
  {
    Open(s, 0, {}, lenient);
    var key := Other(n);
    var s' := s.(cells := s.cells[key := TimeOffset(StateSaved(s.cells[key], Now(s)), offset, wall)]);
    forall u | u in s'.tasks ensures TaskOk(s', u, 1, lenient) {
      assert TaskOk(s, u, 0, lenient);
    }
    Close(s', 1, {}, lenient);
  }

  lemma {:induction false} RunKeepsInvariant(s: System, events: seq<Event>, lenient: string -> Option<int>)
    requires Invariant(s, lenient) && Run(s, events, lenient).Some?
    ensures Invariant(Run(s, events, lenient).value, lenient)
    decreases |events|
  {
    if events != [] {
      StepKeepsInvariant(s, events[0], lenient);
      RunKeepsInvariant(Next(s, events[0], lenient).value, events[1..], lenient);
    }
  }

  // ---- what every run guarantees ------------------------------------------------------------

  ghost predicate Initial(s: System, v: Vectors) {
    && s.cells == map[] && s.tasks == map[] && s.lock == None && s.history == [v]
    && s.lastInvalidated == -1 && s.acknowledged == {} && s.log == [] && !s.lost
  }

  lemma InitialInvariant(s: System, v: Vectors, lenient: string -> Option<int>)
    requires Initial(s, v)
    ensures Invariant(s, lenient)
  {
    Close(s, 0, {}, lenient);
  }

  /** Cache freshness: whatever was read, written, saved, cancelled or timed out, a rule table that
      may be served from the cache is the one the router held after every acknowledged write. */
  lemma CacheIsFresh(s0: System, v: Vectors, events: seq<Event>, lenient: string -> Option<int>)
    requires Initial(s0, v) && Run(s0, events, lenient).Some?
    ensures var s := Run(s0, events, lenient).value;
            PC in s.cells && s.cells[PC].data.Some? && !s.cells[PC].invalidated ==>
              var data := s.cells[PC].data.value;
              && Faithful(s.history, data, lenient)
              && forall c | c in s.acknowledged :: c < data.born
  {
    InitialInvariant(s0, v, lenient);
    RunKeepsInvariant(s0, events, lenient);
    Open(Run(s0, events, lenient).value, 0, {}, lenient);
  }

  /** What a read of the rules is served from the cache, in any reachable state and whether it has waited or not: it
      did not insist on new data, what it gets is younger than the cache time, and it is the table the router held
      at an instant after every acknowledged write. */
  lemma ServedIsFresh(v: Vectors, events: seq<Event>, s: System, force: bool, env: Env, value: Value,
                      lenient: string -> Option<int>)
    requires Reached(v, events, s, lenient)
    requires var cells := Checked(s.cells, PC, env.wall - 2 * s.cacheTime);
             Decided(cells, PC, force, env.hasFinder, env.wall, s.cacheTime) == Serve(value)
    ensures !force && PC in s.cells && s.cells[PC].data == Some(value) && env.wall < s.cells[PC].timestamp + s.cacheTime
    ensures Faithful(s.history, value, lenient) && forall c | c in s.acknowledged :: c < value.born
  {
    ReachedInvariant(v, events, s, lenient);
    Open(s, 0, {}, lenient);
    DecidedIff(Checked(s.cells, PC, env.wall - 2 * s.cacheTime), PC, force, env.hasFinder, env.wall, s.cacheTime);
  }

  /** What becomes of a plain read `id` that went by the decision: served, or without a finder, it is over; otherwise
      it asks its endpoints, while the others wait. */
  ghost predicate Decides(s: System, id: nat, key: AsusData, force: bool, env: Env, s': System)
    requires key in s.cells
  {
    var d := Decided(s.cells, key, force, env.hasFinder, env.wall, s.cacheTime);
    && (!d.Request? ==> id !in s'.tasks)
    && (d.Request? && env.endpoints > 0 ==>
          && id in s'.tasks && key in s'.cells && s'.cells[key].active && !s'.cells[key].released
          && s'.tasks[id] == Fetching(Fetch(key, force, env.any, d.snapshot, Now(s), map[]), env.endpoints, None, Plain))
  }

  lemma BeginReadDecides(s: System, id: nat, key: AsusData, force: bool, env: Env)
    requires key in s.cells
    ensures Decides(s, id, key, force, env, BeginRead(s, id, key, force, Plain, env))
  {
  }

  /** A read that begins while nobody is fetching its datatype goes by the decision. */
  lemma ReadDecides(s: System, id: nat, key: AsusData, force: bool, env: Env, lenient: string -> Option<int>)
    requires s.history != [] && id !in s.tasks && (key in s.cells ==> !s.cells[key].active)
    ensures var checked := s.(cells := Checked(s.cells, key, env.wall - 2 * s.cacheTime));
            var effect := Effect(s, Read(id, key, force, env), lenient);
            effect.Some? && Decides(checked, id, key, force, env, effect.value)
  {
    var checked := s.(cells := Checked(s.cells, key, env.wall - 2 * s.cacheTime));
    EnterReadCells(s, id, key, force, Plain, env, checked);
    BeginReadDecides(checked, id, key, force, env);
  }

  /** And so does one that has waited. */
  lemma ResumeDecides(s: System, id: nat, key: AsusData, force: bool, env: Env, lenient: string -> Option<int>)
    requires s.history != [] && id in s.tasks && s.tasks[id] == Waiting(key, force, Plain) && key in s.cells
    ensures var effect := Effect(s, Resume(id, env), lenient);
            effect.Some? && Decides(s, id, key, force, env, effect.value)
  {
    BeginReadDecides(s, id, key, force, env);
  }

  /** An acknowledged write: the rules in the cache are stale from then on, every snapshot taken before is of an
      older generation, and the task is gone with its lock. */
  lemma AcknowledgedStep(s: System, id: nat, save: bool, wall: int, lenient: string -> Option<int>)
    requires s.history != [] && Next(s, Acknowledge(id, save, wall), lenient).Some?
    ensures var s' := Next(s, Acknowledge(id, save, wall), lenient).value;
            && PC in s'.cells && s'.cells[PC].invalidated && s'.cells[PC].generation == Generation(s.cells, PC) + 1
            && id !in s'.tasks && s'.lock != Some(id) && !s'.lost && s'.log == s.log && Current(s') == Current(s)
            && (s.tasks[id].RuleStored? || s.tasks[id].ScalarStored? ==> s.tasks[id].at in s'.acknowledged)
            && (save && !s.tasks[id].RuleStored? ==> s'.cells[PC].data.Some? && s'.cells[PC].data.value.dict)
            && (!save || s.tasks[id].RuleStored? ==> PC in s.cells ==> s'.cells[PC].data == s.cells[PC].data)
            && forall k | k in s.cells && k != PC :: k in s'.cells && s'.cells[k] == s.cells[k]
  {
  }

  /** A call that fails, at whatever step: its task is gone with its lock, what the router holds and the log stay, and
      whoever waited for its fetch goes on. */
  lemma FailedStep(s: System, id: nat, lenient: string -> Option<int>)
    requires s.history != [] && id in s.tasks
    ensures Next(s, Event.Fail(id), lenient).Some?
    ensures var s' := Next(s, Event.Fail(id), lenient).value;
            && s'.tasks == s.tasks - {id} && s'.lock == (if s.lock == Some(id) then None else s.lock)
            && s'.log == s.log && Current(s') == Current(s) && s'.lost == (s.lost || s.tasks[id].RuleStored?)
            && (s.tasks[id].Fetching? && s.tasks[id].fetch.key in s.cells ==>
                  s'.cells[s.tasks[id].fetch.key] == s.cells[s.tasks[id].fetch.key].(active := false, released := true))
  {
  }

  /** A value saved for any other datatype: its data is a dictionary from then on, and the rules stay as they are. */
  lemma OtherSavedStep(s: System, n: nat, offset: Option<int>, wall: int, lenient: string -> Option<int>)
    requires s.history != [] && Other(n) in s.cells
    ensures Next(s, SaveOther(n, offset, wall), lenient).Some?
    ensures var s' := Next(s, SaveOther(n, offset, wall), lenient).value;
            && s'.cells.Keys == s.cells.Keys && (forall k | k in s.cells && k != Other(n) :: s'.cells[k] == s.cells[k])
            && s'.cells[Other(n)].data.Some? && s'.cells[Other(n)].data.value.dict
            && s'.cells[Other(n)].invalidated == s.cells[Other(n)].invalidated
            && s'.tasks == s.tasks && s'.log == s.log && Current(s') == Current(s)
  {
  }

  /** No orphaned activity flag: an active datatype holds its waiters back only while someone is
      still fetching it, and a reader that waits is released or waits for a live fetch. */
  lemma NobodyWaitsForever(s0: System, v: Vectors, events: seq<Event>, lenient: string -> Option<int>)
    requires Initial(s0, v) && Run(s0, events, lenient).Some?
    ensures var s := Run(s0, events, lenient).value;
            && (forall k | k in s.cells && s.cells[k].active :: !s.cells[k].released && FetchedBySome(s.tasks, k))
            && (forall id | id in s.tasks && s.tasks[id].Waiting? ::
                  var k := s.tasks[id].key;
                  k in s.cells && (s.cells[k].released || FetchedBySome(s.tasks, k)))
  {
    InitialInvariant(s0, v, lenient);
    RunKeepsInvariant(s0, events, lenient);
    var s := Run(s0, events, lenient).value;
    Open(s, 0, {}, lenient);
    forall id | id in s.tasks && s.tasks[id].Waiting?
      ensures var k := s.tasks[id].key; k in s.cells && (s.cells[k].released || FetchedBySome(s.tasks, k))
    {
      assert TaskOk(s, id, 0, lenient);
    }
  }

  ghost predicate SameData(c: Cells, c': Cells) {
    forall k | k in c :: && k in c' && c'[k].data == c[k].data && c'[k].timestamp == c[k].timestamp
                         && c'[k].invalidated == c[k].invalidated && c'[k].generation == c[k].generation
  }

  /** The read as it stands once the answer it got is merged in. */
  function MergedFetch(t: Task): Fetch
    requires t.Fetching? && t.reply.Some?
  {
    t.fetch.(result := Merged(t.fetch.result, t.reply.value))
  }

  /** The answer is the last one the read needs, and the read returns normally. */
  predicate Completes(s: System, e: Event) {
    && e.Deliver? && e.task in s.tasks && s.tasks[e.task].Fetching? && s.tasks[e.task].reply.Some?
    && var t := s.tasks[e.task];
       var f := MergedFetch(t);
       (t.left <= 1 || (f.result != map[] && f.any)) && Succeeds(s.cells, f)
  }

  ghost predicate Reached(v: Vectors, events: seq<Event>, s: System, lenient: string -> Option<int>) {
    exists s0 :: Initial(s0, v) && Run(s0, events, lenient) == Some(s)
  }

  lemma ReachedInvariant(v: Vectors, events: seq<Event>, s: System, lenient: string -> Option<int>)
    requires Reached(v, events, s, lenient)
    ensures Invariant(s, lenient) && s.history != []
  {
    var s0 :| Initial(s0, v) && Run(s0, events, lenient) == Some(s);
    InitialInvariant(s0, v, lenient);
    RunKeepsInvariant(s0, events, lenient);
  }

  lemma UnfinishedSameData(c: Cells, f: Fetch, wall: int)
    requires f.key in c && (Succeeds(c, f) ==> f.result == map[])
    ensures SameData(c, Finished(c, f, wall))
  {
  }

  lemma BegunSameData(c: Cells, key: AsusData, d: Decision)
    requires key in c
    ensures SameData(c, Begun(c, key, d))
  {
  }

  lemma BeginReadCells(s: System, id: nat, key: AsusData, force: bool, purpose: Purpose, env: Env)
    requires key in s.cells
    ensures var d := Decided(s.cells, key, force, env.hasFinder, env.wall, s.cacheTime);
            BeginRead(s, id, key, force, purpose, env).cells ==
            if d.Request? && env.endpoints == 0
            then Finished(s.cells, Fetch(key, force, env.any, d.snapshot, Now(s), map[]), env.wall)
            else Begun(s.cells, key, d)
  {
  }

  lemma BeginReadSameData(s: System, id: nat, key: AsusData, force: bool, purpose: Purpose, env: Env)
    requires key in s.cells
    ensures SameData(s.cells, BeginRead(s, id, key, force, purpose, env).cells)
  {
    var d := Decided(s.cells, key, force, env.hasFinder, env.wall, s.cacheTime);
    BeginReadCells(s, id, key, force, purpose, env);
    BegunSameData(s.cells, key, d);
    if d.Request? {
      UnfinishedSameData(s.cells, Fetch(key, force, env.any, d.snapshot, Now(s), map[]), env.wall);
    }
  }

  lemma CheckedSameData(c: Cells, key: AsusData, expired: int, c': Cells)
    requires SameData(Checked(c, key, expired), c')
    ensures SameData(c, c')
  {
  }

  lemma EnterCheckedSameData(s: System, id: nat, key: AsusData, force: bool, purpose: Purpose, env: Env)
    requires key in s.cells
    ensures SameData(s.cells, EnterChecked(s, id, key, force, purpose, env).cells)
  {
    if !s.cells[key].active {
      BeginReadSameData(s, id, key, force, purpose, env);
    }
  }

  lemma EnterSameData(c: Cells, expired: int, s: System, id: nat, key: AsusData, force: bool, purpose: Purpose, env: Env)
    requires s.cells == Checked(c, key, expired)
    ensures SameData(c, EnterChecked(s, id, key, force, purpose, env).cells)
  {
    EnterCheckedSameData(s, id, key, force, purpose, env);
    CheckedSameData(c, key, expired, EnterChecked(s, id, key, force, purpose, env).cells);
  }

  lemma EnterReadCells(s: System, id: nat, key: AsusData, force: bool, purpose: Purpose, env: Env, s': System)
    requires s' == s.(cells := Checked(s.cells, key, env.wall - 2 * s.cacheTime))
    ensures key in s'.cells
    ensures EnterRead(s, id, key, force, purpose, env) == EnterChecked(s', id, key, force, purpose, env)
  {
  }

  lemma SameOutcome(c: Cells, s: System, s': System)
    requires SameData(c, s.cells) && s' == s
    ensures SameData(c, s'.cells)
  {
  }

  lemma EnterReadSameData(s: System, id: nat, key: AsusData, force: bool, purpose: Purpose, env: Env)
    ensures SameData(s.cells, EnterRead(s, id, key, force, purpose, env).cells)
  {
    var expired := env.wall - 2 * s.cacheTime;
    var s' := s.(cells := Checked(s.cells, key, expired));
    EnterReadCells(s, id, key, force, purpose, env, s');
    EnterSameData(s.cells, expired, s', id, key, force, purpose, env);
    SameOutcome(s.cells, EnterChecked(s', id, key, force, purpose, env), EnterRead(s, id, key, force, purpose, env));
  }

  lemma DeliverSameData(s: System, id: nat, wall: int)
    requires id in s.tasks && s.tasks[id].Fetching? && s.tasks[id].reply.Some? && s.tasks[id].fetch.key in s.cells
    requires !Completes(s, Deliver(id, wall))
    ensures var t := s.tasks[id];
            SameData(s.cells, Delivered(s, id, t.fetch, t.left, t.reply.value, t.purpose, wall).cells)
  {
    var f := MergedFetch(s.tasks[id]);
    if !Succeeds(s.cells, f) {
      UnfinishedSameData(s.cells, f, wall);
    }
  }

  lemma StepSameData(s: System, e: Event, lenient: string -> Option<int>)
    requires Invariant(s, lenient) && s.history != [] && Effect(s, e, lenient).Some?
    requires !Completes(s, e) && !e.Acknowledge? && !e.SaveOther?
    ensures SameData(s.cells, Effect(s, e, lenient).value.cells)
  {
    match e
    case Read(id, key, force, env) => EnterReadSameData(s, id, key, force, Plain, env);
    case CallRule(id, rule, env) => EnterReadSameData(s.(lock := Some(id)), id, PC, true, ForRule(rule), env);
    case Resume(id, env) =>
      BeginReadSameData(s, id, s.tasks[id].key, s.tasks[id].force, s.tasks[id].purpose, env);
    case Deliver(id, wall) => DeliverSameData(s, id, wall);
    case _ =>
  }

  /** A read changes the data, timestamp, staleness and generation of no datatype, at none of its steps,
      but when it returns normally with all it asked for. So one that fails, is cancelled, omits its
      datatype or finds it invalidated changes nothing. */
  lemma OnlyCompletionChangesData(v: Vectors, events: seq<Event>, s: System, e: Event, lenient: string -> Option<int>)
    requires Reached(v, events, s, lenient) && s.history != [] && Next(s, e, lenient).Some?
    requires !Completes(s, e) && !e.Acknowledge? && !e.SaveOther?
    ensures SameData(s.cells, Next(s, e, lenient).value.cells)
  {
    ReachedInvariant(v, events, s, lenient);
    StepSameData(s, e, lenient);
  }

  /** The cells hold a value for `f` that answers given after it started went into, and nothing older; the
      generation is the one of its snapshot. */
  ghost predicate Holds(s: System, f: Fetch, cells: Cells, lenient: string -> Option<int>)
    requires s.history != []
  {
    && f.key in cells && cells[f.key].data.Some? && !cells[f.key].invalidated && !cells[f.key].active
    && f.startedAt < cells[f.key].data.value.born <= Now(s)
    && Generation(cells, f.key) == SnapshotOf(f, f.key)
    && (f.key == PC ==> s.lastInvalidated < f.startedAt && Faithful(s.history, cells[PC].data.value, lenient))
  }

  lemma CompletionCells(s: System, id: nat, wall: int, lenient: string -> Option<int>)
    requires s.history != [] && Completes(s, Deliver(id, wall)) && Next(s, Deliver(id, wall), lenient).Some?
    ensures s.tasks[id].fetch.key in s.cells
    ensures Next(s, Deliver(id, wall), lenient).value.cells == Finished(s.cells, MergedFetch(s.tasks[id]), wall)
  {
  }

  lemma CompletedForcedRead(s: System, id: nat, wall: int, lenient: string -> Option<int>)
    requires Invariant(s, lenient) && s.history != []
    requires Completes(s, Deliver(id, wall)) && s.tasks[id].fetch.force && s.tasks[id].fetch.key in s.cells
    ensures Holds(s, s.tasks[id].fetch, Finished(s.cells, MergedFetch(s.tasks[id]), wall), lenient)
  {
    Open(s, 0, {}, lenient);
    assert TaskOk(s, id, 0, lenient);
    var t := s.tasks[id];
    MergedOk(s, t.fetch, t.reply.value, lenient);
  }

  /** A forced read that returns has installed a value built from answers given after it started,
      and its datatype was not invalidated in between. */
  lemma ForcedReadIsCurrent(v: Vectors, events: seq<Event>, s: System, id: nat, wall: int, lenient: string -> Option<int>)
    requires Reached(v, events, s, lenient) && s.history != [] && Next(s, Deliver(id, wall), lenient).Some?
    requires Completes(s, Deliver(id, wall)) && s.tasks[id].fetch.force
    ensures Holds(s, s.tasks[id].fetch, Next(s, Deliver(id, wall), lenient).value.cells, lenient)
  {
    ReachedInvariant(v, events, s, lenient);
    CompletedForcedRead(s, id, wall, lenient);
    CompletionCells(s, id, wall, lenient);
  }
}
