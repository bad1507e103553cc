/** Rule updates under the lock: when every one of them survives, and a run in which one does not. */
module RuleUpdates {
  import opened Text
  import opened ParentalControl
  import opened DataState
  import opened DataCache
  import opened CacheProtocol

  /** One rule update from stored vectors to stored vectors. */
  function Rewrite(v: Vectors, rule: Rule, lenient: string -> Option<int>): Option<Vectors> {
    match View(v, lenient)
    case Fail(_) => None
    case Ok(t) =>
      match Edit(t, rule)
      case None => None
      case Some(t') => Some(WriteRules(t'))
  }

  /** The updates one after the other, in the order the router stored them. */
  function Replay(v: Vectors, log: seq<Rule>, lenient: string -> Option<int>): Option<Vectors>
    decreases |log|
  {
    if log == [] then Some(v)
    else match Replay(v, log[..|log| - 1], lenient)
      case None => None
      case Some(mid) => Rewrite(mid, log[|log| - 1], lenient)
  }

  // ---- what the router holds, and what the lock holder knows of it -----------------------------

  ghost predicate Storing(s: System) {
    s.lock.Some? && s.lock.value in s.tasks && s.tasks[s.lock.value].RuleStored?
  }

  /** The rules on the router have been the same since then. */
  ghost predicate SteadySince(h: seq<Vectors>, since: int) {
    forall i | 0 <= i < |h| && since <= i :: h[i] == h[|h| - 1]
  }

  /** What a task may rely on, given what the router has held so far. */
  ghost predicate Orderly(h: seq<Vectors>, t: Task, lenient: string -> Option<int>)
    requires h != []
  {
    match t
    case Waiting(key, force, purpose) => purpose.ForRule? ==> key == PC && force
    case Fetching(f, _, _, purpose) => purpose.ForRule? ==> f.key == PC && f.force && SteadySince(h, f.startedAt)
    case RuleSent(rule, v) => Rewrite(h[|h| - 1], rule, lenient) == Some(v)
    case RuleStored(_, at) => SteadySince(h, at)
    case _ => true
  }

  /** The log leads to what the router holds; the rules have been the same since the lock holder began to
      read and, unless a stored write ended without a reply, since the last acknowledged one. */
  ghost predicate LogInvariant(s: System, lenient: string -> Option<int>) {
    && s.history != []
    && Replay(s.history[0], s.log, lenient) == Some(Current(s))
    && (forall id | id in s.tasks :: Orderly(s.history, s.tasks[id], lenient))
    && (s.lost || Storing(s) || SteadySince(s.history, s.lastInvalidated + 1))
  }

  /** Task `id` alone has gone on, come or left, and ends orderly; at most its own lock has changed; a stored
      write has gone away only acknowledged or marked as lost. */
  ghost predicate Steady(s: System, s': System, id: nat, lenient: string -> Option<int>)
    requires s.history != []
  {
    && s'.tasks == (if id in s'.tasks then s.tasks[id := s'.tasks[id]] else s.tasks - {id})
    && (s'.lock == s.lock || s.lock == Some(id) || s.lock == None)
    && s'.history == s.history && s'.log == s.log
    && (id in s'.tasks ==> Orderly(s.history, s'.tasks[id], lenient))
    && (s'.lastInvalidated >= Now(s)
        || (s'.lastInvalidated == s.lastInvalidated && (s.lost ==> s'.lost)
            && (id in s.tasks && s.tasks[id].RuleStored? ==> s'.lost)))
  }

  lemma SteadyStep(s: System, s': System, id: nat, after: System, lenient: string -> Option<int>)
    requires LogInvariant(s, lenient) && Steady(s, s', id, lenient)
    requires after == s'.(history := s.history + [Current(s)])
    ensures LogInvariant(after, lenient)
  {
    assert Current(after) == Current(s);
    forall u | u in after.tasks ensures Orderly(after.history, after.tasks[u], lenient) {
      assert Orderly(s.history, after.tasks[u], lenient);
    }
  }

  // ---- how the steps of a task change it --------------------------------------------------------

  ghost predicate RuleRead(key: AsusData, force: bool, purpose: Purpose) {
    purpose.ForRule? ==> key == PC && force
  }

  /** A task that waits for a read or has none yet stored nothing. */
  ghost predicate Idle(s: System, id: nat) {
    id in s.tasks ==> !s.tasks[id].RuleStored?
  }

  lemma EndedSteady(s: System, s': System, id: nat, purpose: Purpose, ok: bool, lenient: string -> Option<int>)
    requires s.history != [] && Idle(s, id)
    requires s' == s.(cells := s'.cells)
    ensures Steady(s, if ok then AfterRead(s', id, purpose) else Leave(s', id), id, lenient)
  {
  }

  lemma RequestSteady(s: System, id: nat, f: Fetch, left: nat, purpose: Purpose, cells: Cells, lenient: string -> Option<int>)
    requires s.history != [] && Idle(s, id) && RuleRead(f.key, f.force, purpose) && f.startedAt == Now(s)
    ensures Steady(s, s.(cells := cells, tasks := s.tasks[id := Fetching(f, left, None, purpose)]), id, lenient)
  {
  }

  lemma BeginReadSteady(s: System, id: nat, key: AsusData, force: bool, purpose: Purpose, env: Env, lenient: string -> Option<int>)
    requires s.history != [] && Idle(s, id) && key in s.cells && RuleRead(key, force, purpose)
    ensures Steady(s, BeginRead(s, id, key, force, purpose, env), id, lenient)
  {
    var d := Decided(s.cells, key, force, env.hasFinder, env.wall, s.cacheTime);
    var cells := Begun(s.cells, key, d);
    if !d.Request? {
      EndedSteady(s, s.(cells := cells), id, purpose, true, lenient);
    } else {
      var f := Fetch(key, force, env.any, d.snapshot, Now(s), map[]);
      if env.endpoints == 0 {
        EndedSteady(s, s.(cells := Finished(s.cells, f, env.wall)), id, purpose, Succeeds(s.cells, f), lenient);
      } else {
        RequestSteady(s, id, f, env.endpoints, purpose, cells, lenient);
      }
    }
  }

  /** Being steady does not depend on the cells it started from. */
  lemma CellsSteady(s: System, cells: Cells, s': System, id: nat, lenient: string -> Option<int>)
    requires s.history != [] && Steady(s.(cells := cells), s', id, lenient)
    ensures Steady(s, s', id, lenient)
  {
  }

  lemma WaitSteady(s: System, id: nat, key: AsusData, force: bool, purpose: Purpose, lenient: string -> Option<int>)
    requires s.history != [] && Idle(s, id) && RuleRead(key, force, purpose)
    ensures Steady(s, s.(tasks := s.tasks[id := Waiting(key, force, purpose)]), id, lenient)
  {
  }

  lemma EnterCheckedSteady(s: System, id: nat, key: AsusData, force: bool, purpose: Purpose, env: Env,
                           lenient: string -> Option<int>)
    requires s.history != [] && Idle(s, id) && key in s.cells && RuleRead(key, force, purpose)
    ensures Steady(s, EnterChecked(s, id, key, force, purpose, env), id, lenient)
  {
    if s.cells[key].active {
      WaitSteady(s, id, key, force, purpose, lenient);
    } else {
      BeginReadSteady(s, id, key, force, purpose, env, lenient);
    }
  }

  lemma EnterReadSteady(s: System, id: nat, key: AsusData, force: bool, purpose: Purpose, env: Env, lenient: string -> Option<int>)
    requires s.history != [] && Idle(s, id) && RuleRead(key, force, purpose)
    ensures Steady(s, EnterRead(s, id, key, force, purpose, env), id, lenient)
  {
    var cells := Checked(s.cells, key, env.wall - 2 * s.cacheTime);
    var s1 := s.(cells := cells);
    EnterReadCells(s, id, key, force, purpose, env, s1);
    EnterCheckedSteady(s1, id, key, force, purpose, env, lenient);
    SteadyAlike(s1, EnterChecked(s1, id, key, force, purpose, env), EnterRead(s, id, key, force, purpose, env), id, lenient);
    CellsSteady(s, cells, EnterRead(s, id, key, force, purpose, env), id, lenient);
  }

  lemma SteadyAlike(s: System, a: System, b: System, id: nat, lenient: string -> Option<int>)
    requires s.history != [] && Steady(s, a, id, lenient) && b == a
    ensures Steady(s, b, id, lenient)
  {
  }

  lemma CallRuleSteady(s: System, id: nat, rule: Rule, env: Env, lenient: string -> Option<int>)
    requires s.history != [] && id !in s.tasks && s.lock == None
    ensures Steady(s, EnterRead(s.(lock := Some(id)), id, PC, true, ForRule(rule), env), id, lenient)
  {
    var locked := s.(lock := Some(id));
    EnterReadSteady(locked, id, PC, true, ForRule(rule), env, lenient);
    LockedSteady(s, locked, EnterRead(locked, id, PC, true, ForRule(rule), env), id, lenient);
  }

  lemma LockedSteady(s: System, locked: System, s': System, id: nat, lenient: string -> Option<int>)
    requires s.history != [] && s.lock == None && locked == s.(lock := Some(id)) && Steady(locked, s', id, lenient)
    ensures Steady(s, s', id, lenient)
  {
  }

  lemma CallSteady(s: System, e: Event, id: nat, lenient: string -> Option<int>)
    requires s.history != [] && Effect(s, e, lenient).Some?
    requires (e.Read? || e.CallRule? || e.CallScalar?) && id == e.task
    ensures Steady(s, Effect(s, e, lenient).value, id, lenient)
  {
    match e
    case Read(id, key, force, env) => EnterReadSteady(s, id, key, force, Plain, env, lenient);
    case CallRule(id, rule, env) => CallRuleSteady(s, id, rule, env, lenient);
    case CallScalar(id) =>
  }

  lemma SaveSteady(s: System, e: Event, id: nat, lenient: string -> Option<int>)
    requires s.history != [] && e.SaveOther? && Effect(s, e, lenient).Some? && id !in s.tasks
    ensures Steady(s, Effect(s, e, lenient).value, id, lenient)
  {
  }

  lemma DeliverSteady(s: System, id: nat, wall: int, lenient: string -> Option<int>)
    requires s.history != [] && id in s.tasks && s.tasks[id].Fetching? && s.tasks[id].reply.Some?
    requires s.tasks[id].fetch.key in s.cells && Orderly(s.history, s.tasks[id], lenient)
    ensures var t := s.tasks[id];
            Steady(s, Delivered(s, id, t.fetch, t.left, t.reply.value, t.purpose, wall), id, lenient)
  {
    var t := s.tasks[id];
    var f := MergedFetch(t);
    EndedSteady(s, s.(cells := Finished(s.cells, f, wall)), id, t.purpose, Succeeds(s.cells, f), lenient);
  }

  lemma FetchSteady(s: System, e: Event, lenient: string -> Option<int>)
    requires s.history != [] && (e.Resume? || e.Answer? || e.Deliver?) && Effect(s, e, lenient).Some?
    requires Orderly(s.history, s.tasks[e.task], lenient)
    ensures Steady(s, Effect(s, e, lenient).value, e.task, lenient)
  {
    match e
    case Resume(id, env) =>
      BeginReadSteady(s, id, s.tasks[id].key, s.tasks[id].force, s.tasks[id].purpose, env, lenient);
    case Deliver(id, wall) => DeliverSteady(s, id, wall, lenient);
    case Answer(_, _) =>
  }

  /** The vectors task `id` would send now are an edit of the ones the router holds. */
  ghost predicate PlanIsCurrent(s: System, id: nat, lenient: string -> Option<int>)
    requires s.history != []
  {
    id in s.tasks && s.tasks[id].RuleReady? && Planned(s.cells, s.tasks[id].rule).Some? ==>
      Rewrite(Current(s), s.tasks[id].rule, lenient) == Planned(s.cells, s.tasks[id].rule)
  }

  lemma TaskSteady(s: System, e: Event, lenient: string -> Option<int>)
    requires s.history != [] && (e.Fail? || e.SetRule? || (e.Store? && !TakesRule(s, e))) && Effect(s, e, lenient).Some?
    requires e.SetRule? ==> PlanIsCurrent(s, e.task, lenient)
    ensures Steady(s, Effect(s, e, lenient).value, e.task, lenient)
  {
  }

  lemma AckSteady(s: System, e: Event, lenient: string -> Option<int>)
    requires s.history != [] && e.Acknowledge? && Effect(s, e, lenient).Some?
    ensures Steady(s, Effect(s, e, lenient).value, e.task, lenient)
  {
  }

  lemma QuietStep(s: System, e: Event, lenient: string -> Option<int>) returns (id: nat)
    requires LogInvariant(s, lenient) && Effect(s, e, lenient).Some? && !e.Foreign? && !TakesRule(s, e)
    requires e.SetRule? ==> PlanIsCurrent(s, e.task, lenient)
    ensures Steady(s, Effect(s, e, lenient).value, id, lenient) && (!e.SaveOther? ==> id == e.task)
  {
    if e.SaveOther? {
      id := Unused(s.tasks.Keys);
      SaveSteady(s, e, id, lenient);
    } else {
      id := e.task;
      if e.Read? || e.CallRule? || e.CallScalar? {
        CallSteady(s, e, id, lenient);
      } else if e.Resume? || e.Answer? || e.Deliver? {
        FetchSteady(s, e, lenient);
      } else if e.Acknowledge? {
        AckSteady(s, e, lenient);
      } else {
        TaskSteady(s, e, lenient);
      }
    }
  }

  lemma {:induction false} Unused(ids: set<nat>) returns (id: nat)
    ensures forall u | u in ids :: u < id
  {
    if ids == {} {
      id := 0;
    } else {
      var u :| u in ids;
      var above := Unused(ids - {u});
      id := if u < above then above else u + 1;
      forall w | w in ids ensures w < id {
        assert w == u || w in ids - {u};
      }
    }
  }

  ghost function TakenBy(s: System, id: nat): System
    requires id in s.tasks && s.tasks[id].RuleSent?
  {
    var t := s.tasks[id];
    s.(tasks := s.tasks[id := RuleStored(t.rule, Now(s) + 1)], log := s.log + [t.rule], history := s.history + [t.vectors])
  }

  lemma TakesRuleNext(s: System, e: Event, lenient: string -> Option<int>)
    requires s.history != [] && TakesRule(s, e)
    ensures Next(s, e, lenient) == Some(TakenBy(s, e.task))
  {
  }

  /** No other task holds the lock, so none depends on the rules staying. */
  lemma OthersStayOrderly(s: System, id: nat, u: nat, lenient: string -> Option<int>)
    requires Invariant(s, lenient) && LogInvariant(s, lenient)
    requires id in s.tasks && s.tasks[id].RuleSent? && u in s.tasks && u != id
    ensures Orderly(TakenBy(s, id).history, s.tasks[u], lenient)
  {
    Open(s, 0, {}, lenient);
    assert TaskOk(s, id, 0, lenient) && TaskOk(s, u, 0, lenient);
    assert Orderly(s.history, s.tasks[u], lenient);
  }

  lemma LogGrows(s: System, id: nat, lenient: string -> Option<int>)
    requires LogInvariant(s, lenient) && id in s.tasks && s.tasks[id].RuleSent?
    ensures var s' := TakenBy(s, id); Replay(s'.history[0], s'.log, lenient) == Some(Current(s'))
  {
    var s' := TakenBy(s, id);
    assert Orderly(s.history, s.tasks[id], lenient);
    assert s'.log[..|s'.log| - 1] == s.log && s'.history[0] == s.history[0];
  }

  /** The router takes a rule write: its vectors change, and the log grows by that update. */
  lemma RuleTaken(s: System, id: nat, lenient: string -> Option<int>)
    requires Invariant(s, lenient) && LogInvariant(s, lenient) && id in s.tasks && s.tasks[id].RuleSent?
    ensures LogInvariant(TakenBy(s, id), lenient) && Current(TakenBy(s, id)) == s.tasks[id].vectors
  {
    var s' := TakenBy(s, id);
    LockOfWriter(s, id, lenient);
    LogGrows(s, id, lenient);
    forall u | u in s'.tasks ensures Orderly(s'.history, s'.tasks[u], lenient) {
      if u != id {
        OthersStayOrderly(s, id, u, lenient);
      }
    }
  }

  lemma LockOfWriter(s: System, id: nat, lenient: string -> Option<int>)
    requires Invariant(s, lenient) && id in s.tasks && s.tasks[id].RuleSent?
    ensures s.lock == Some(id)
  {
    Open(s, 0, {}, lenient);
    assert TaskOk(s, id, 0, lenient);
  }

  lemma StepKeepsLog(s: System, e: Event, lenient: string -> Option<int>)
    requires Invariant(s, lenient) && LogInvariant(s, lenient) && Next(s, e, lenient).Some?
    requires !e.Foreign? && (e.SetRule? ==> PlanIsCurrent(s, e.task, lenient))
    ensures LogInvariant(Next(s, e, lenient).value, lenient)
  {
    if TakesRule(s, e) {
      TakesRuleNext(s, e, lenient);
      RuleTaken(s, e.task, lenient);
    } else {
      var id := QuietStep(s, e, lenient);
      SteadyStep(s, Effect(s, e, lenient).value, id, Next(s, e, lenient).value, lenient);
    }
  }

  // ---- when a plan is current -----------------------------------------------------------------

  /** With no stored write lost since the last acknowledged one, what the lock holder finds in a cache it may
      use is what the router holds at this moment. */
  lemma CachedPlanIsCurrent(s: System, id: nat, lenient: string -> Option<int>)
    requires Invariant(s, lenient) && LogInvariant(s, lenient) && !s.lost
    ensures PlanIsCurrent(s, id, lenient)
  {
    Open(s, 0, {}, lenient);
    if id in s.tasks && s.tasks[id].RuleReady? {
      assert TaskOk(s, id, 0, lenient);
      assert !Storing(s);
      if PC in s.cells && s.cells[PC].data.Some? && !s.cells[PC].invalidated {
        var v := s.cells[PC].data.value;
        assert v.rules.Some? ==> s.history[v.born] == Current(s);
      }
    }
  }

  /** A plan made from a table is an edit of any vectors that read as that table. */
  lemma PlanFromTable(cells: Cells, rule: Rule, v: Vectors, lenient: string -> Option<int>)
    requires PC in cells && cells[PC].data.Some?
    requires cells[PC].data.value.rules.Some? ==> View(v, lenient) == Ok(cells[PC].data.value.rules.value)
    ensures Planned(cells, rule).Some? ==> Rewrite(v, rule, lenient) == Planned(cells, rule)
  {
  }

  /** What a completed forced read of the lock holder left in the cache is what the router holds. */
  lemma CompletedReadIsCurrent(s: System, id: nat, wall: int, lenient: string -> Option<int>)
    requires Invariant(s, lenient) && LogInvariant(s, lenient) && Completes(s, Deliver(id, wall))
    requires s.tasks[id].purpose.ForRule? && s.tasks[id].fetch.key in s.cells
    ensures var cells := Finished(s.cells, MergedFetch(s.tasks[id]), wall);
            && PC in cells && cells[PC].data.Some?
            && (cells[PC].data.value.rules.Some? ==> View(Current(s), lenient) == Ok(cells[PC].data.value.rules.value))
  {
    assert Orderly(s.history, s.tasks[id], lenient);
    CompletedForcedRead(s, id, wall, lenient);
    var v := Finished(s.cells, MergedFetch(s.tasks[id]), wall)[PC].data.value;
    assert v.rules.Some? ==> s.history[v.born] == Current(s);
  }

  lemma CompletionTask(s: System, id: nat, wall: int, lenient: string -> Option<int>)
    requires s.history != [] && Completes(s, Deliver(id, wall)) && Next(s, Deliver(id, wall), lenient).Some?
    ensures var s' := Next(s, Deliver(id, wall), lenient).value;
            && s'.history == s.history + [Current(s)]
            && (id in s'.tasks && s'.tasks[id].RuleReady? ==> s.tasks[id].purpose.ForRule?)
  {
  }

  /** Straight after its forced read the lock holder finds what the router holds, whatever was lost before:
      the rules have been the same since the read began. */
  lemma FreshPlanIsCurrent(s: System, e: Event, lenient: string -> Option<int>)
    requires Invariant(s, lenient) && LogInvariant(s, lenient) && Completes(s, e) && Next(s, e, lenient).Some?
    ensures PlanIsCurrent(Next(s, e, lenient).value, e.task, lenient)
  {
    var id, s' := e.task, Next(s, e, lenient).value;
    CompletionCells(s, id, e.wall, lenient);
    CompletionTask(s, id, e.wall, lenient);
    if id in s'.tasks && s'.tasks[id].RuleReady? {
      CompletedReadIsCurrent(s, id, e.wall, lenient);
      PlanFromTable(s'.cells, s'.tasks[id].rule, Current(s), lenient);
    }
  }

  // ---- every update survives ------------------------------------------------------------------

  /** The task whose read the step completed. */
  function Completed(s: System, e: Event): Option<nat> {
    if Completes(s, e) then Some(e.task) else None
  }

  /** Nobody else writes, and every rule update is planned either straight after its own forced read has
      completed (`ready`), with no other step in between, or while no stored write is lost, or it is refused. */
  ghost predicate Careful(s: System, ready: Option<nat>, events: seq<Event>, lenient: string -> Option<int>)
    requires s.history != []
    decreases |events|
  {
    events == [] ||
    match Next(s, events[0], lenient)
    case None => true
    case Some(s') =>
      && !events[0].Foreign?
      && (events[0].SetRule? ==>
            ready == Some(events[0].task) || !s.lost || Planned(s.cells, s.tasks[events[0].task].rule).None?)
      && Careful(s', Completed(s, events[0]), events[1..], lenient)
  }

  lemma {:induction false} CarefulKeepsLog(s: System, ready: Option<nat>, events: seq<Event>, lenient: string -> Option<int>)
    requires Invariant(s, lenient) && LogInvariant(s, lenient)
    requires Careful(s, ready, events, lenient) && Run(s, events, lenient).Some?
    requires ready.Some? ==> PlanIsCurrent(s, ready.value, lenient)
    ensures var s' := Run(s, events, lenient).value;
            LogInvariant(s', lenient) && s'.history[0] == s.history[0]
    decreases |events|
  {
    if events != [] {
      var e, s' := events[0], Next(s, events[0], lenient).value;
      if e.SetRule? && !s.lost {
        CachedPlanIsCurrent(s, e.task, lenient);
      }
      StepKeepsInvariant(s, e, lenient);
      StepKeepsLog(s, e, lenient);
      if Completes(s, e) {
        FreshPlanIsCurrent(s, e, lenient);
      }
      CarefulKeepsLog(s', Completed(s, e), events[1..], lenient);
    }
  }

  /** No lost rule update, also with calls that end without a reply after the router took their write: the
      vectors on the router are the initial ones rewritten by exactly the stored updates, each computed from
      the vectors its predecessor left. */
  lemma NoLostUpdate(s0: System, v: Vectors, events: seq<Event>, lenient: string -> Option<int>)
    requires Initial(s0, v) && Run(s0, events, lenient).Some? && Careful(s0, None, events, lenient)
    ensures var s := Run(s0, events, lenient).value;
            s.history != [] && Replay(v, s.log, lenient) == Some(Current(s))
  {
    InitialInvariant(s0, v, lenient);
    CarefulKeepsLog(s0, None, events, lenient);
  }

  /** Every stored rule write is acknowledged, whatever else fails. */
  ghost predicate Answered(s: System, events: seq<Event>, lenient: string -> Option<int>)
    requires s.history != []
    decreases |events|
  {
    events == [] ||
    match Next(s, events[0], lenient)
    case None => true
    case Some(s') =>
      && !events[0].Foreign?
      && !(events[0].Fail? && events[0].task in s.tasks && s.tasks[events[0].task].RuleStored?)
      && Answered(s', events[1..], lenient)
  }

  lemma LostStays(s: System, e: Event, lenient: string -> Option<int>)
    requires s.history != [] && Next(s, e, lenient).Some? && !s.lost
    requires e.Fail? ==> !s.tasks[e.task].RuleStored?
    ensures !Next(s, e, lenient).value.lost
  {
  }

  /** Where every stored write is acknowledged, it does not matter when an update is planned. */
  lemma {:induction false} AnsweredIsCareful(s: System, ready: Option<nat>, events: seq<Event>, lenient: string -> Option<int>)
    requires s.history != [] && !s.lost && Answered(s, events, lenient)
    ensures Careful(s, ready, events, lenient)
    decreases |events|
  {
    if events != [] && Next(s, events[0], lenient).Some? {
      LostStays(s, events[0], lenient);
      AnsweredIsCareful(Next(s, events[0], lenient).value, Completed(s, events[0]), events[1..], lenient);
    }
  }

  // ---- the library's own schedule -----------------------------------------------------------------

  ghost predicate Known(s: System) {
    PC in s.cells && s.cells[PC].data.Some?
  }

  /** Once there is data, there is a finder, and it stays. */
  ghost predicate FinderStays(s: System, e: Event) {
    (e.Read? || e.CallRule? || e.Resume?) && Known(s) ==> e.env.hasFinder
  }

  /** Nobody else writes, and an update that is ready to be planned is planned, or fails, at the next step: nothing
      is waited for between its forced read and its plan. */
  ghost predicate Uninterrupted(s: System, events: seq<Event>, lenient: string -> Option<int>)
    requires s.history != []
    decreases |events|
  {
    events == [] ||
    match Next(s, events[0], lenient)
    case None => true
    case Some(s') =>
      && !events[0].Foreign? && FinderStays(s, events[0])
      && (forall id | id in s.tasks && s.tasks[id].RuleReady? ::
            (events[0].SetRule? || events[0].Fail?) && events[0].task == id)
      && Uninterrupted(s', events[1..], lenient)
  }

  /** What is ready is the task whose read has just completed, or it has nothing to go by. */
  ghost predicate ReadyIs(s: System, ready: Option<nat>) {
    forall id | id in s.tasks && s.tasks[id].RuleReady? :: ready == Some(id) || !Known(s)
  }

  lemma BeginReadReady(s: System, id: nat, key: AsusData, force: bool, purpose: Purpose, env: Env)
    requires key in s.cells && RuleRead(key, force, purpose) && (Known(s) ==> env.hasFinder)
    ensures var s' := BeginRead(s, id, key, force, purpose, env);
            id in s'.tasks && s'.tasks[id].RuleReady? ==> !Known(s')
  {
  }

  lemma EnterReadReady(s: System, id: nat, key: AsusData, force: bool, purpose: Purpose, env: Env)
    requires RuleRead(key, force, purpose) && (Known(s) ==> env.hasFinder)
    ensures var s' := EnterRead(s, id, key, force, purpose, env);
            id in s'.tasks && s'.tasks[id].RuleReady? ==> !Known(s')
  {
    var s1 := s.(cells := Checked(s.cells, key, env.wall - 2 * s.cacheTime));
    EnterReadCells(s, id, key, force, purpose, env, s1);
    if !s1.cells[key].active {
      BeginReadReady(s1, id, key, force, purpose, env);
    }
  }

  /** A task that is ready has no data to go by. */
  ghost predicate ReadyBlind(s: System, id: nat) {
    id in s.tasks && s.tasks[id].RuleReady? ==> !Known(s)
  }

  lemma CallReady(s: System, e: Event, lenient: string -> Option<int>)
    requires s.history != [] && Effect(s, e, lenient).Some? && FinderStays(s, e) && (e.Read? || e.CallRule?)
    ensures ReadyBlind(Effect(s, e, lenient).value, e.task)
  {
    match e
    case Read(id, key, force, env) => EnterReadReady(s, id, key, force, Plain, env);
    case CallRule(id, rule, env) => EnterReadReady(s.(lock := Some(id)), id, PC, true, ForRule(rule), env);
  }

  lemma ResumeReady(s: System, e: Event, lenient: string -> Option<int>)
    requires s.history != [] && Effect(s, e, lenient).Some? && FinderStays(s, e) && e.Resume?
    requires Orderly(s.history, s.tasks[e.task], lenient)
    ensures ReadyBlind(Effect(s, e, lenient).value, e.task)
  {
    var t := s.tasks[e.task];
    BeginReadReady(s, e.task, t.key, t.force, t.purpose, e.env);
  }

  lemma DeliverReady(s: System, e: Event, lenient: string -> Option<int>)
    requires s.history != [] && Effect(s, e, lenient).Some? && e.Deliver? && !Completes(s, e)
    ensures ReadyBlind(Effect(s, e, lenient).value, e.task)
  {
  }

  lemma OtherReady(s: System, e: Event, lenient: string -> Option<int>)
    requires s.history != [] && Effect(s, e, lenient).Some?
    requires e.CallScalar? || e.Answer? || e.Fail? || e.SetRule? || e.Store? || e.Acknowledge?
    ensures ReadyBlind(Effect(s, e, lenient).value, e.task)
  {
  }

  /** A task gets ready by the completion of its read, or while there is no data. */
  lemma GetsReady(s: System, e: Event, lenient: string -> Option<int>)
    requires LogInvariant(s, lenient) && Effect(s, e, lenient).Some? && FinderStays(s, e)
    requires !e.Foreign? && !e.SaveOther?
    ensures Completes(s, e) || ReadyBlind(Effect(s, e, lenient).value, e.task)
  {
    if e.Read? || e.CallRule? {
      CallReady(s, e, lenient);
    } else if e.Resume? {
      assert Orderly(s.history, s.tasks[e.task], lenient);
      ResumeReady(s, e, lenient);
    } else if !e.Deliver? {
      OtherReady(s, e, lenient);
    } else if !Completes(s, e) {
      DeliverReady(s, e, lenient);
    }
  }

  lemma StaysReady(s: System, e: Event, id: nat, lenient: string -> Option<int>)
    requires s.history != [] && Next(s, e, lenient).Some? && (e.SetRule? || e.Fail?)
    requires forall u | u in s.tasks && s.tasks[u].RuleReady? :: e.task == u
    ensures var s' := Next(s, e, lenient).value; !(id in s'.tasks && s'.tasks[id].RuleReady?)
  {
  }

  lemma ReadyAfter(s: System, e: Event, lenient: string -> Option<int>)
    requires LogInvariant(s, lenient) && Next(s, e, lenient).Some? && FinderStays(s, e) && !e.Foreign?
    requires forall id | id in s.tasks && s.tasks[id].RuleReady? :: (e.SetRule? || e.Fail?) && e.task == id
    requires e.SetRule? ==> PlanIsCurrent(s, e.task, lenient)
    ensures ReadyIs(Next(s, e, lenient).value, Completed(s, e))
  {
    var s' := Next(s, e, lenient).value;
    forall id | id in s'.tasks && s'.tasks[id].RuleReady? ensures Completed(s, e) == Some(id) || !Known(s') {
      if e.SetRule? || e.Fail? {
        StaysReady(s, e, id, lenient);
      } else {
        OnlyActorChanges(s, e, id, lenient);
        EffectTasks(s, e, lenient);
        GetsReady(s, e, lenient);
      }
    }
  }

  lemma UntouchedTask(s: System, s': System, u: nat, id: nat, lenient: string -> Option<int>)
    requires s.history != [] && Steady(s, s', u, lenient) && id in s'.tasks && id != u
    ensures id in s.tasks && s.tasks[id] == s'.tasks[id]
  {
  }

  lemma EffectTasks(s: System, e: Event, lenient: string -> Option<int>)
    requires s.history != [] && Next(s, e, lenient).Some?
    ensures Effect(s, e, lenient).Some?
    ensures var s' := Next(s, e, lenient).value;
            Effect(s, e, lenient).value == s'.(history := Effect(s, e, lenient).value.history)
  {
  }

  lemma SaveOtherTasks(s: System, e: Event, lenient: string -> Option<int>)
    requires s.history != [] && Next(s, e, lenient).Some? && e.SaveOther?
    ensures Next(s, e, lenient).value.tasks == s.tasks
  {
  }

  /** A task that is ready after the step, and was not before, is the one that took the step. */
  lemma OnlyActorChanges(s: System, e: Event, id: nat, lenient: string -> Option<int>)
    requires LogInvariant(s, lenient) && Next(s, e, lenient).Some? && !e.Foreign? && !e.SetRule?
    requires var s' := Next(s, e, lenient).value; id in s'.tasks && s'.tasks[id].RuleReady?
    requires !(id in s.tasks && s.tasks[id].RuleReady?)
    ensures !e.SaveOther? && !TakesRule(s, e) && e.task == id
  {
    if e.SaveOther? {
      SaveOtherTasks(s, e, lenient);
    } else if TakesRule(s, e) {
      TakesRuleNext(s, e, lenient);
    } else {
      var u := QuietStep(s, e, lenient);
      EffectTasks(s, e, lenient);
      if u != id {
        UntouchedTask(s, Effect(s, e, lenient).value, u, id, lenient);
      }
    }
  }

  /** What is ready without the completed read has nothing to go by, so its plan is refused. */
  lemma ReadyPlans(s: System, ready: Option<nat>, id: nat, lenient: string -> Option<int>)
    requires s.history != [] && ReadyIs(s, ready) && id in s.tasks && s.tasks[id].RuleReady?
    ensures ready == Some(id) || Planned(s.cells, s.tasks[id].rule).None?
  {
  }

  lemma SetRuleReady(s: System, e: Event, lenient: string -> Option<int>)
    requires s.history != [] && e.SetRule? && Next(s, e, lenient).Some?
    ensures e.task in s.tasks && s.tasks[e.task].RuleReady?
  {
  }

  lemma {:induction false} UninterruptedFrom(s: System, ready: Option<nat>, events: seq<Event>, lenient: string -> Option<int>)
    requires Invariant(s, lenient) && LogInvariant(s, lenient) && Uninterrupted(s, events, lenient)
    requires ReadyIs(s, ready) && (ready.Some? ==> PlanIsCurrent(s, ready.value, lenient))
    ensures Careful(s, ready, events, lenient)
    decreases |events|
  {
    if events != [] && Next(s, events[0], lenient).Some? {
      var e, s' := events[0], Next(s, events[0], lenient).value;
      if e.SetRule? {
        SetRuleReady(s, e, lenient);
        ReadyPlans(s, ready, e.task, lenient);
      }
      StepKeepsInvariant(s, e, lenient);
      StepKeepsLog(s, e, lenient);
      ReadyAfter(s, e, lenient);
      if Completes(s, e) {
        FreshPlanIsCurrent(s, e, lenient);
      }
      UninterruptedFrom(s', Completed(s, e), events[1..], lenient);
    }
  }

  /** So where nothing comes between a forced read and its plan, no update is lost, whatever writes go without a
      reply. */
  lemma UninterruptedIsCareful(s0: System, v: Vectors, events: seq<Event>, lenient: string -> Option<int>)
    requires Initial(s0, v) && Uninterrupted(s0, events, lenient)
    ensures Careful(s0, None, events, lenient)
  {
    InitialInvariant(s0, v, lenient);
    UninterruptedFrom(s0, None, events, lenient);
  }

  // ---- what the router then tells -----------------------------------------------------------------

  /** One update from table to table: what is read after the edited table is written. */
  function Applied(t: Table, rule: Rule): Option<Table> {
    match Edit(t, rule)
    case None => None
    case Some(t') => Some(Collect(ReadBack(t')))
  }

  /** The updates as edits of a rule table, with no text in between. */
  function EditAll(t: Table, log: seq<Rule>): Option<Table>
    decreases |log|
  {
    if log == [] then Some(t)
    else match EditAll(t, log[..|log| - 1])
      case None => None
      case Some(mid) => Applied(mid, log[|log| - 1])
  }

  lemma RewriteIsApplied(v: Vectors, t: Table, rule: Rule, lenient: string -> Option<int>)
    requires View(v, lenient) == Ok(t)
    ensures Rewrite(v, rule, lenient).Some? <==> Applied(t, rule).Some?
    ensures Applied(t, rule).Some? ==> View(Rewrite(v, rule, lenient).value, lenient) == Ok(Applied(t, rule).value)
  {
    if Edit(t, rule).Some? {
      ViewIsWritable(v, t, lenient);
      EditWritable(t, rule);
      WriteThenRead(Edit(t, rule).value, lenient);
    }
  }

  /** Whatever table was fetched and whatever the rules: rewriting the text goes through just when editing the table
      does, and the text reads as the table. */
  lemma {:induction false} ReplayIsEditAll(v: Vectors, t: Table, log: seq<Rule>, lenient: string -> Option<int>)
    requires View(v, lenient) == Ok(t)
    ensures Replay(v, log, lenient).Some? <==> EditAll(t, log).Some?
    ensures EditAll(t, log).Some? ==> View(Replay(v, log, lenient).value, lenient) == Ok(EditAll(t, log).value)
    decreases |log|
  {
    if log != [] {
      var front := log[..|log| - 1];
      ReplayIsEditAll(v, t, front, lenient);
      if EditAll(t, front).Some? {
        RewriteIsApplied(Replay(v, front, lenient).value, EditAll(t, front).value, log[|log| - 1], lenient);
      }
    }
  }

  /** Read back through the library, the router holds the initial table with every stored rule
      update applied in order, and nothing else. */
  lemma TableAfterRun(s0: System, v: Vectors, t: Table, events: seq<Event>, lenient: string -> Option<int>)
    requires Initial(s0, v) && Run(s0, events, lenient).Some? && Careful(s0, None, events, lenient)
    requires View(v, lenient) == Ok(t)
    ensures var s := Run(s0, events, lenient).value;
            && s.history != [] && EditAll(t, s.log).Some?
            && View(Current(s), lenient) == Ok(EditAll(t, s.log).value)
  {
    NoLostUpdate(s0, v, events, lenient);
    ReplayIsEditAll(v, t, Run(s0, events, lenient).value.log, lenient);
  }

  /** The rule that stands for a device after the updates: the last one that was about it. */
  function Standing(t: Table, log: seq<Rule>, mac: string): Option<Rule>
    decreases |log|
  {
    if log == [] then Get(t, mac)
    else
      var r := log[|log| - 1];
      if Touched(r) != Some(mac) then Standing(t, log[..|log| - 1], mac)
      else if r.kind == Remove then None
      else CheckedRule(r)
  }

  lemma SoundReads(t: Table)
    requires Sound(t)
    ensures Collect(ReadBack(t)) == Canon(t)
  {
    SoundIsWritable(t);
    BackIsCanonIff(t);
    CollectKeepsRows(ReadBack(t));
  }

  lemma AppliedGet(t: Table, rule: Rule, mac: string)
    requires Sound(t) && Applied(t, rule).Some? && !Misfiled(rule)
    ensures Sound(Applied(t, rule).value)
    ensures Get(Applied(t, rule).value, mac) ==
            AsWritten(if Touched(rule) != Some(mac) then Get(t, mac) else if rule.kind == Remove then None else CheckedRule(rule))
  {
    var t' := Edit(t, rule).value;
    EditSound(t, rule);
    SoundReads(t');
    CanonSound(t');
    CanonGet(t', mac);
    EditGet(t, rule, mac);
  }

  /** From a well-filed table and without misfiled rules, every device has the last rule given to it, the one it
      had where none was, and none where the last update removed it. */
  lemma {:induction false} LastRuleStands(t: Table, log: seq<Rule>, mac: string)
    requires Sound(t) && EditAll(t, log).Some? && forall r | r in log :: !Misfiled(r)
    ensures Sound(EditAll(t, log).value)
    ensures AsWritten(Get(EditAll(t, log).value, mac)) == AsWritten(Standing(t, log, mac))
    decreases |log|
  {
    if log != [] {
      var front, r := log[..|log| - 1], log[|log| - 1];
      LastRuleStands(t, front, mac);
      AppliedGet(EditAll(t, front).value, r, mac);
      AsWrittenTwice(Get(EditAll(t, front).value, mac));
      AsWrittenTwice(CheckedRule(r));
    }
  }

  /** The same of the router after a run. */
  lemma RulesAfterRun(s0: System, v: Vectors, t: Table, events: seq<Event>, mac: string, lenient: string -> Option<int>)
    requires Initial(s0, v) && Run(s0, events, lenient).Some? && Careful(s0, None, events, lenient)
    requires View(v, lenient) == Ok(t) && FaithfulTable(t)
    requires forall r | r in Run(s0, events, lenient).value.log :: !Misfiled(r)
    ensures var s := Run(s0, events, lenient).value;
            && s.history != [] && View(Current(s), lenient).Ok?
            && var after := View(Current(s), lenient).value;
               Sound(after) && AsWritten(Get(after, mac)) == AsWritten(Standing(t, s.log, mac))
  {
    ViewIsWritable(v, t, lenient);
    TableAfterRun(s0, v, t, events, lenient);
    LastRuleStands(t, Run(s0, events, lenient).value.log, mac);
  }

  // ---- where one is lost ------------------------------------------------------------------------

  const FINDER := Env(true, 1, false, 0)

  function Told(born: int, t: Table): Value {
    Value(true, true, born, Some(t))
  }

  function Tells(born: int, t: Table): map<AsusData, Value> {
    map[PC := Told(born, t)]
  }

  /** A plain read is answered, and the answer is slow to arrive. */
  function SlowRead(t: Table): seq<Event> {
    [Read(3, PC, true, FINDER), Answer(3, Tells(1, t))]
  }

  /** Meanwhile a rule update stops waiting for that read and reads for itself; its write is stored without a reply. */
  function FirstUpdate(t: Table, first: Rule): seq<Event> {
    FirstRead(t, first) + FirstWrite()
  }

  function FirstRead(t: Table, first: Rule): seq<Event> {
    [CallRule(1, first, FINDER), Resume(1, FINDER)] + [Answer(1, Tells(4, t)), Deliver(1, 0)]
  }

  function FirstWrite(): seq<Event> {
    [SetRule(1), Store(1), Event.Fail(1)]
  }

  /** The next update reads what the first has left, and while it handles a reboot the slow answer arrives. */
  function SecondUpdate(u: Table, second: Rule): seq<Event> {
    SecondRead(u, second) + SecondWrite()
  }

  function SecondRead(u: Table, second: Rule): seq<Event> {
    [CallRule(2, second, FINDER), Answer(2, Tells(10, u)), Deliver(2, 0)]
  }

  function SecondWrite(): seq<Event> {
    [Deliver(3, 0), SetRule(2), Store(2)]
  }

  /** What a stage of that run needs to know: the clock, what the router holds, the lock, the log, the cached
      data and whether it is being fetched, and the tasks. */
  datatype Scene = Scene(now: int, held: Vectors, lock: Option<nat>, log: seq<Rule>, data: Option<Value>, active: bool,
                         tasks: map<nat, Task>, stale: bool, generations: map<AsusData, nat>)

  ghost predicate Is(s: System, a: Scene) {
    && s.history != [] && Now(s) == a.now && Current(s) == a.held && s.lock == a.lock && s.log == a.log
    && s.tasks == a.tasks && PC in s.cells && Generations(s.cells) == a.generations
    && s.cells[PC].data == a.data && s.cells[PC].active == a.active && s.cells[PC].invalidated == a.stale
  }

  function Reading(generations: map<AsusData, nat>, at: int, reply: Option<map<AsusData, Value>>, purpose: Purpose): Task {
    Fetching(Fetch(PC, true, false, generations, at, map[]), 1, reply, purpose)
  }

  /** What the cached table and the rule make of each other. */
  ghost predicate Sends(t: Table, rule: Rule, w: Vectors) {
    forall cells: Cells, born: int {:trigger Planned(cells, rule), Told(born, t)} | PC in cells && cells[PC].data == Some(Told(born, t)) && !cells[PC].invalidated ::
      Planned(cells, rule) == Some(w)
  }

  ghost predicate Shows(v: Vectors, t: Table, lenient: string -> Option<int>) {
    forall l: string -> Option<int> | l == lenient :: View(v, l) == Ok(t)
  }

  /** From `s` the events lead to `s'`, whatever comes after them. */
  ghost predicate Leads(s: System, events: seq<Event>, s': System, lenient: string -> Option<int>) {
    s.history != [] && s'.history != [] && forall rest :: Run(s, events + rest, lenient) == Run(s', rest, lenient)
  }

  lemma StepLeads(s: System, e: Event, s': System, lenient: string -> Option<int>)
    requires s.history != [] && Next(s, e, lenient) == Some(s')
    ensures Leads(s, [e], s', lenient)
  {
    forall rest ensures Run(s, [e] + rest, lenient) == Run(s', rest, lenient) {
      assert ([e] + rest)[1..] == rest;
    }
  }

  lemma LeadsAt(s: System, events: seq<Event>, s': System, rest: seq<Event>, all: seq<Event>, lenient: string -> Option<int>)
    requires Leads(s, events, s', lenient) && all == events + rest
    ensures Run(s, all, lenient) == Run(s', rest, lenient)
  {
  }

  lemma LeadsOnAt(s: System, a: seq<Event>, mid: System, b: seq<Event>, s': System, rest: seq<Event>,
                  lenient: string -> Option<int>)
    requires Leads(s, a, mid, lenient) && Leads(mid, b, s', lenient)
    ensures Run(s, a + b + rest, lenient) == Run(s', rest, lenient)
  {
    assert a + b + rest == a + (b + rest);
    LeadsAt(s, a, mid, b + rest, a + b + rest, lenient);
    LeadsAt(mid, b, s', rest, b + rest, lenient);
  }

  lemma LeadsOn(s: System, a: seq<Event>, mid: System, b: seq<Event>, s': System, lenient: string -> Option<int>)
    requires Leads(s, a, mid, lenient) && Leads(mid, b, s', lenient)
    ensures Leads(s, a + b, s', lenient)
  {
    forall rest ensures Run(s, a + b + rest, lenient) == Run(s', rest, lenient) {
      LeadsOnAt(s, a, mid, b, s', rest, lenient);
    }
  }

  lemma LeadsTwice(s: System, a: System, b: System, e: Event, f: Event, lenient: string -> Option<int>)
    requires Leads(s, [e], a, lenient) && Leads(a, [f], b, lenient)
    ensures Leads(s, [e, f], b, lenient)
  {
    LeadsOn(s, [e], a, [f], b, lenient);
    assert [e, f] == [e] + [f];
  }

  lemma LeadsThrice(s: System, a: System, b: System, c: System, e: Event, f: Event, g: Event, lenient: string -> Option<int>)
    requires Leads(s, [e], a, lenient) && Leads(a, [f], b, lenient) && Leads(b, [g], c, lenient)
    ensures Leads(s, [e, f, g], c, lenient)
  {
    LeadsTwice(s, a, b, e, f, lenient);
    LeadsOn(s, [e, f], b, [g], c, lenient);
    assert [e, f, g] == [e, f] + [g];
  }

  // the steps of that run

  lemma Reads(s0: System, v: Vectors, lenient: string -> Option<int>) returns (s': System)
    requires Initial(s0, v)
    ensures Leads(s0, [Read(3, PC, true, FINDER)], s', lenient)
    ensures Is(s', Early(1, v, None, [], None, true, map[3 := Reading(RULES_ONLY, 0, None, Plain)]))
  {
    var s1 := s0.(cells := Checked(s0.cells, PC, 0 - 2 * s0.cacheTime));
    EnterReadCells(s0, 3, PC, true, Plain, FINDER, s1);
    s' := BeginRead(s1, 3, PC, true, Plain, FINDER).(history := s0.history + [v]);
    StepLeads(s0, Read(3, PC, true, FINDER), s', lenient);
    assert s'.tasks == map[3 := Reading(RULES_ONLY, 0, None, Plain)] by {
      assert Generations(s1.cells) == map[PC := 0];
    }
  }

  lemma CallEnters(s: System, s1: System, id: nat, rule: Rule, s': System, lenient: string -> Option<int>)
    requires s.history != [] && s.lock == None && id !in s.tasks && PC in s1.cells
    requires s1 == s.(lock := Some(id), cells := Checked(s.cells, PC, 0 - 2 * s.cacheTime))
    requires s' == EnterChecked(s1, id, PC, true, ForRule(rule), FINDER).(history := s.history + [Current(s)])
    ensures Leads(s, [CallRule(id, rule, FINDER)], s', lenient)
  {
    EnterReadCells(s.(lock := Some(id)), id, PC, true, ForRule(rule), FINDER, s1);
    StepLeads(s, CallRule(id, rule, FINDER), s', lenient);
  }

  /** A rule update that finds the datatype being fetched waits, otherwise it fetches. */
  lemma Calls(s: System, a: Scene, id: nat, rule: Rule, lenient: string -> Option<int>) returns (s': System)
    requires Is(s.(cells := Checked(s.cells, PC, 0 - 2 * s.cacheTime)), a) && a.lock == None && id !in a.tasks
    ensures Leads(s, [CallRule(id, rule, FINDER)], s', lenient)
    ensures var t := if a.active then Waiting(PC, true, ForRule(rule)) else Reading(a.generations, a.now, None, ForRule(rule));
            Is(s', a.(now := a.now + 1, lock := Some(id), active := true, tasks := a.tasks[id := t]))
  {
    var s1 := s.(lock := Some(id), cells := Checked(s.cells, PC, 0 - 2 * s.cacheTime));
    s' := EnterChecked(s1, id, PC, true, ForRule(rule), FINDER).(history := s.history + [a.held]);
    CallEnters(s, s1, id, rule, s', lenient);
  }

  lemma Resumes(s: System, a: Scene, id: nat, others: map<nat, Task>, purpose: Purpose, lenient: string -> Option<int>)
    returns (s': System)
    requires Is(s, a) && a.tasks == others[id := Waiting(PC, true, purpose)]
    ensures Leads(s, [Resume(id, FINDER)], s', lenient)
    ensures Is(s', a.(now := a.now + 1, active := true, tasks := others[id := Reading(a.generations, a.now, None, purpose)]))
  {
    s' := BeginRead(s, id, PC, true, purpose, FINDER).(history := s.history + [a.held]);
    StepLeads(s, Resume(id, FINDER), s', lenient);
  }

  lemma IsTold(s: System, a: Scene, id: nat, others: map<nat, Task>, at: int, purpose: Purpose, t: Table,
               lenient: string -> Option<int>)
    returns (s': System)
    requires Is(s, a) && a.tasks == others[id := Reading(a.generations, at, None, purpose)] && Shows(a.held, t, lenient)
    ensures Leads(s, [Answer(id, Tells(a.now, t))], s', lenient)
    ensures Is(s', a.(now := a.now + 1, tasks := others[id := Reading(a.generations, at, Some(Tells(a.now, t)), purpose)]))
  {
    assert View(a.held, lenient) == Ok(t);
    s' := Next(s, Answer(id, Tells(a.now, t)), lenient).value;
    StepLeads(s, Answer(id, Tells(a.now, t)), s', lenient);
  }

  lemma RulesInstalled(cells: Cells, f: Fetch, born: int, t: Table, cells': Cells)
    requires PC in cells && f.key == PC && f.result == Tells(born, t) && f.snapshot == Generations(cells)
    requires cells' == Finished(cells, f, 0)
    ensures Succeeds(cells, f)
    ensures PC in cells' && Generations(cells') == Generations(cells)
    ensures cells'[PC].data == Some(Told(born, t)) && !cells'[PC].active && !cells'[PC].invalidated
  {
    FinishedEach(cells, f, 0, PC);
    assert cells'.Keys == cells.Keys;
  }

  lemma DeliverEnds(s: System, id: nat, f: Fetch, purpose: Purpose, reply: map<AsusData, Value>, cells': Cells,
                    lenient: string -> Option<int>)
    requires s.history != [] && id in s.tasks && s.tasks[id] == Fetching(f, 1, Some(reply), purpose) && f.key in s.cells
    requires var f' := f.(result := Merged(f.result, reply)); Succeeds(s.cells, f') && cells' == Finished(s.cells, f', 0)
    ensures Next(s, Deliver(id, 0), lenient) ==
            Some(AfterRead(s.(cells := cells'), id, purpose).(history := s.history + [Current(s)]))
  {
  }

  /** The read installs what it was told, and its rule update, if it was for one, is ready. */
  lemma Finishes(s: System, a: Scene, id: nat, others: map<nat, Task>, at: int, born: int, purpose: Purpose, t: Table,
                 lenient: string -> Option<int>)
    returns (s': System)
    requires Is(s, a) && PC in a.generations && a.tasks == others[id := Reading(a.generations, at, Some(Tells(born, t)), purpose)] && id !in others
    requires purpose.Plain? ==> a.lock != Some(id)
    ensures Leads(s, [Deliver(id, 0)], s', lenient)
    ensures Is(s', a.(now := a.now + 1, data := Some(Told(born, t)), active := false, stale := false,
                      tasks := if purpose.ForRule? then others[id := RuleReady(purpose.rule)] else others))
  {
    var f := s.tasks[id].fetch;
    var merged := f.(result := Tells(born, t));
    assert Merged(f.result, Tells(born, t)) == Tells(born, t);
    var cells' := Finished(s.cells, merged, 0);
    RulesInstalled(s.cells, merged, born, t, cells');
    DeliverEnds(s, id, f, purpose, Tells(born, t), cells', lenient);
    s' := AfterRead(s.(cells := cells'), id, purpose).(history := s.history + [a.held]);
    StepLeads(s, Deliver(id, 0), s', lenient);
  }

  lemma PlanSends(s: System, a: Scene, rule: Rule, born: int, t: Table, w: Vectors)
    requires Is(s, a) && a.data == Some(Told(born, t)) && !a.stale && Sends(t, rule, w)
    ensures Planned(s.cells, rule) == Some(w)
  {
  }

  lemma SetRuleEffect(s: System, id: nat, rule: Rule, plan: Option<Vectors>, lenient: string -> Option<int>)
    requires s.history != [] && plan == Planned(s.cells, rule) && plan.Some?
    ensures TaskEffect(s, SetRule(id), RuleReady(rule), lenient)
            == Some(s.(tasks := s.tasks[id := RuleSent(rule, plan.value)]))
  {
  }

  lemma SetRuleNext(s: System, id: nat, effect: Option<System>, lenient: string -> Option<int>)
    requires s.history != [] && id in s.tasks && s.tasks[id].RuleReady?
    requires effect == TaskEffect(s, SetRule(id), s.tasks[id], lenient) && effect.Some?
    ensures Next(s, SetRule(id), lenient) == Some(effect.value.(history := s.history + [Current(s)]))
  {
  }

  lemma PlansNext(s: System, a: Scene, id: nat, rule: Rule, born: int, t: Table, w: Vectors, s': System,
                  lenient: string -> Option<int>)
    requires Is(s, a) && a.data == Some(Told(born, t)) && !a.stale && Sends(t, rule, w)
    requires id in s.tasks && s.tasks[id] == RuleReady(rule)
    requires s' == s.(tasks := s.tasks[id := RuleSent(rule, w)], history := s.history + [Current(s)])
    ensures Next(s, SetRule(id), lenient) == Some(s')
  {
    PlanSends(s, a, rule, born, t, w);
    SetRuleEffect(s, id, rule, Some(w), lenient);
    SetRuleNext(s, id, Some(s.(tasks := s.tasks[id := RuleSent(rule, w)])), lenient);
  }

  lemma Plans(s: System, a: Scene, id: nat, others: map<nat, Task>, rule: Rule, born: int, t: Table, w: Vectors,
              lenient: string -> Option<int>)
    returns (s': System)
    requires Is(s, a) && a.tasks == others[id := RuleReady(rule)] && a.data == Some(Told(born, t)) && !a.stale && Sends(t, rule, w)
    ensures Leads(s, [SetRule(id)], s', lenient)
    ensures Is(s', a.(now := a.now + 1, tasks := others[id := RuleSent(rule, w)]))
  {
    s' := s.(tasks := s.tasks[id := RuleSent(rule, w)], history := s.history + [a.held]);
    PlansNext(s, a, id, rule, born, t, w, s', lenient);
    StepLeads(s, SetRule(id), s', lenient);
  }

  lemma IsStored(s: System, a: Scene, id: nat, others: map<nat, Task>, rule: Rule, w: Vectors, lenient: string -> Option<int>)
    returns (s': System)
    requires Is(s, a) && a.tasks == others[id := RuleSent(rule, w)]
    ensures Leads(s, [Store(id)], s', lenient)
    ensures Is(s', a.(now := a.now + 1, held := w, log := a.log + [rule], tasks := others[id := RuleStored(rule, a.now + 1)]))
  {
    s' := Next(s, Store(id), lenient).value;
    StepLeads(s, Store(id), s', lenient);
  }

  lemma IsForgotten(s: System, a: Scene, id: nat, others: map<nat, Task>, rule: Rule, at: int, lenient: string -> Option<int>)
    returns (s': System)
    requires Is(s, a) && a.tasks == others[id := RuleStored(rule, at)] && id !in others && a.lock == Some(id)
    ensures Leads(s, [Event.Fail(id)], s', lenient)
    ensures Is(s', a.(now := a.now + 1, lock := None, tasks := others))
  {
    s' := Next(s, Event.Fail(id), lenient).value;
    StepLeads(s, Event.Fail(id), s', lenient);
  }

  lemma IsAcknowledged(s: System, a: Scene, id: nat, others: map<nat, Task>, rule: Rule, at: int, lenient: string -> Option<int>)
    returns (s': System)
    requires Is(s, a) && a.tasks == others[id := RuleStored(rule, at)] && id !in others && a.lock == Some(id)
    ensures Leads(s, [Acknowledge(id, false, 0)], s', lenient) && at in s'.acknowledged
    ensures Is(s', a.(now := a.now + 1, lock := None, tasks := others, stale := true,
                      generations := a.generations[PC := a.generations[PC] + 1]))
  {
    s' := Next(s, Acknowledge(id, false, 0), lenient).value;
    StepLeads(s, Acknowledge(id, false, 0), s', lenient);
  }

  // an update nothing goes wrong with

  /** The call, the answer it reads, the plan, the write and its acknowledgement. */
  function UpdateEvents(id: nat, born: int, t: Table, rule: Rule): seq<Event> {
    ReadEvents(id, born, t, rule) + WriteEvents(id)
  }

  function ReadEvents(id: nat, born: int, t: Table, rule: Rule): seq<Event> {
    [CallRule(id, rule, FINDER), Answer(id, Tells(born, t)), Deliver(id, 0)]
  }

  /** After the read the rule is ready, and the cache holds what the router does. */
  function ReadScene(a: Scene, id: nat, rule: Rule, t: Table): Scene {
    a.(now := a.now + 3, lock := Some(id), data := Some(Told(a.now + 1, t)), active := false, stale := false,
       tasks := a.tasks[id := RuleReady(rule)])
  }

  lemma UpdateReads(s: System, a: Scene, id: nat, rule: Rule, t: Table, lenient: string -> Option<int>) returns (s': System)
    requires Is(s.(cells := Checked(s.cells, PC, 0 - 2 * s.cacheTime)), a)
    requires a.lock == None && !a.active && id !in a.tasks && Shows(a.held, t, lenient)
    ensures Leads(s, ReadEvents(id, a.now + 1, t, rule), s', lenient) && Is(s', ReadScene(a, id, rule, t))
  {
    var s1 := Calls(s, a, id, rule, lenient);
    var b := a.(now := a.now + 1, lock := Some(id), active := true,
                tasks := a.tasks[id := Reading(a.generations, a.now, None, ForRule(rule))]);
    var s2 := IsTold(s1, b, id, a.tasks, a.now, ForRule(rule), t, lenient);
    b := b.(now := a.now + 2, tasks := a.tasks[id := Reading(a.generations, a.now, Some(Tells(a.now + 1, t)), ForRule(rule))]);
    s' := Finishes(s2, b, id, a.tasks, a.now, a.now + 1, ForRule(rule), t, lenient);
    LeadsThrice(s, s1, s2, s', CallRule(id, rule, FINDER), Answer(id, Tells(a.now + 1, t)), Deliver(id, 0), lenient);
  }

  /** After the write the router holds the vectors sent, and the cache is stale. */
  function WrittenScene(a: Scene, others: map<nat, Task>, rule: Rule, w: Vectors): Scene
    requires PC in a.generations
  {
    a.(now := a.now + 3, held := w, lock := None, log := a.log + [rule], tasks := others, stale := true,
       generations := a.generations[PC := a.generations[PC] + 1])
  }

  function WriteEvents(id: nat): seq<Event> {
    [SetRule(id), Store(id), Acknowledge(id, false, 0)]
  }

  lemma UpdateWrites(s: System, a: Scene, id: nat, others: map<nat, Task>, rule: Rule, born: int, t: Table, w: Vectors,
                     lenient: string -> Option<int>)
    returns (s': System)
    requires Is(s, a) && a.tasks == others[id := RuleReady(rule)] && id !in others && a.lock == Some(id)
    requires a.data == Some(Told(born, t)) && !a.stale && Sends(t, rule, w) && PC in a.generations
    ensures Leads(s, WriteEvents(id), s', lenient) && a.now + 2 in s'.acknowledged
    ensures Is(s', WrittenScene(a, others, rule, w))
  {
    var s1 := Plans(s, a, id, others, rule, born, t, w, lenient);
    var b := a.(now := a.now + 1, tasks := others[id := RuleSent(rule, w)]);
    var s2 := IsStored(s1, b, id, others, rule, w, lenient);
    b := b.(now := a.now + 2, held := w, log := a.log + [rule], tasks := others[id := RuleStored(rule, a.now + 2)]);
    s' := IsAcknowledged(s2, b, id, others, rule, a.now + 2, lenient);
    LeadsThrice(s, s1, s2, s', SetRule(id), Store(id), Acknowledge(id, false, 0), lenient);
  }

  lemma UpdateRuns(s: System, a: Scene, id: nat, t: Table, rule: Rule, w: Vectors, lenient: string -> Option<int>)
    returns (s6: System)
    requires Is(s.(cells := Checked(s.cells, PC, 0 - 2 * s.cacheTime)), a) && a.lock == None && !a.active && id !in a.tasks
    requires Shows(a.held, t, lenient) && Sends(t, rule, w) && PC in a.generations
    ensures Leads(s, UpdateEvents(id, a.now + 1, t, rule), s6, lenient) && a.now + 5 in s6.acknowledged
    ensures Is(s6, WrittenScene(ReadScene(a, id, rule, t), a.tasks, rule, w))
  {
    var s3 := UpdateReads(s, a, id, rule, t, lenient);
    s6 := UpdateWrites(s3, ReadScene(a, id, rule, t), id, a.tasks, rule, a.now + 1, t, w, lenient);
    LeadsOn(s, ReadEvents(id, a.now + 1, t, rule), s3, WriteEvents(id), s6, lenient);
  }

  function SceneOf(s: System, cells: Cells): Scene
    requires s.history != [] && PC in cells
  {
    Scene(Now(s), Current(s), s.lock, s.log, cells[PC].data, cells[PC].active, s.tasks, cells[PC].invalidated, Generations(cells))
  }

  /** What an update that went through has left. */
  ghost predicate Through(s: System, rule: Rule, w: Vectors, r: Option<System>)
    requires s.history != []
  {
    && r.Some? && r.value.history != [] && Current(r.value) == w
    && r.value.log == s.log + [rule] && r.value.lock == None && r.value.tasks == s.tasks
    && PC in r.value.cells && r.value.cells[PC].invalidated && Now(s) + 5 in r.value.acknowledged
  }

  lemma UpdateEnds(s: System, id: nat, t: Table, rule: Rule, w: Vectors, lenient: string -> Option<int>)
    requires s.history != [] && s.lock == None && id !in s.tasks && (PC in s.cells ==> !s.cells[PC].active)
    requires Shows(Current(s), t, lenient) && Sends(t, rule, w)
    ensures Through(s, rule, w, Run(s, UpdateEvents(id, Now(s) + 1, t, rule), lenient))
  {
    var s6 := UpdateRuns(s, SceneOf(s, Checked(s.cells, PC, 0 - 2 * s.cacheTime)), id, t, rule, w, lenient);
    LeadsRuns(s, UpdateEvents(id, Now(s) + 1, t, rule), s6, lenient);
  }

  /** From any state in which the lock is free and nobody fetches the rules, an update that is answered goes through:
      the router holds the table it had with the edit made, the log has grown by it, the write is acknowledged at an
      instant after it was stored, the cached rules are stale, and the lock is free again. */
  lemma UpdateGoesThrough(s: System, id: nat, t: Table, rule: Rule, lenient: string -> Option<int>)
    requires s.history != [] && s.lock == None && id !in s.tasks && (PC in s.cells ==> !s.cells[PC].active)
    requires View(Current(s), lenient) == Ok(t) && Edit(t, rule).Some?
    ensures Through(s, rule, WriteRules(Edit(t, rule).value), Run(s, UpdateEvents(id, Now(s) + 1, t, rule), lenient))
  {
    var w := WriteRules(Edit(t, rule).value);
    ShowsEdited(Current(s), t, rule, w, lenient);
    UpdateEnds(s, id, t, rule, w, lenient);
  }

  /** When there is something to send: the cache holds rules that are not stale, and the edit is accepted. */
  lemma PlannedIff(cells: Cells, rule: Rule)
    ensures Planned(cells, rule).Some? <==>
            && PC in cells && cells[PC].data.Some? && cells[PC].data.value.rules.Some? && !cells[PC].invalidated
            && Edit(cells[PC].data.value.rules.value, rule).Some?
  {
  }

  /** An update with nothing to send gives the lock back, and nothing else happens. */
  lemma RefusedLeaves(s: System, id: nat, rule: Rule, lenient: string -> Option<int>)
    requires s.history != [] && id in s.tasks && s.tasks[id] == RuleReady(rule) && s.lock == Some(id)
    requires Planned(s.cells, rule).None?
    ensures Next(s, SetRule(id), lenient) ==
            Some(s.(tasks := s.tasks - {id}, lock := None, history := s.history + [Current(s)]))
  {
  }

  lemma ScalarCalls(s: System, id: nat, s': System, lenient: string -> Option<int>)
    requires s.history != [] && id !in s.tasks
    requires s' == s.(tasks := s.tasks[id := ScalarSent], history := s.history + [Current(s)])
    ensures Leads(s, [CallScalar(id)], s', lenient)
  {
    StepLeads(s, CallScalar(id), s', lenient);
  }

  lemma ScalarIsStored(s: System, id: nat, s': System, lenient: string -> Option<int>)
    requires s.history != [] && id in s.tasks && s.tasks[id] == ScalarSent
    requires s' == s.(tasks := s.tasks[id := ScalarStored(Now(s) + 1)], history := s.history + [Current(s)])
    ensures Leads(s, [Store(id)], s', lenient)
  {
    StepLeads(s, Store(id), s', lenient);
  }

  lemma ScalarIsAcknowledged(s: System, id: nat, at: int, save: bool, wall: int, lenient: string -> Option<int>)
    returns (s': System)
    requires s.history != [] && id in s.tasks && s.tasks[id] == ScalarStored(at)
    ensures Leads(s, [Acknowledge(id, save, wall)], s', lenient)
    ensures s'.tasks == s.tasks - {id} && s'.log == s.log && Current(s') == Current(s)
    ensures at in s'.acknowledged && PC in s'.cells && s'.cells[PC].invalidated
  {
    s' := Next(s, Acknowledge(id, save, wall), lenient).value;
    AcknowledgedStep(s, id, save, wall, lenient);
    StepLeads(s, Acknowledge(id, save, wall), s', lenient);
  }

  /** A scalar write that is answered goes through: the rules in the cache are stale, and it is acknowledged at an
      instant after it was stored. */
  lemma ScalarGoesThrough(s: System, id: nat, save: bool, wall: int, lenient: string -> Option<int>)
    requires s.history != [] && id !in s.tasks
    ensures var r := Run(s, [CallScalar(id), Store(id)] + [Acknowledge(id, save, wall)], lenient);
            && r.Some? && r.value.history != [] && r.value.tasks == s.tasks && r.value.log == s.log
            && Current(r.value) == Current(s)
            && Now(s) + 2 in r.value.acknowledged && PC in r.value.cells && r.value.cells[PC].invalidated
  {
    var s1 := s.(tasks := s.tasks[id := ScalarSent], history := s.history + [Current(s)]);
    var s2 := s1.(tasks := s1.tasks[id := ScalarStored(Now(s) + 2)], history := s1.history + [Current(s1)]);
    ScalarCalls(s, id, s1, lenient);
    ScalarIsStored(s1, id, s2, lenient);
    var s3 := ScalarIsAcknowledged(s2, id, Now(s) + 2, save, wall, lenient);
    LeadsTwice(s, s1, s2, CallScalar(id), Store(id), lenient);
    LeadsOn(s, [CallScalar(id), Store(id)], s2, [Acknowledge(id, save, wall)], s3, lenient);
    LeadsRuns(s, [CallScalar(id), Store(id)] + [Acknowledge(id, save, wall)], s3, lenient);
  }

  // and the run

  const RULES_ONLY: map<AsusData, nat> := map[PC := 0]

  function Early(now: int, held: Vectors, lock: Option<nat>, log: seq<Rule>, data: Option<Value>, active: bool,
                 tasks: map<nat, Task>): Scene {
    Scene(now, held, lock, log, data, active, tasks, false, RULES_ONLY)
  }

  function Slow(t: Table): map<nat, Task> {
    map[3 := Reading(RULES_ONLY, 0, Some(Tells(1, t)), Plain)]
  }

  lemma ReadsSlowly(s0: System, v: Vectors, t: Table, lenient: string -> Option<int>) returns (s2: System)
    requires Initial(s0, v) && Shows(v, t, lenient)
    ensures Leads(s0, SlowRead(t), s2, lenient) && Is(s2, Early(2, v, None, [], None, true, Slow(t)))
  {
    var s1 := Reads(s0, v, lenient);
    s2 := IsTold(s1, Early(1, v, None, [], None, true, map[3 := Reading(RULES_ONLY, 0, None, Plain)]), 3, map[], 0, Plain, t, lenient);
    LeadsTwice(s0, s1, s2, Read(3, PC, true, FINDER), Answer(3, Tells(1, t)), lenient);
  }

  lemma FirstReads(s2: System, v: Vectors, t: Table, first: Rule, lenient: string -> Option<int>) returns (s6: System)
    requires Is(s2, Early(2, v, None, [], None, true, Slow(t))) && Shows(v, t, lenient)
    ensures Leads(s2, FirstRead(t, first), s6, lenient)
    ensures Is(s6, Early(6, v, Some(1), [], Some(Told(4, t)), false, Slow(t)[1 := RuleReady(first)]))
  {
    var a := Early(2, v, None, [], None, true, Slow(t));
    var s3 := Calls(s2, a, 1, first, lenient);
    a := a.(now := 3, lock := Some(1), tasks := Slow(t)[1 := Waiting(PC, true, ForRule(first))]);
    var s4 := Resumes(s3, a, 1, Slow(t), ForRule(first), lenient);
    a := a.(now := 4, tasks := Slow(t)[1 := Reading(RULES_ONLY, 3, None, ForRule(first))]);
    var s5 := IsTold(s4, a, 1, Slow(t), 3, ForRule(first), t, lenient);
    a := a.(now := 5, tasks := Slow(t)[1 := Reading(RULES_ONLY, 3, Some(Tells(4, t)), ForRule(first))]);
    s6 := Finishes(s5, a, 1, Slow(t), 3, 4, ForRule(first), t, lenient);
    LeadsTwice(s2, s3, s4, CallRule(1, first, FINDER), Resume(1, FINDER), lenient);
    LeadsTwice(s4, s5, s6, Answer(1, Tells(4, t)), Deliver(1, 0), lenient);
    LeadsOn(s2, [CallRule(1, first, FINDER), Resume(1, FINDER)], s4, [Answer(1, Tells(4, t)), Deliver(1, 0)], s6, lenient);
  }

  lemma FirstWrites(s6: System, v: Vectors, t: Table, first: Rule, w: Vectors, lenient: string -> Option<int>)
    returns (s9: System)
    requires Is(s6, Early(6, v, Some(1), [], Some(Told(4, t)), false, Slow(t)[1 := RuleReady(first)])) && Sends(t, first, w)
    ensures Leads(s6, FirstWrite(), s9, lenient)
    ensures Is(s9, Early(9, w, None, [first], Some(Told(4, t)), false, Slow(t)))
  {
    var a := Early(6, v, Some(1), [], Some(Told(4, t)), false, Slow(t)[1 := RuleReady(first)]);
    var s7 := Plans(s6, a, 1, Slow(t), first, 4, t, w, lenient);
    a := a.(now := 7, tasks := Slow(t)[1 := RuleSent(first, w)]);
    var s8 := IsStored(s7, a, 1, Slow(t), first, w, lenient);
    a := a.(now := 8, held := w, log := [first], tasks := Slow(t)[1 := RuleStored(first, 8)]);
    s9 := IsForgotten(s8, a, 1, Slow(t), first, 8, lenient);
    LeadsThrice(s6, s7, s8, s9, SetRule(1), Store(1), Event.Fail(1), lenient);
  }

  lemma SecondReads(s9: System, t: Table, u: Table, first: Rule, second: Rule, w: Vectors, lenient: string -> Option<int>)
    returns (s12: System)
    requires Is(s9, Early(9, w, None, [first], Some(Told(4, t)), false, Slow(t))) && Shows(w, u, lenient)
    ensures Leads(s9, SecondRead(u, second), s12, lenient)
    ensures Is(s12, Early(12, w, Some(2), [first], Some(Told(10, u)), false, Slow(t)[2 := RuleReady(second)]))
  {
    var a := Early(9, w, None, [first], Some(Told(4, t)), false, Slow(t));
    var s10 := Calls(s9, a, 2, second, lenient);
    a := a.(now := 10, lock := Some(2), active := true, tasks := Slow(t)[2 := Reading(RULES_ONLY, 9, None, ForRule(second))]);
    var s11 := IsTold(s10, a, 2, Slow(t), 9, ForRule(second), u, lenient);
    a := a.(now := 11, tasks := Slow(t)[2 := Reading(RULES_ONLY, 9, Some(Tells(10, u)), ForRule(second))]);
    s12 := Finishes(s11, a, 2, Slow(t), 9, 10, ForRule(second), u, lenient);
    LeadsThrice(s9, s10, s11, s12, CallRule(2, second, FINDER), Answer(2, Tells(10, u)), Deliver(2, 0), lenient);
  }

  lemma SecondWrites(s12: System, t: Table, u: Table, first: Rule, second: Rule, w: Vectors, x: Vectors,
                     lenient: string -> Option<int>)
    returns (s15: System)
    requires Is(s12, Early(12, w, Some(2), [first], Some(Told(10, u)), false, Slow(t)[2 := RuleReady(second)]))
    requires Sends(t, second, x)
    ensures Leads(s12, SecondWrite(), s15, lenient)
    ensures Is(s15, Early(15, x, Some(2), [first, second], Some(Told(1, t)), false, map[2 := RuleStored(second, 15)]))
  {
    var a := Early(12, w, Some(2), [first], Some(Told(10, u)), false, Slow(t)[2 := RuleReady(second)]);
    assert a.tasks == map[2 := RuleReady(second)][3 := Reading(RULES_ONLY, 0, Some(Tells(1, t)), Plain)];
    var s13 := Finishes(s12, a, 3, map[2 := RuleReady(second)], 0, 1, Plain, t, lenient);
    a := a.(now := 13, data := Some(Told(1, t)), tasks := map[2 := RuleReady(second)]);
    var s14 := Plans(s13, a, 2, map[], second, 1, t, x, lenient);
    a := a.(now := 14, tasks := map[2 := RuleSent(second, x)]);
    s15 := IsStored(s14, a, 2, map[], second, x, lenient);
    assert [first] + [second] == [first, second];
    LeadsThrice(s12, s13, s14, s15, Deliver(3, 0), SetRule(2), Store(2), lenient);
  }

  lemma FirstRuns(s0: System, v: Vectors, t: Table, first: Rule, w: Vectors, lenient: string -> Option<int>)
    returns (s9: System)
    requires Initial(s0, v) && Shows(v, t, lenient) && Sends(t, first, w)
    ensures Leads(s0, SlowRead(t) + FirstUpdate(t, first), s9, lenient)
    ensures Is(s9, Early(9, w, None, [first], Some(Told(4, t)), false, Slow(t)))
  {
    var s2 := ReadsSlowly(s0, v, t, lenient);
    var s6 := FirstReads(s2, v, t, first, lenient);
    s9 := FirstWrites(s6, v, t, first, w, lenient);
    LeadsOn(s2, FirstRead(t, first), s6, FirstWrite(), s9, lenient);
    LeadsOn(s0, SlowRead(t), s2, FirstUpdate(t, first), s9, lenient);
  }

  lemma LosingRun(s0: System, v: Vectors, t: Table, u: Table, first: Rule, second: Rule, w: Vectors, x: Vectors,
                  lenient: string -> Option<int>)
    returns (s15: System)
    requires Initial(s0, v) && Shows(v, t, lenient) && Shows(w, u, lenient) && Sends(t, first, w) && Sends(t, second, x)
    ensures Leads(s0, SlowRead(t) + FirstUpdate(t, first) + SecondUpdate(u, second), s15, lenient)
    ensures Is(s15, Early(15, x, Some(2), [first, second], Some(Told(1, t)), false, map[2 := RuleStored(second, 15)]))
  {
    var s9 := FirstRuns(s0, v, t, first, w, lenient);
    var s12 := SecondReads(s9, t, u, first, second, w, lenient);
    s15 := SecondWrites(s12, t, u, first, second, w, x, lenient);
    LeadsOn(s9, SecondRead(u, second), s12, SecondWrite(), s15, lenient);
    LeadsOn(s0, SlowRead(t) + FirstUpdate(t, first), s9, SecondUpdate(u, second), s15, lenient);
  }

  lemma LeadsRuns(s: System, events: seq<Event>, s': System, lenient: string -> Option<int>)
    requires Leads(s, events, s', lenient)
    ensures Run(s, events, lenient) == Some(s')
  {
    assert events + [] == events;
    assert Run(s', [], lenient) == Some(s');
  }

  /** Across the handling of a reboot an update can be lost, whatever the fetched table and whatever the two accepted
      rules: both are stored, each after its own forced read, and the router holds the table with the second only. */
  lemma UpdateLost(s0: System, v: Vectors, t: Table, first: Rule, second: Rule, lenient: string -> Option<int>)
    requires Initial(s0, v) && View(v, lenient) == Ok(t)
    requires Edit(t, first).Some? && Edit(t, second).Some?
    ensures var events := SlowRead(t) + FirstUpdate(t, first) + SecondUpdate(Applied(t, first).value, second);
            var r := Run(s0, events, lenient);
            && r.Some? && r.value.log == [first, second]
            && r.value.history != [] && Current(r.value) == WriteRules(Edit(t, second).value)
  {
    var w, x, u := WriteRules(Edit(t, first).value), WriteRules(Edit(t, second).value), Applied(t, first).value;
    ShowsEdited(v, t, first, w, lenient);
    var s15 := LosingRun(s0, v, t, u, first, second, w, x, lenient);
    LeadsRuns(s0, SlowRead(t) + FirstUpdate(t, first) + SecondUpdate(u, second), s15, lenient);
  }

  lemma ShowsEdited(v: Vectors, t: Table, first: Rule, w: Vectors, lenient: string -> Option<int>)
    requires View(v, lenient) == Ok(t) && Edit(t, first).Some? && w == WriteRules(Edit(t, first).value)
    ensures Shows(v, t, lenient) && Shows(w, Applied(t, first).value, lenient)
  {
    RewriteIsApplied(v, t, first, lenient);
  }

  lemma BlankRuleAccepted(mac: string)
    requires IsMac(mac)
    ensures var r := Rule(Some(mac), None, None, Block);
            CheckedRule(r).Some? && !Misfiled(r) && Touched(r) == Some(mac)
  {
    CheckedTwice(Rule(Some(mac), None, None, Block));
  }

  /** So with two new devices, from a router that knows none: both rules are stored, and the first is gone. */
  lemma FirstRuleGone(s0: System, one: string, two: string, lenient: string -> Option<int>)
    requires Initial(s0, Vectors("", "", "", "")) && IsMac(one) && IsMac(two) && one != two
    ensures var first, second := Rule(Some(one), None, None, Block), Rule(Some(two), None, None, Block);
            && Edit([], first).Some?
            && var events := SlowRead([]) + FirstUpdate([], first) + SecondUpdate(Applied([], first).value, second);
               var r := Run(s0, events, lenient);
               && r.Some? && r.value.log == [first, second] && r.value.history != []
               && var after := View(Current(r.value), lenient);
                  after.Ok? && Get(after.value, one) == None && Get(after.value, two).Some?
  {
    var first, second := Rule(Some(one), None, None, Block), Rule(Some(two), None, None, Block);
    BlankRuleAccepted(one);
    EmptyRouter(lenient);
    SecondAlone(second, one, two, lenient);
    UpdateLost(s0, Vectors("", "", "", ""), [], first, second, lenient);
  }

  lemma EmptyRouter(lenient: string -> Option<int>)
    ensures View(Vectors("", "", "", ""), lenient) == Ok([])
  {
  }

  lemma SecondAlone(second: Rule, one: string, two: string, lenient: string -> Option<int>)
    requires second == Rule(Some(two), None, None, Block) && IsMac(two) && one != two
    ensures Edit([], second).Some?
    ensures var after := View(WriteRules(Edit([], second).value), lenient);
            after.Ok? && Get(after.value, one) == None && Get(after.value, two).Some?
  {
    BlankRuleAccepted(two);
    EmptyRouter(lenient);
    RewriteIsApplied(Vectors("", "", "", ""), [], second, lenient);
    AppliedGet([], second, one);
    AppliedGet([], second, two);
  }
}
