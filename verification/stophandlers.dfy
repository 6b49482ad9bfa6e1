/** The two places where a stop cancels tasks: the stop button, which raises
    the stop signal, clears the timer and cancels every task not already in
    one of the four guarded statuses; and the top of the batch loop, which,
    once the signal is up, cancels the tasks whose status is exactly
    `pendente`. Both walk the registry and call `UpdateTaskStatus` once per
    selected record. */
module StopHandlers {
  import opened Values
  import opened Text
  import opened Registry

  /** Which records a walk cancels: the stop button takes every record whose
      lower-cased status is not guarded; the batch loop takes the records
      whose status is `pendente`, compared case-sensitively. */
  datatype Selector = UnlessGuarded | OnlyPending

  predicate Selects(sel: Selector, t: Task) {
    match sel
    case UnlessGuarded => Lower(t.status) !in GuardedStates
    case OnlyPending => t.status == "pendente"
  }

  /** A record after `updateTaskStatus(id, 'cancelado', progresso)`. */
  function Cancel(t: Task, progresso: string): (c: Task)
    ensures c == ApplyUpdate(t, "cancelado", progresso, None, None)
  {
    t.(status := "cancelado", progresso := progresso)
  }

  /** The registry with every selected record cancelled, all at once. */
  function Cancelled(tasks: map<string, Task>, sel: Selector, progresso: string): (m: map<string, Task>)
    ensures m.Keys == tasks.Keys
  {
    map id | id in tasks :: if Selects(sel, tasks[id]) then Cancel(tasks[id], progresso) else tasks[id]
  }

  /** The walk as the source performs it: one update per selected record, in
      whatever order the keys come. It reaches the all-at-once registry; the
      active set is rebuilt when at least one record was selected, and
      nothing at all changes otherwise. The stop signal is up and the timer
      is off on entry (both walks run after the stop button) and stay so. */
  method CancelEach(e: Engine, sel: Selector, progresso: string) returns (r: Engine)
    requires e.stop && !e.polling
    ensures r.tasks == Cancelled(e.tasks, sel, progresso)
    ensures r.stop && !r.polling
    ensures (exists id :: id in e.tasks && Selects(sel, e.tasks[id])) ==> r.active == ActiveOf(r.tasks)
    ensures (forall id :: id in e.tasks ==> !Selects(sel, e.tasks[id])) ==> r == e
  {
    r := e;
    var any := false;
    var remaining := e.tasks.Keys;
    while remaining != {}
      invariant Walked(e, sel, progresso, remaining, r, any)
      decreases remaining
    {
      var id :| id in remaining;
      WalkStep(e, sel, progresso, remaining, r, any, id);
      if Selects(sel, r.tasks[id]) {
        r := UpdateTaskStatus(r, id, "cancelado", progresso, None, None);
        any := true;
      }
      remaining := remaining - {id};
    }
    WalkDone(e, sel, progresso, r, any);
  }

  /** The walk's state with `remaining` still to visit: the visited selected
      records are cancelled, the others untouched; the active set is rebuilt
      once anything was cancelled, and the engine is unchanged otherwise. */
  predicate Walked(e: Engine, sel: Selector, progresso: string, remaining: set<string>, r: Engine, any: bool) {
    && remaining <= e.tasks.Keys && r.tasks.Keys == e.tasks.Keys
    && (forall id :: id in e.tasks ==>
          r.tasks[id] == if id !in remaining && Selects(sel, e.tasks[id]) then Cancel(e.tasks[id], progresso) else e.tasks[id])
    && r.stop && !r.polling
    && (any ==> r.active == ActiveOf(r.tasks) && exists id :: id in e.tasks && Selects(sel, e.tasks[id]))
    && (!any ==> r == e && forall id :: id in e.tasks && id !in remaining ==> !Selects(sel, e.tasks[id]))
  }

  lemma WalkStep(e: Engine, sel: Selector, progresso: string, remaining: set<string>, r: Engine, any: bool, id: string)
    requires Walked(e, sel, progresso, remaining, r, any) && id in remaining
    ensures var pick := Selects(sel, r.tasks[id]);
            var r' := if pick then UpdateTaskStatus(r, id, "cancelado", progresso, None, None) else r;
            Walked(e, sel, progresso, remaining - {id}, r', any || pick)
  {
    var t := e.tasks[id];
    assert r.tasks[id] == t;
    if Selects(sel, t) {
      var r' := UpdateTaskStatus(r, id, "cancelado", progresso, None, None);
      CancelUnderStop(r, id, progresso);
      WalkCancel(e, sel, progresso, remaining, r, any, id, r');
    } else {
      WalkSkip(e, sel, progresso, remaining, r, any, id);
    }
  }

  /** Cancelling a record once the signal is up changes that record only,
      rebuilds the active set and leaves the timer off. */
  lemma CancelUnderStop(r: Engine, id: string, progresso: string)
    requires id in r.tasks && r.stop && !r.polling
    ensures var r' := UpdateTaskStatus(r, id, "cancelado", progresso, None, None);
            && r'.tasks == r.tasks[id := Cancel(r.tasks[id], progresso)]
            && r'.active == ActiveOf(r'.tasks) && r'.stop && !r'.polling
  {
  }

  lemma WalkCancel(e: Engine, sel: Selector, progresso: string, remaining: set<string>, r: Engine, any: bool,
                   id: string, r': Engine)
    requires Walked(e, sel, progresso, remaining, r, any) && id in remaining && Selects(sel, e.tasks[id])
    requires r'.tasks == r.tasks[id := Cancel(e.tasks[id], progresso)]
    requires r'.active == ActiveOf(r'.tasks) && r'.stop && !r'.polling
    ensures Walked(e, sel, progresso, remaining - {id}, r', true)
  {
  }

  lemma WalkSkip(e: Engine, sel: Selector, progresso: string, remaining: set<string>, r: Engine, any: bool, id: string)
    requires Walked(e, sel, progresso, remaining, r, any) && id in remaining && !Selects(sel, e.tasks[id])
    ensures Walked(e, sel, progresso, remaining - {id}, r, any)
  {
  }

  lemma WalkDone(e: Engine, sel: Selector, progresso: string, r: Engine, any: bool)
    requires Walked(e, sel, progresso, {}, r, any)
    ensures r.tasks == Cancelled(e.tasks, sel, progresso)
    ensures r.stop && !r.polling
    ensures (exists id :: id in e.tasks && Selects(sel, e.tasks[id])) ==> r.active == ActiveOf(r.tasks)
    ensures (forall id :: id in e.tasks ==> !Selects(sel, e.tasks[id])) ==> r == e
  {
  }

  /** The stop button, all at once: the signal is raised, the timer is
      cleared, every record not in a guarded status is cancelled with
      `Parado pelo usuário`, and the summary is rebuilt. Afterwards no task is
      active and the invariant holds. */
  function StopClicked(e: Engine): (r: Engine)
    ensures r.tasks == Cancelled(e.tasks, UnlessGuarded, "Parado pelo usuário")
    ensures r.stop && !r.polling && r.active == {}
    ensures Inv(r)
  {
    var tasks := Cancelled(e.tasks, UnlessGuarded, "Parado pelo usuário");
    NoneRunningAfterStop(e.tasks);
    Recompute(e.(tasks := tasks, stop := true, polling := false))
  }

  /** After the stop walk every record is guarded, so none is running. */
  lemma NoneRunningAfterStop(tasks: map<string, Task>)
    ensures ActiveOf(Cancelled(tasks, UnlessGuarded, "Parado pelo usuário")) == {}
  {
    var m := Cancelled(tasks, UnlessGuarded, "Parado pelo usuário");
    forall id | id in m
      ensures !Running(m[id].status)
    {
      StoppedNotRunning(tasks[id]);
    }
  }

  /** One record after the stop walk is not running. */
  lemma StoppedNotRunning(t: Task)
    ensures !Running((if Selects(UnlessGuarded, t) then Cancel(t, "Parado pelo usuário") else t).status)
  {
    if Selects(UnlessGuarded, t) {
      assert Lower("cancelado") == "cancelado";
    } else {
      assert t.status != "";
      assert StatusKey(t.status) == Lower(t.status);
    }
  }

  /** The stop button's click handler, step by step: raise the signal, clear
      the timer, walk the registry, rebuild the summary. It ends exactly where
      the all-at-once definition does. */
  method StopButton(e: Engine) returns (r: Engine)
    ensures r == StopClicked(e)
  {
    var e1 := StopProgressPolling(e.(stop := true));
    r := CancelEach(e1, UnlessGuarded, "Parado pelo usuário");
    r := Recompute(r);
  }

  /** A second click changes nothing: every record is then guarded. */
  lemma StopIdempotent(e: Engine)
    ensures StopClicked(StopClicked(e)) == StopClicked(e)
  {
    var r := StopClicked(e);
    assert Cancelled(r.tasks, UnlessGuarded, "Parado pelo usuário") == r.tasks;
  }

  /** The batch loop's sweep, all at once: nothing happens when no record is
      `pendente`; otherwise those records are cancelled with
      `Parado pelo usuário.` and the summary is rebuilt. */
  function SweepPending(e: Engine): (r: Engine)
    ensures r.tasks == Cancelled(e.tasks, OnlyPending, "Parado pelo usuário.")
    ensures r.stop == e.stop
    ensures forall id :: id in r.tasks ==> r.tasks[id].status != "pendente"
  {
    if forall id :: id in e.tasks ==> e.tasks[id].status != "pendente" then
      assert Cancelled(e.tasks, OnlyPending, "Parado pelo usuário.") == e.tasks;
      e
    else
      Recompute(e.(tasks := Cancelled(e.tasks, OnlyPending, "Parado pelo usuário.")))
  }

  /** The sweep step by step, once the stop button has run, ends where the
      all-at-once definition does. */
  method SweepPendingLoop(e: Engine) returns (r: Engine)
    requires e.stop && !e.polling
    ensures r == SweepPending(e)
  {
    r := CancelEach(e, OnlyPending, "Parado pelo usuário.");
  }

  /** The sweep compares the exact text `pendente`: a record whose status is
      `Pendente` is left as it is, although the summary counts it as
      pending. */
  lemma SweepIsCaseSensitive(e: Engine, id: string)
    requires id in e.tasks && e.tasks[id].status == "Pendente"
    ensures SweepPending(e).tasks[id] == e.tasks[id]
    ensures BucketOf(e.tasks[id].status) == PendingBucket
  {
    BucketOfSpec(e.tasks[id].status);
  }
}
