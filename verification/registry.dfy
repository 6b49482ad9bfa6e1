/** The task registry and the engine state around it: one record per task,
    the set of task ids still worth polling, the cooperative stop flag and
    whether the polling timer runs. `UpdateTaskStatus` is the single mutation
    point for a record's status; every successful call rebuilds the summary
    and the active set from scratch (`Recompute`) and starts or stops the
    timer. */
module Registry {
  import opened Values
  import opened Text
  import opened Config

  /** The concrete targets chosen for a task once its book is known. */
  datatype Targets = Targets(readTime: int, readPercent: int, maxQuestions: int, bookSlug: string, bookName: string)

  /** `params`: the batch settings, plus the targets once they are computed. */
  datatype Params = Params(settings: Settings, targets: Option<Targets>)

  /** One task record: id, login (`ra`), password, status, progress line,
      book name, parameters and an optional detail message. */
  datatype Task = Task(
    referId: string,
    ra: string,
    password: string,
    status: string,
    progresso: string,
    bookName: string,
    params: Params,
    message: Option<string>)

  /** The shared state: the registry, the active ids, the stop signal and
      whether the polling timer is set. */
  datatype Engine = Engine(tasks: map<string, Task>, active: set<string>, stop: bool, polling: bool)

  /** The six statuses the summary and the poller treat as final. */
  const FinalStates: set<string> := {"concluido", "erro", "falha", "cancelado", "inativo", "nao encontrado"}

  /** The four statuses the orchestrator's error path and the stop button
      refuse to overwrite. */
  const GuardedStates: set<string> := {"concluido", "erro", "falha", "cancelado"}

  /** A status as compared: lower-cased, `desconhecido` when blank. */
  function StatusKey(status: string): string {
    Lower(OrElse(status, "desconhecido"))
  }

  /** A status worth polling: neither `pendente` nor final, once
      lower-cased. */
  predicate Running(status: string) {
    StatusKey(status) != "pendente" && StatusKey(status) !in FinalStates
  }

  /** The summary bucket a status falls in. */
  datatype Bucket = PendingBucket | RunningBucket | CompletedBucket | ErrorBucket

  /** The classification of `updateSummaryAndPolling`: `concluido` is
      completed, `pendente` pending, the other final states errors, and
      everything else (including a blank status) running. */
  function BucketOf(status: string): Bucket {
    var key := StatusKey(status);
    if key == "concluido" then CompletedBucket
    else if key == "pendente" then PendingBucket
    else if key in FinalStates then ErrorBucket
    else RunningBucket
  }

  /** Each bucket, stated both ways in terms of the lower-cased status. */
  lemma BucketOfSpec(status: string)
    ensures BucketOf(status) == CompletedBucket <==> StatusKey(status) == "concluido"
    ensures BucketOf(status) == PendingBucket <==> StatusKey(status) == "pendente"
    ensures BucketOf(status) == ErrorBucket <==> StatusKey(status) in FinalStates - {"concluido"}
    ensures BucketOf(status) == RunningBucket <==> Running(status)
  {
  }

  /** Each registered id's bucket. */
  function Buckets<K>(tasks: map<K, Task>): (m: map<K, Bucket>)
    ensures m.Keys == tasks.Keys
  {
    map id | id in tasks :: BucketOf(tasks[id].status)
  }

  /** The ids among `ids` that `m` puts in bucket `b`. */
  function Among<K>(m: map<K, Bucket>, ids: set<K>, b: Bucket): (r: set<K>)
    ensures r <= ids
  {
    set id | id in ids && id in m && m[id] == b
  }

  /** The ids of a registry whose status is in bucket `b`. */
  function BucketIds<K>(tasks: map<K, Task>, b: Bucket): (ids: set<K>)
    ensures ids <= tasks.Keys
  {
    Among(Buckets(tasks), tasks.Keys, b)
  }

  /** The active set as rebuilt from scratch: exactly the registered ids whose
      lower-cased status is neither `pendente` nor final. */
  function ActiveOf<K(!new)>(tasks: map<K, Task>): (a: set<K>)
    ensures a <= tasks.Keys
    ensures forall id :: id in a <==> id in tasks && Running(tasks[id].status)
  {
    forall id | id in tasks {
      BucketOfSpec(tasks[id].status);
    }
    BucketIds(tasks, RunningBucket)
  }

  /** The counts shown above the task table. */
  datatype Summary = Summary(total: nat, pending: nat, running: nat, completed: nat, error: nat)

  function SummaryOf<K>(tasks: map<K, Task>): Summary {
    Summary(
      |tasks|,
      |BucketIds(tasks, PendingBucket)|,
      |BucketIds(tasks, RunningBucket)|,
      |BucketIds(tasks, CompletedBucket)|,
      |BucketIds(tasks, ErrorBucket)|)
  }

  /** Every task is counted exactly once: the total is the sum of the four
      buckets, and the running count is the size of the active set. */
  lemma SummaryPartition<K(!new)>(tasks: map<K, Task>)
    ensures var s := SummaryOf(tasks);
            s.total == s.pending + s.running + s.completed + s.error
    ensures SummaryOf(tasks).running == |ActiveOf(tasks)|
  {
    var p := BucketIds(tasks, PendingBucket);
    var r := BucketIds(tasks, RunningBucket);
    var c := BucketIds(tasks, CompletedBucket);
    var x := BucketIds(tasks, ErrorBucket);
    assert tasks.Keys == p + r + c + x;
    assert p !! r && p !! c && p !! x && r !! c && r !! x && c !! x;
    assert |p + r| == |p| + |r|;
    assert |p + r + c| == |p + r| + |c|;
    assert |p + r + c + x| == |p + r + c| + |x|;
    assert |tasks| == |tasks.Keys|;
  }

  /** The summary counted over the ids `ids` only. */
  function Tally<K>(m: map<K, Bucket>, ids: set<K>): Summary {
    Summary(
      |ids|,
      |Among(m, ids, PendingBucket)|,
      |Among(m, ids, RunningBucket)|,
      |Among(m, ids, CompletedBucket)|,
      |Among(m, ids, ErrorBucket)|)
  }

  /** One record counted: the total and the record's own bucket go up. */
  function Bump(s: Summary, b: Bucket): Summary {
    var s := s.(total := s.total + 1);
    match b
    case CompletedBucket => s.(completed := s.completed + 1)
    case PendingBucket => s.(pending := s.pending + 1)
    case ErrorBucket => s.(error := s.error + 1)
    case RunningBucket => s.(running := s.running + 1)
  }

  /** The summary recompute as the source performs it: one pass over the
      registry, counting each record in its bucket and adding the running ones
      to an active set that starts empty. It yields the summary and the
      active set defined above, and every record is counted once. */
  method ComputeSummary<K(!new)>(tasks: map<K, Task>) returns (s: Summary, active: set<K>)
    ensures s == SummaryOf(tasks)
    ensures active == ActiveOf(tasks)
    ensures s.total == s.pending + s.running + s.completed + s.error
  {
    var m := Buckets(tasks);
    s := Summary(0, 0, 0, 0, 0);
    active := {};
    var done: set<K> := {};
    var remaining := tasks.Keys;
    while remaining != {}
      invariant Counted(m, remaining, done, s, active)
      decreases remaining
    {
      var id :| id in remaining;
      var b := m[id];
      CountStep(m, remaining, done, s, active, id);
      s := Bump(s, b);
      active := active + (if b == RunningBucket then {id} else {});
      done := done + {id};
      remaining := remaining - {id};
    }
    CountedAll(tasks, m, done, s, active);
  }

  lemma CountedAll<K(!new)>(tasks: map<K, Task>, m: map<K, Bucket>, done: set<K>, s: Summary, active: set<K>)
    requires m == Buckets(tasks) && Counted(m, {}, done, s, active)
    ensures s == SummaryOf(tasks) && active == ActiveOf(tasks)
    ensures s.total == s.pending + s.running + s.completed + s.error
  {
    assert |tasks| == |tasks.Keys|;
  }

  /** The loop state after counting the ids `done`, with `remaining` still to go. */
  predicate Counted<K>(m: map<K, Bucket>, remaining: set<K>, done: set<K>, s: Summary, active: set<K>) {
    && remaining <= m.Keys && done == m.Keys - remaining
    && s == Tally(m, done)
    && active == Among(m, done, RunningBucket)
    && s.total == s.pending + s.running + s.completed + s.error
  }

  lemma CountStep<K>(m: map<K, Bucket>, remaining: set<K>, done: set<K>, s: Summary, active: set<K>, id: K)
    requires Counted(m, remaining, done, s, active) && id in remaining
    ensures Counted(m, remaining - {id}, done + {id}, Bump(s, m[id]),
                    active + (if m[id] == RunningBucket then {id} else {}))
  {
    TallyInsert(m, done, id);
  }

  /** Counting one more id bumps exactly its own bucket, and adds it to the
      running ids when it runs. */
  lemma TallyInsert<K>(m: map<K, Bucket>, done: set<K>, id: K)
    requires id in m && id !in done
    ensures Tally(m, done + {id}) == Bump(Tally(m, done), m[id])
    ensures Among(m, done + {id}, RunningBucket) ==
            Among(m, done, RunningBucket) + (if m[id] == RunningBucket then {id} else {})
  {
    AmongInsert(m, done, id, PendingBucket);
    AmongInsert(m, done, id, RunningBucket);
    AmongInsert(m, done, id, CompletedBucket);
    AmongInsert(m, done, id, ErrorBucket);
    if m[id] == RunningBucket {
      assert Among(m, done + {id}, RunningBucket) == Among(m, done, RunningBucket) + {id};
    } else {
      assert Among(m, done + {id}, RunningBucket) == Among(m, done, RunningBucket);
    }
  }

  /** Counting one more id adds it to its own bucket and to no other. */
  lemma AmongInsert<K>(m: map<K, Bucket>, done: set<K>, id: K, b: Bucket)
    requires id in m && id !in done
    ensures |Among(m, done + {id}, b)| == |Among(m, done, b)| + (if m[id] == b then 1 else 0)
  {
    var before := Among(m, done, b);
    if m[id] == b {
      assert Among(m, done + {id}, b) == before + {id};
    } else {
      assert Among(m, done + {id}, b) == before;
    }
  }

  /** `startProgressPolling`: does nothing when the timer already runs; sets
      it, and asks for an immediate fetch, when some task is active and no
      stop was signalled. */
  function StartProgressPolling(e: Engine): (r: (Engine, bool))
    ensures r.0.tasks == e.tasks && r.0.active == e.active && r.0.stop == e.stop
    ensures r.0.polling <==> e.polling || (e.active != {} && !e.stop)
    ensures r.1 <==> !e.polling && r.0.polling
  {
    if e.polling then (e, false)
    else if e.active != {} && !e.stop then (e.(polling := true), true)
    else (e, false)
  }

  /** `stopProgressPolling`: clears the timer whether or not it was set. */
  function StopProgressPolling(e: Engine): (r: Engine)
    ensures r.tasks == e.tasks && r.active == e.active && r.stop == e.stop
    ensures !r.polling
  {
    e.(polling := false)
  }

  /** Starting or stopping the timer twice is the same as doing it once. */
  lemma TimerIdempotent(e: Engine)
    ensures StartProgressPolling(StartProgressPolling(e).0).0 == StartProgressPolling(e).0
    ensures !StartProgressPolling(StartProgressPolling(e).0).1
    ensures StopProgressPolling(StopProgressPolling(e)) == StopProgressPolling(e)
  {
  }

  /** `updateSummaryAndPolling`: rebuilds the active set from the registry,
      starts the timer when the set is non-empty and no stop was signalled,
      and stops it when the set is empty. Without a stop signal the timer then
      runs exactly when some task is active; with one it is never started. */
  function Recompute(e: Engine): (r: Engine)
    ensures r.tasks == e.tasks && r.stop == e.stop
    ensures r.active == ActiveOf(e.tasks)
    ensures !e.stop ==> (r.polling <==> r.active != {})
    ensures e.stop ==> (r.polling <==> e.polling && r.active != {})
  {
    var a := ActiveOf(e.tasks);
    var e1 := e.(active := a);
    if a != {} && !e.polling && !e.stop then StartProgressPolling(e1).0
    else if a == {} && e.polling then StopProgressPolling(e1)
    else e1
  }

  /** The new record written by `updateTaskStatus`: status and progress are
      always overwritten, the book name only by a non-empty value, the detail
      message only by a non-empty value different from the progress line. */
  function ApplyUpdate(t: Task, status: string, progresso: string, bookName: Option<string>, message: Option<string>): Task {
    t.(status := status,
       progresso := progresso,
       bookName := Or(bookName, t.bookName),
       message := if Truthy(message) && message.value != progresso then message else t.message)
  }

  /** `updateTaskStatus`. An unknown id leaves the engine as it is. For a known
      id, the status and the progress line are replaced; the book name and the
      detail message are sticky; login, password and parameters are kept;
      no other record changes; and the active set is rebuilt. */
  function UpdateTaskStatus(e: Engine, id: string, status: string, progresso: string,
                            bookName: Option<string>, message: Option<string>): (r: Engine)
    ensures id !in e.tasks ==> r == e
    ensures id in e.tasks ==> r.tasks.Keys == e.tasks.Keys
    ensures id in e.tasks ==>
      var t, t' := e.tasks[id], r.tasks[id];
      && t'.status == status
      && t'.progresso == progresso
      && (Truthy(bookName) ==> t'.bookName == bookName.value)
      && (!Truthy(bookName) ==> t'.bookName == t.bookName)
      && (Truthy(message) && message.value != progresso ==> t'.message == message)
      && (!(Truthy(message) && message.value != progresso) ==> t'.message == t.message)
      && t'.referId == t.referId && t'.ra == t.ra && t'.password == t.password && t'.params == t.params
      && (forall other :: other in e.tasks && other != id ==> r.tasks[other] == e.tasks[other])
      && r.active == ActiveOf(r.tasks)
      && r.stop == e.stop
  {
    if id !in e.tasks then e
    else Recompute(e.(tasks := e.tasks[id := ApplyUpdate(e.tasks[id], status, progresso, bookName, message)]))
  }

  /** Repeating an update changes nothing more. */
  lemma UpdateIdempotent(e: Engine, id: string, status: string, progresso: string,
                         bookName: Option<string>, message: Option<string>)
    ensures var once := UpdateTaskStatus(e, id, status, progresso, bookName, message);
            UpdateTaskStatus(once, id, status, progresso, bookName, message) == once
  {
    var once := UpdateTaskStatus(e, id, status, progresso, bookName, message);
    if id in e.tasks {
      var t := once.tasks[id];
      assert ApplyUpdate(t, status, progresso, bookName, message) == t;
      assert once.tasks[id := t] == once.tasks;
    }
  }

  /** The engine invariant: the active set is exactly the non-pending,
      non-final registered ids (so it holds only registered ids), and the
      timer runs exactly when that set is non-empty and no stop was
      signalled. */
  predicate Inv(e: Engine) {
    && e.active == ActiveOf(e.tasks)
    && (e.polling <==> e.active != {} && !e.stop)
  }

  /** Every recompute restores the invariant, whatever the timer was when no
      stop is signalled, and keeps it under a stop signal. */
  lemma RecomputeRestoresInv(e: Engine)
    requires !e.stop || !e.polling
    ensures Inv(Recompute(e))
  {
  }

  /** `updateTaskStatus` keeps the invariant; a task moved to a final or
      pending status leaves the active set, any other status puts it in. */
  lemma UpdateKeepsInv(e: Engine, id: string, status: string, progresso: string,
                       bookName: Option<string>, message: Option<string>)
    requires Inv(e)
    ensures var r := UpdateTaskStatus(e, id, status, progresso, bookName, message);
            && Inv(r)
            && (id in e.tasks ==> (id in r.active <==> Running(status)))
  {
  }

  /** Every record is stored under its own id. The summary adds a running
      record's `refer_id` field to the active set; under this invariant that
      is its key, which is what `ActiveOf` collects. */
  predicate KeyedById(tasks: map<string, Task>) {
    forall id :: id in tasks ==> tasks[id].referId == id
  }

  /** Updates never re-key a record. */
  lemma UpdateKeepsKeyedById(e: Engine, id: string, status: string, progresso: string,
                             bookName: Option<string>, message: Option<string>)
    requires KeyedById(e.tasks)
    ensures KeyedById(UpdateTaskStatus(e, id, status, progresso, bookName, message).tasks)
  {
  }

  /** A record is well formed when its book name is never blank and a detail
      message, when present, is non-empty. */
  predicate WellFormedTask(t: Task) {
    t.bookName != "" && (t.message.None? || t.message.value != "")
  }

  /** Sticky fields never go blank: every update keeps records well formed. */
  lemma UpdateKeepsWellFormed(e: Engine, id: string, status: string, progresso: string,
                              bookName: Option<string>, message: Option<string>)
    requires forall k :: k in e.tasks ==> WellFormedTask(e.tasks[k])
    ensures var r := UpdateTaskStatus(e, id, status, progresso, bookName, message);
            forall k :: k in r.tasks ==> WellFormedTask(r.tasks[k])
  {
  }
}
