/** One tick of the progress monitor (`fetchProgress`), taken as one atomic
    step. The tick asks the book service for the progress of the active ids
    and merges each entry of the answer, in the answer's key order, into the
    registry; every merge that changes a record goes through
    `UpdateTaskStatus`, and the tick ends by rebuilding the active set. */
module Poller {
  import opened Values
  import opened Text
  import opened Registry

  /** One entry of the progress answer: an object with the four optional
      fields, or anything else (`null`, a string...). */
  datatype Payload =
    | Invalid
    | Progress(status: Option<string>, progresso: Option<string>, bookName: Option<string>, message: Option<string>)

  /** The progress answer: the call threw (any failure is caught and logged),
      the answer is not an object, or an object whose entries are listed in
      key order. */
  datatype PollReply = PollFailed | PollNotObject | PollData(entries: seq<(string, Payload)>)

  /** `callGetProgressJS`: an empty id list gives an empty answer without a
      request; otherwise the request is made and its answer returned. */
  function GetProgress(ids: set<string>, reply: PollReply): (r: (PollReply, bool))
    ensures r.1 <==> ids != {}
    ensures ids == {} ==> r.0 == PollData([])
    ensures ids != {} ==> r.0 == reply
  {
    if ids == {} then (PollData([]), false) else (reply, true)
  }

  /** The record a progress entry asks for: each field of the entry, or the
      record's own value where the entry's field is blank. */
  function Merged(t: Task, status: Option<string>, progresso: Option<string>, bookName: Option<string>, message: Option<string>): Task {
    ApplyUpdate(t, Or(status, t.status), Or(progresso, t.progresso), Some(Or(bookName, t.bookName)), OrOption(message, t.message))
  }

  /** Merging one entry for task `k`. A known active id with an object entry
      is updated when any of the four merged fields differs, and dropped from
      the active set when its merged status is final; an active id with an
      unusable entry, or an active id that is not registered, is dropped; any
      other id is ignored. */
  function MergeEntry(x: Engine, k: string, p: Payload): Engine {
    if k in x.tasks && k in x.active then
      match p
      case Invalid => x.(active := x.active - {k})
      case Progress(status, progresso, bookName, message) =>
        var t := x.tasks[k];
        var newStatus := Or(status, t.status);
        var newProgresso := Or(progresso, t.progresso);
        var newBookName := Or(bookName, t.bookName);
        var newMessage := OrOption(message, t.message);
        var changed := newStatus != t.status || newProgresso != t.progresso
                       || newBookName != t.bookName || newMessage != t.message;
        var y := if changed then UpdateTaskStatus(x, k, newStatus, newProgresso, Some(newBookName), newMessage) else x;
        if Lower(newStatus) in FinalStates then y.(active := y.active - {k}) else y
    else if k in x.active then x.(active := x.active - {k})
    else x
  }

  /** The entries merged one after the other, in key order. */
  function MergeAll(x: Engine, entries: seq<(string, Payload)>): Engine
    decreases |entries|
  {
    if |entries| == 0 then x else MergeAll(MergeEntry(x, entries[0].0, entries[0].1), entries[1..])
  }

  /** `fetchProgress`. With nothing active or a stop signalled it returns
      at once, clearing the timer if a stop is signalled, and makes no
      request. Otherwise it requests the active ids, merges an object answer,
      ignores any other answer, and rebuilds the active set. The flag says
      whether a request was made. */
  function Tick(e: Engine, reply: PollReply): (r: (Engine, bool))
    ensures r.1 <==> e.active != {} && !e.stop
    ensures r.0.stop == e.stop && r.0.tasks.Keys == e.tasks.Keys
  {
    if e.active == {} || e.stop then
      (if e.stop && e.polling then StopProgressPolling(e) else e, false)
    else
      var (answer, requested) := GetProgress(e.active, reply);
      var merged := if answer.PollData? then MergeAll(e, answer.entries) else e;
      MergeAllKeys(e, if answer.PollData? then answer.entries else []);
      (Recompute(merged), requested)
  }

  lemma {:induction false} MergeAllKeys(x: Engine, entries: seq<(string, Payload)>)
    ensures MergeAll(x, entries).tasks.Keys == x.tasks.Keys
    ensures MergeAll(x, entries).stop == x.stop
    decreases |entries|
  {
    if |entries| > 0 {
      MergeAllKeys(MergeEntry(x, entries[0].0, entries[0].1), entries[1..]);
    }
  }

  /** The keys of an object answer are distinct. */
  predicate DistinctKeys(entries: seq<(string, Payload)>) {
    forall i, j :: 0 <= i < j < |entries| ==> entries[i].0 != entries[j].0
  }

  /** The entry for `id`, if the answer has one. */
  function Lookup(entries: seq<(string, Payload)>, id: string): (r: Option<Payload>)
    ensures r.None? <==> forall i :: 0 <= i < |entries| ==> entries[i].0 != id
    decreases |entries|
  {
    if |entries| == 0 then None
    else if entries[0].0 == id then Some(entries[0].1)
    else Lookup(entries[1..], id)
  }

  /** What an answer entry does to a record, stated per record: only a
      running record with an object entry takes the merged fields. */
  function MergeOne(t: Task, p: Option<Payload>): Task {
    match p
    case Some(Progress(status, progresso, bookName, message)) =>
      if Running(t.status) then Merged(t, status, progresso, bookName, message) else t
    case _ => t
  }

  /** The registry an answer asks for, record by record. */
  function MergedTasks(tasks: map<string, Task>, entries: seq<(string, Payload)>): (m: map<string, Task>)
    ensures m.Keys == tasks.Keys
  {
    map id | id in tasks :: MergeOne(tasks[id], Lookup(entries, id))
  }

  /** The active set agrees with the records at `j`. */
  predicate Agrees(x: Engine, j: string) {
    j in x.active <==> j in x.tasks && Running(x.tasks[j].status)
  }

  /** One merge step changes at most record `k`, to what `MergeOne` says,
      and keeps the active set in agreement with the records elsewhere. */
  lemma MergeEntryStep(x: Engine, k: string, p: Payload)
    requires Agrees(x, k)
    ensures var y := MergeEntry(x, k, p);
            && y.tasks == (if k in x.tasks then x.tasks[k := MergeOne(x.tasks[k], Some(p))] else x.tasks)
            && y.stop == x.stop
            && forall j :: j != k && Agrees(x, j) ==> Agrees(y, j)
  {
    if k in x.tasks && k in x.active && p.Progress? {
      MergeProgressTasks(x, k, p);
      MergeProgressAgrees(x, k, p);
    } else if k in x.tasks {
      assert MergeOne(x.tasks[k], Some(p)) == x.tasks[k];
      assert x.tasks[k := x.tasks[k]] == x.tasks;
    }
  }

  /** An object entry for a running record writes the merged fields, through
      an update when something differs and trivially otherwise. */
  lemma MergeProgressTasks(x: Engine, k: string, p: Payload)
    requires k in x.tasks && k in x.active && p.Progress? && Agrees(x, k)
    ensures MergeEntry(x, k, p).tasks == x.tasks[k := MergeOne(x.tasks[k], Some(p))]
    ensures MergeEntry(x, k, p).stop == x.stop
  {
    var t := x.tasks[k];
    if Merged(t, p.status, p.progresso, p.bookName, p.message) == t {
      assert x.tasks[k := t] == x.tasks;
    }
  }

  /** Merging an object entry for `k` leaves every other id's membership in
      agreement with its record. */
  lemma MergeProgressAgrees(x: Engine, k: string, p: Payload)
    requires k in x.tasks && k in x.active && p.Progress?
    ensures var y := MergeEntry(x, k, p);
            forall j :: j != k && Agrees(x, j) ==> Agrees(y, j)
  {
  }

  /** Consuming the first entry of a distinct-key answer: the registry it
      asks for is the one the rest of the answer asks for from the registry
      with that entry merged. */
  lemma MergedTasksStep(tasks: map<string, Task>, entries: seq<(string, Payload)>)
    requires |entries| > 0 && DistinctKeys(entries)
    ensures var k, p := entries[0].0, entries[0].1;
            var t1 := if k in tasks then tasks[k := MergeOne(tasks[k], Some(p))] else tasks;
            MergedTasks(tasks, entries) == MergedTasks(t1, entries[1..])
  {
    var k, p := entries[0].0, entries[0].1;
    var rest := entries[1..];
    var t1 := if k in tasks then tasks[k := MergeOne(tasks[k], Some(p))] else tasks;
    assert Lookup(rest, k).None? by {
      forall i | 0 <= i < |rest|
        ensures rest[i].0 != k
      {
        assert rest[i] == entries[i + 1];
      }
    }
    forall id | id in tasks
      ensures MergedTasks(tasks, entries)[id] == MergedTasks(t1, rest)[id]
    {
      if id != k {
        assert Lookup(entries, id) == Lookup(rest, id);
      }
    }
  }

  /** Merging a whole distinct-key answer, with the active set in agreement
      with the records at every answered id, yields the registry the answer
      asks for, however the intermediate updates and deletions reshape the
      active set along the way. */
  lemma {:induction false} MergeAllReference(x: Engine, entries: seq<(string, Payload)>)
    requires DistinctKeys(entries)
    requires forall i :: 0 <= i < |entries| ==> Agrees(x, entries[i].0)
    ensures MergeAll(x, entries).tasks == MergedTasks(x.tasks, entries)
    decreases |entries|
  {
    if |entries| == 0 {
      assert forall id | id in x.tasks :: Lookup(entries, id).None?;
    } else {
      var k, p := entries[0].0, entries[0].1;
      var rest := entries[1..];
      var y := MergeEntry(x, k, p);
      MergeEntryStep(x, k, p);
      forall i | 0 <= i < |rest|
        ensures Agrees(y, rest[i].0)
      {
        assert rest[i] == entries[i + 1];
      }
      MergeAllReference(y, rest);
      MergedTasksStep(x.tasks, entries);
    }
  }

  /** With the stop flag clear, the rebuild does not depend on the timer
      flag it starts from. */
  lemma RecomputeForgetsTimer(a: Engine, b: Engine)
    requires a.tasks == b.tasks && a.stop == b.stop && !a.stop
    ensures Recompute(a) == Recompute(b)
  {
  }

  /** A tick that runs on an object answer equals rebuilding the active set
      over the registry the answer asks for. */
  lemma TickReference(e: Engine, entries: seq<(string, Payload)>)
    requires Inv(e) && e.active != {} && !e.stop
    requires DistinctKeys(entries)
    ensures Tick(e, PollData(entries)) == (Recompute(e.(tasks := MergedTasks(e.tasks, entries))), true)
  {
    MergeAllReference(e, entries);
    MergeAllKeys(e, entries);
    RecomputeForgetsTimer(MergeAll(e, entries), e.(tasks := MergedTasks(e.tasks, entries)));
  }

  /** After a running tick the invariant holds: the active set is rebuilt
      and, no stop being signalled, the timer runs exactly when some task is
      still active. Records that were not active are untouched. */
  lemma TickKeepsInv(e: Engine, entries: seq<(string, Payload)>)
    requires Inv(e) && e.active != {} && !e.stop
    requires DistinctKeys(entries)
    ensures var r := Tick(e, PollData(entries)).0;
            && Inv(r)
            && forall id :: id in e.tasks && id !in e.active ==> r.tasks[id] == e.tasks[id]
  {
    TickReference(e, entries);
  }

  /** An active record with an unusable entry, or with no entry, stays as it
      was and stays active: the deletion made while merging is undone by the
      final rebuild. */
  lemma TickKeepsUnanswered(e: Engine, entries: seq<(string, Payload)>, id: string)
    requires Inv(e) && e.active != {} && !e.stop
    requires DistinctKeys(entries)
    requires id in e.active && (Lookup(entries, id).None? || Lookup(entries, id) == Some(Invalid))
    ensures var r := Tick(e, PollData(entries)).0;
            r.tasks[id] == e.tasks[id] && id in r.active
  {
    TickReference(e, entries);
  }

  /** An active record whose merged status is final leaves the active set,
      and takes that status. */
  lemma TickDropsFinished(e: Engine, entries: seq<(string, Payload)>, id: string)
    requires Inv(e) && e.active != {} && !e.stop
    requires DistinctKeys(entries)
    requires id in e.active && Lookup(entries, id).Some? && Lookup(entries, id).value.Progress?
    requires Lower(Or(Lookup(entries, id).value.status, e.tasks[id].status)) in FinalStates
    ensures var r := Tick(e, PollData(entries)).0;
            && r.tasks[id].status == Or(Lookup(entries, id).value.status, e.tasks[id].status)
            && id !in r.active
  {
    TickReference(e, entries);
    var m := MergedTasks(e.tasks, entries);
    var st := Or(Lookup(entries, id).value.status, e.tasks[id].status);
    assert m[id].status == st;
    FinalLeaves(e.(tasks := m), id);
  }

  /** A record in a final status is not in the rebuilt active set. */
  lemma FinalLeaves(x: Engine, id: string)
    requires id in x.tasks && Lower(x.tasks[id].status) in FinalStates
    ensures id !in Recompute(x).active
  {
    assert x.tasks[id].status != "";
  }

  /** With nothing active or a stop signalled, a tick makes no request and,
      under the invariant, changes nothing. */
  lemma TickIdle(e: Engine, reply: PollReply)
    requires Inv(e) && (e.active == {} || e.stop)
    ensures Tick(e, reply) == (e, false)
  {
  }

  /** A failed or non-object answer changes nothing under the invariant,
      although the request was made. */
  lemma TickIgnoresFailure(e: Engine, reply: PollReply)
    requires Inv(e) && e.active != {} && !e.stop
    requires !reply.PollData?
    ensures Tick(e, reply) == (e, true)
  {
  }
}
