/**
 * What the dashboard's handlers do to the outside world, as values: the
 * writes they send to the document store, the popups they show, and how
 * the store answered.
 */
module Effects {
  import opened Tasks

  /** The server-timestamp field a profile write stamps. */
  datatype Stamp = LastUpdated | LastReward | LastDeduction

  /** One remote write. */
  datatype Write =
    | SetProfile(flex: int, debt: int, stamp: Stamp)         // create the profile document
    | UpdateProfile(flex: int, debt: int, stamp: Stamp)      // update its balances
    | AddTaskDoc(task: NewTask)                              // add a task document
    | UpdateTaskCompleted(id: string, completed: bool)       // set one task's flag
    | DeleteTaskDoc(id: string)                              // delete one task document

  /** Which action a red "ERROR" popup reports. */
  datatype Failure = AddFailed | ToggleFailed | ResetFailed | RewardFailed | DeductFailed

  /** One popup, with the values its message shows. */
  datatype Notice =
    | SystemReady
    | DefaultRoutine
    | TaskAdded(name: string)
    | NoTasksToReset
    | TasksCleared(count: nat)
    | HoldUp
    | RequestSent(minutes: int)
    | AccessGranted(minutes: int, debtCleared: int)
    | MissionIncomplete(remaining: nat)
    | OverageDeducted(minutes: int)
    | Error(failure: Failure)

  /**
   * How the store answers the writes of one action, in the order they are
   * awaited: every write succeeds, or the write at `index` is the first that
   * is rejected (its promise rejects and the handler's catch block runs).
   */
  datatype StoreReply = AcceptsAll | RejectsWrite(index: nat)

  predicate Rejects(reply: StoreReply, i: nat) {
    reply.RejectsWrite? && reply.index == i
  }

  /** True when none of the first `n` awaited writes is rejected. */
  predicate AllLanded(reply: StoreReply, n: nat) {
    !(reply.RejectsWrite? && reply.index < n)
  }

  /** The writes and popups of one handler run. */
  datatype Effect = Effect(writes: seq<Write>, notices: seq<Notice>)

  const NoEffect: Effect := Effect([], [])

  /**
   * Awaits the writes `ws` one after another: all of them are sent when the
   * store accepts them all; otherwise sending stops at the first rejected
   * one, which was sent too, and `ok` is false.
   */
  method IssueInOrder(ws: seq<Write>, reply: StoreReply) returns (sent: seq<Write>, ok: bool)
    ensures ok <==> AllLanded(reply, |ws|)
    ensures ok ==> sent == ws
    ensures !ok ==> sent == ws[..reply.index + 1]
  {
    sent := [];
    var i, failed := 0, false;
    while i < |ws| && !failed
      invariant 0 <= i <= |ws|
      invariant sent == ws[..i]
      invariant failed <==> !AllLanded(reply, i)
      invariant i == 0 || AllLanded(reply, i - 1)
    {
      sent := sent + [ws[i]];
      failed := Rejects(reply, i);
      i := i + 1;
    }
    ok := !failed;
  }

  /** One add write per routine entry. */
  function AddsOf(ts: seq<NewTask>): seq<Write>
  {
    seq(|ts|, i requires 0 <= i < |ts| => AddTaskDoc(ts[i]))
  }

  /** One delete write per task, in the given order. */
  function DeletesOf(ts: seq<Task>): seq<Write>
  {
    seq(|ts|, i requires 0 <= i < |ts| => DeleteTaskDoc(ts[i].id))
  }

  /** A delete write names a document iff one of the given tasks has that id. */
  lemma DeletesOfIds(ts: seq<Task>, id: string)
    ensures DeleteTaskDoc(id) in DeletesOf(ts) <==> exists t :: t in ts && t.id == id
  {
    var ws := DeletesOf(ts);
    if DeleteTaskDoc(id) in ws {
      var i :| 0 <= i < |ws| && ws[i] == DeleteTaskDoc(id);
      assert ts[i] in ts && ts[i].id == id;
    }
    if exists t :: t in ts && t.id == id {
      var t :| t in ts && t.id == id;
      var i :| 0 <= i < |ts| && ts[i] == t;
      assert ws[i] == DeleteTaskDoc(id);
    }
  }

  /**
   * A reset deletes exactly the completed tasks: the delete writes for the
   * filtered cache name a document iff some cached task with that id is
   * completed.
   */
  lemma ResetDeletesExactlyCompleted(s: seq<Task>, id: string)
    ensures DeleteTaskDoc(id) in DeletesOf(Completed(s)) <==> exists t :: t in s && t.completed && t.id == id
  {
    CompletedMembers(s);
    DeletesOfIds(Completed(s), id);
  }

  /**
   * Seeds the default routine: the four adds are awaited in order; the
   * "DEFAULT ROUTINE" popup shows only when all of them were accepted, and
   * a rejection is only logged.
   */
  method PopulateDefaultTasks(reply: StoreReply) returns (e: Effect)
    ensures |e.writes| >= 1 && e.writes <= AddsOf(DEFAULT_ROUTINE)
    ensures forall w :: w in e.writes ==> w.AddTaskDoc? && !w.task.completed
    ensures AllLanded(reply, 4) ==> e == Effect(AddsOf(DEFAULT_ROUTINE), [DefaultRoutine])
    ensures !AllLanded(reply, 4) ==> |e.writes| == reply.index + 1 && e.notices == []
  {
    var sent, ok := IssueInOrder(AddsOf(DEFAULT_ROUTINE), reply);
    if ok {
      e := Effect(sent, [DefaultRoutine]);
    } else {
      e := Effect(sent, []);
    }
  }
}
