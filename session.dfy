/**
 * One dashboard session: the cached ledger and task list, the two snapshot
 * handlers that are the only code assigning them, and the user actions,
 * which only compute the writes and popups they would issue.
 */
module Session {
  import opened Wrappers
  import opened Tasks
  import opened Text
  import opened Ledger
  import opened Effects

  /** The profile document as its snapshot delivers it. */
  datatype ProfileDoc = Missing | Present(flexTime: Option<int>, screenTimeDebt: Option<int>)

  /** `field || 0`: an absent numeric field reads as zero. */
  function OrZero(v: Option<int>): (r: int)
    ensures v.Some? ==> r == v.value
    ensures v.None? ==> r == 0
  {
    match v
    case Some(x) => x
    case None => 0
  }

  class Dashboard {
    var flex: int          // flexTimeBalance
    var debt: int          // screenTimeDebt
    var tasks: seq<Task>   // currentTasks
    var signedIn: bool     // userId != null

    /** The module's initial state: 60 minutes of flex time, no debt, no tasks, no user. */
    constructor ()
      ensures Balances(flex, debt) == INITIAL && tasks == [] && !signedIn
    {
      flex, debt := INITIAL.flex, INITIAL.debt;
      tasks := [];
      signedIn := false;
    }

    /** The identity provider reported a user. */
    method SignIn()
      modifies this`signedIn
      ensures signedIn
    {
      signedIn := true;
    }

    // -------------------------------------------------------------------
    // Snapshot handlers: the only methods that assign the cache

    /**
     * A profile snapshot: copy both balances from the document, an absent
     * field reading as zero; with no document, create it with the initial
     * balances and cache those.
     */
    method OnProfileSnapshot(doc: ProfileDoc) returns (e: Effect)
      modifies this`flex, this`debt
      ensures doc.Present? ==> flex == OrZero(doc.flexTime) && debt == OrZero(doc.screenTimeDebt)
      ensures doc.Present? ==> e == NoEffect
      ensures doc.Missing? ==> Balances(flex, debt) == INITIAL
      ensures doc.Missing? ==> e == Effect([SetProfile(INITIAL.flex, INITIAL.debt, LastUpdated)], [SystemReady])
    {
      if doc.Present? {
        flex := OrZero(doc.flexTime);
        debt := OrZero(doc.screenTimeDebt);
        e := NoEffect;
      } else {
        e := Effect([SetProfile(INITIAL.flex, INITIAL.debt, LastUpdated)], []);
        flex, debt := INITIAL.flex, INITIAL.debt;
        e := e.(notices := [SystemReady]);
      }
    }

    /**
     * A task-collection snapshot with documents `docs` and `changes` document
     * changes: the cache becomes the documents sorted by creation time, and
     * the default routine is seeded when the snapshot has neither documents
     * nor changes.
     */
    method OnTasksSnapshot(docs: seq<Task>, changes: nat, reply: StoreReply) returns (e: Effect)
      modifies this`tasks
      ensures tasks == SortByCreated(docs)
      ensures e.writes != [] <==> changes == 0 && docs == []
      ensures changes == 0 && docs == [] ==>
        && e.writes <= AddsOf(DEFAULT_ROUTINE)
        && (forall w :: w in e.writes ==> w.AddTaskDoc? && !w.task.completed)
        && (AllLanded(reply, 4) ==> e == Effect(AddsOf(DEFAULT_ROUTINE), [DefaultRoutine]))
        && (!AllLanded(reply, 4) ==> |e.writes| == reply.index + 1 && e.notices == [])
      ensures !(changes == 0 && docs == []) ==> e == NoEffect
    {
      tasks := [];
      var isInitialLoad := changes == 0 && |docs| == 0;
      var i := 0;
      while i < |docs|
        invariant 0 <= i <= |docs|
        invariant tasks == docs[..i]
      {
        tasks := tasks + [docs[i]];
        i := i + 1;
      }
      assert docs[..|docs|] == docs;
      e := NoEffect;
      if isInitialLoad && |tasks| == 0 {
        e := PopulateDefaultTasks(reply);
      }
      SortCache();
    }

    /** Sorts the cached tasks by creation time, stably, in place. */
    method SortCache()
      modifies this`tasks
      ensures tasks == SortByCreated(old(tasks))
    {
      ghost var original := tasks;
      var i := 0;
      while i < |tasks|
        invariant 0 <= i <= |tasks| == |original|
        invariant tasks[..i] == SortByCreated(original[..i])
        invariant tasks[i..] == original[i..]
      {
        ghost var before := tasks;
        InsertionStep(i);
        SortPrefixStep(original, i);
        assert tasks[i + 1..] == original[i + 1..] by {
          assert before[i + 1..] == before[i..][1..];
        }
        i := i + 1;
      }
      assert original[..|original|] == original;
    }

    /** Moves the task at `i` back past every earlier task with a larger creation key. */
    method InsertionStep(i: nat)
      requires i < |tasks|
      modifies this`tasks
      ensures |tasks| == |old(tasks)|
      ensures tasks[..i + 1] == Insert(old(tasks[..i]), old(tasks[i]))
      ensures tasks[i + 1..] == old(tasks[i + 1..])
    {
      var x := tasks[i];
      var j := i;
      while j > 0 && CreatedKey(tasks[j - 1]) > CreatedKey(x)
        invariant 0 <= j <= i
        invariant forall k :: j <= k < i ==> CreatedKey(tasks[k]) > CreatedKey(x)
      {
        j := j - 1;
      }
      ghost var sorted := tasks[..i];
      ghost var rest := tasks[i + 1..];
      InsertAt(sorted, x, j);
      tasks := tasks[..j] + [x] + tasks[j..i] + tasks[i + 1..];
      assert tasks[..i + 1] == sorted[..j] + [x] + sorted[j..];
      assert tasks[i + 1..] == rest;
    }

    // -------------------------------------------------------------------
    // Actions: they compute writes and popups and assign nothing

    /**
     * The add-task form: with a user and a name that is not blank, write one
     * task with the trimmed name and time, not completed; otherwise nothing.
     */
    method SubmitAddTask(nameInput: string, timeInput: string, reply: StoreReply) returns (e: Effect)
      ensures e.writes != [] <==> signedIn && !AllSpace(nameInput)
      ensures e.writes != [] ==> e.writes == [AddTaskDoc(NewTask(Trim(nameInput), Trim(timeInput), false))]
      ensures e.writes != [] ==>
        e.notices == [if Rejects(reply, 0) then Error(AddFailed) else TaskAdded(Trim(nameInput))]
      ensures e.writes == [] ==> e.notices == []
    {
      var taskName := Trim(nameInput);
      var taskTime := Trim(timeInput);
      TrimEmptyIff(nameInput);
      if taskName != [] && signedIn {
        var w := AddTaskDoc(NewTask(taskName, taskTime, false));
        if Rejects(reply, 0) {
          e := Effect([w], [Error(AddFailed)]);
        } else {
          e := Effect([w], [TaskAdded(taskName)]);
        }
      } else {
        e := NoEffect;
      }
    }

    /** A checkbox click: with a user, set the task's completed flag. */
    method ToggleTask(taskId: string, isCompleted: bool, reply: StoreReply) returns (e: Effect)
      ensures !signedIn ==> e == NoEffect
      ensures signedIn ==> e.writes == [UpdateTaskCompleted(taskId, isCompleted)]
      ensures signedIn ==> e.notices == if Rejects(reply, 0) then [Error(ToggleFailed)] else []
    {
      if !signedIn {
        return NoEffect;
      }
      e := Effect([UpdateTaskCompleted(taskId, isCompleted)], []);
      if Rejects(reply, 0) {
        e := e.(notices := [Error(ToggleFailed)]);
      }
    }

    /**
     * The reset button: delete exactly the completed tasks, one at a time in
     * cache order, and report how many; with none completed, report a no-op
     * and write nothing.
     */
    method ResetTasks(reply: StoreReply) returns (e: Effect)
      ensures !signedIn ==> e == NoEffect
      ensures signedIn && Completed(tasks) == [] ==> e == Effect([], [NoTasksToReset])
      ensures signedIn && Completed(tasks) != [] && AllLanded(reply, |Completed(tasks)|) ==>
        e == Effect(DeletesOf(Completed(tasks)), [TasksCleared(|Completed(tasks)|)])
      ensures signedIn && Completed(tasks) != [] && !AllLanded(reply, |Completed(tasks)|) ==>
        e == Effect(DeletesOf(Completed(tasks))[..reply.index + 1], [Error(ResetFailed)])
    {
      if !signedIn {
        return NoEffect;
      }
      var completedTasks := Completed(tasks);
      if |completedTasks| == 0 {
        return Effect([], [NoTasksToReset]);
      }
      var sent, ok := IssueInOrder(DeletesOf(completedTasks), reply);
      if ok {
        e := Effect(sent, [TasksCleared(|completedTasks|)]);
      } else {
        e := Effect(sent, [Error(ResetFailed)]);
      }
    }

    /**
     * The reward request: with no tasks, "HOLD UP"; with some incomplete, the
     * number remaining; only with every task completed, one profile update
     * carrying the rewarded balances.
     */
    method RequestConfirmation(reply: StoreReply) returns (e: Effect)
      ensures !signedIn ==> e == NoEffect
      ensures signedIn && tasks == [] ==> e == Effect([], [HoldUp])
      ensures signedIn && tasks != [] && |Completed(tasks)| < |tasks| ==>
        e == Effect([], [MissionIncomplete(|tasks| - |Completed(tasks)|)])
      ensures e.writes != [] <==> signedIn && tasks != [] && forall i :: 0 <= i < |tasks| ==> tasks[i].completed
      ensures e.writes != [] ==>
        var a := Reward(Balances(flex, debt));
        e == Effect([UpdateProfile(a.newFlex, a.newDebt, LastReward)],
                    [RequestSent(DAILY_REWARD),
                     if Rejects(reply, 0) then Error(RewardFailed) else AccessGranted(DAILY_REWARD, a.debtCleared)])
    {
      if !signedIn {
        return NoEffect;
      }
      var totalTasks := |tasks|;
      var completedTasks := |Completed(tasks)|;
      CompletedAll(tasks);
      if totalTasks == 0 {
        return Effect([], [HoldUp]);
      }
      if completedTasks == totalTasks {
        var a := Reward(Balances(flex, debt));
        var w := UpdateProfile(a.newFlex, a.newDebt, LastReward);
        if Rejects(reply, 0) {
          e := Effect([w], [RequestSent(DAILY_REWARD), Error(RewardFailed)]);
        } else {
          e := Effect([w], [RequestSent(DAILY_REWARD), AccessGranted(DAILY_REWARD, a.debtCleared)]);
        }
      } else {
        e := Effect([], [MissionIncomplete(totalTasks - completedTasks)]);
      }
    }

    /** An overage report: with a user, one profile update moving `minutes` from flex to debt. */
    method DeductOverage(minutes: int, reply: StoreReply) returns (e: Effect)
      ensures !signedIn ==> e == NoEffect
      ensures signedIn ==>
        var d := Deduct(Balances(flex, debt), minutes);
        e == Effect([UpdateProfile(d.flex, d.debt, LastDeduction)],
                    [if Rejects(reply, 0) then Error(DeductFailed) else OverageDeducted(minutes)])
    {
      if !signedIn {
        return NoEffect;
      }
      var d := Deduct(Balances(flex, debt), minutes);
      var w := UpdateProfile(d.flex, d.debt, LastDeduction);
      if Rejects(reply, 0) {
        e := Effect([w], [Error(DeductFailed)]);
      } else {
        e := Effect([w], [OverageDeducted(minutes)]);
      }
    }
  }

  /** A first sign-in: the profile and the routine are created, and no reward can be asked yet. */
  method NewUserScenario()
  {
    var s := new Dashboard();
    var e := s.RequestConfirmation(AcceptsAll);
    assert e == NoEffect;
    s.SignIn();
    e := s.OnProfileSnapshot(Missing);
    assert s.flex == 60 && s.debt == 0 && e.writes == [SetProfile(60, 0, LastUpdated)];
    e := s.OnTasksSnapshot([], 0, AcceptsAll);
    assert |e.writes| == 4 && e.notices == [DefaultRoutine];
    e := s.RequestConfirmation(AcceptsAll);
    assert e == Effect([], [HoldUp]);
  }

  const MAKE_BED: Task := Task("a", "Bed", "6:45", true, Some(3))
  const BRUSH_TEETH: Task := Task("b", "Teeth", "7:00", true, Some(1))
  const GET_DRESSED: Task := Task("c", "Dress", "7:15", false, None)

  /** The unfinished morning arrives newest first, so the task with no timestamp is cached first. */
  lemma UnfinishedMorningSorted()
    ensures SortByCreated([MAKE_BED, BRUSH_TEETH, GET_DRESSED]) == [GET_DRESSED, BRUSH_TEETH, MAKE_BED]
  {
    var s := [MAKE_BED, BRUSH_TEETH, GET_DRESSED];
    NewestFirstReversed(s);
    assert Reversed([MAKE_BED]) == [MAKE_BED] by {
      assert [MAKE_BED][..0] == [];
    }
    assert Reversed([MAKE_BED, BRUSH_TEETH]) == [BRUSH_TEETH, MAKE_BED] by {
      assert [MAKE_BED, BRUSH_TEETH][..1] == [MAKE_BED];
    }
    assert s[..2] == [MAKE_BED, BRUSH_TEETH];
  }

  /** The filter keeps the two completed tasks of the sorted morning, in cache order. */
  lemma UnfinishedMorningCompleted()
    ensures Completed([GET_DRESSED, BRUSH_TEETH, MAKE_BED]) == [BRUSH_TEETH, MAKE_BED]
  {
    var t1, t2, t3 := MAKE_BED, BRUSH_TEETH, GET_DRESSED;
    assert [t3, t2, t1][..2] == [t3, t2] && [t3, t2][..1] == [t3] && [t3][..0] == [];
    assert Completed([t3]) == [];
    assert Completed([t3, t2]) == [t2];
  }

  /** Three tasks, two done: the list is ordered by creation and the reward refused. */
  method UnfinishedScenario()
  {
    var s := new Dashboard();
    s.SignIn();
    var e := s.OnTasksSnapshot([MAKE_BED, BRUSH_TEETH, GET_DRESSED], 3, AcceptsAll);
    assert e == NoEffect;
    UnfinishedMorningSorted();
    UnfinishedMorningCompleted();
    assert s.tasks == [GET_DRESSED, BRUSH_TEETH, MAKE_BED];
    e := s.RequestConfirmation(AcceptsAll);
    assert e == Effect([], [MissionIncomplete(1)]);
  }

  /** Resetting the unfinished morning deletes the two completed tasks and leaves the cache alone. */
  method ResetScenario()
  {
    var s := new Dashboard();
    s.SignIn();
    var morning := [GET_DRESSED, BRUSH_TEETH, MAKE_BED];
    SortKeepsSorted(morning);
    var e := s.OnTasksSnapshot(morning, 3, AcceptsAll);
    UnfinishedMorningCompleted();
    var deletes := DeletesOf([BRUSH_TEETH, MAKE_BED]);
    assert deletes == [DeleteTaskDoc("b"), DeleteTaskDoc("a")] by {
      assert deletes[0] == DeleteTaskDoc("b") && deletes[1] == DeleteTaskDoc("a");
    }
    e := s.ResetTasks(AcceptsAll);
    assert e == Effect(deletes, [TasksCleared(2)]);
    assert s.tasks == morning;
  }

  /** Everything done with 50 minutes of debt: the reward clears 30 minutes of debt and adds no flex time. */
  method RewardScenario()
  {
    var t := Task("c", "Get Dressed (No Pajamas!)", "7:15 AM", true, Some(7));
    var s := new Dashboard();
    s.SignIn();
    var e := s.OnProfileSnapshot(Present(Some(60), Some(50)));
    SortKeepsSorted([t]);
    e := s.OnTasksSnapshot([t], 1, AcceptsAll);
    assert s.tasks == [t];
    e := s.RequestConfirmation(AcceptsAll);
    assert e.writes == [UpdateProfile(60, 20, LastReward)];
    assert e.notices == [RequestSent(30), AccessGranted(30, 30)];
  }

  /** A rejected deduction reports an error and leaves the cached ledger as it was. */
  method RejectedDeductionScenario()
  {
    var s := new Dashboard();
    s.SignIn();
    var e := s.OnProfileSnapshot(Present(Some(60), None));
    e := s.DeductOverage(15, RejectsWrite(0));
    assert e == Effect([UpdateProfile(45, 15, LastDeduction)], [Error(DeductFailed)]);
    assert s.flex == 60 && s.debt == 0;
  }
}
