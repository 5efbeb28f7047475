/**
 * Task records as the dashboard caches them, the "completed" filter that the
 * reset, progress and reward code share, the order the task snapshot handler
 * sorts the cache into, and the routine seeded for a new user.
 */
module Tasks {
  import opened Wrappers

  /**
   * One cached task: the document id spread together with the document's
   * fields. `createdAt` is the server timestamp in milliseconds, `None` while
   * the server has not assigned it yet.
   */
  datatype Task = Task(id: string, name: string, time: string, completed: bool, createdAt: Option<int>)

  /** The fields of a task document the dashboard writes when it creates one. */
  datatype NewTask = NewTask(name: string, time: string, completed: bool)

  /** The routine written for a new user, each entry not yet completed. */
  const DEFAULT_ROUTINE: seq<NewTask> := [
    NewTask("Make Bed & Open Blinds", "6:45 AM", false),
    NewTask("Brush Teeth & Wash Face", "7:00 AM", false),
    NewTask("Get Dressed (No Pajamas!)", "7:15 AM", false),
    NewTask("Eat Breakfast & Clear Plate", "7:30 AM", false)
  ]

  // ---------------------------------------------------------------------
  // The completed filter

  /** `tasks.filter(task => task.completed)`. */
  function Completed(s: seq<Task>): (r: seq<Task>)
    ensures |r| <= |s|
  {
    if s == [] then []
    else
      var last := s[|s| - 1];
      Completed(s[..|s| - 1]) + (if last.completed then [last] else [])
  }

  /** The tasks the filter leaves out. */
  function Pending(s: seq<Task>): seq<Task> {
    if s == [] then []
    else
      var last := s[|s| - 1];
      Pending(s[..|s| - 1]) + (if last.completed then [] else [last])
  }

  /** The filter keeps cache order: it distributes over concatenation. */
  lemma {:induction false} CompletedAppend(a: seq<Task>, b: seq<Task>)
    ensures Completed(a + b) == Completed(a) + Completed(b)
  {
    if b == [] {
      assert a + b == a;
    } else {
      CompletedAppend(a, b[..|b| - 1]);
      assert (a + b)[..|a + b| - 1] == a + b[..|b| - 1];
    }
  }

  /** The filter and its complement together hold every cached task exactly once. */
  lemma {:induction false} CompletedPartition(s: seq<Task>)
    ensures multiset(Completed(s)) + multiset(Pending(s)) == multiset(s)
  {
    if s != [] {
      var init, last := s[..|s| - 1], s[|s| - 1];
      CompletedPartition(init);
      assert s == init + [last];
    }
  }

  /** The filter selects exactly the completed tasks, and leaves out exactly the others. */
  lemma {:induction false} CompletedMembers(s: seq<Task>)
    ensures forall t :: t in Completed(s) <==> t in s && t.completed
    ensures forall t :: t in Pending(s) <==> t in s && !t.completed
  {
    if s != [] {
      var init, last := s[..|s| - 1], s[|s| - 1];
      CompletedMembers(init);
      assert s == init + [last];
    }
  }

  /** The filter keeps every task exactly when every task is completed. */
  lemma {:induction false} CompletedAll(s: seq<Task>)
    ensures |Completed(s)| == |s| <==> forall i :: 0 <= i < |s| ==> s[i].completed
  {
    if s != [] {
      var init := s[..|s| - 1];
      CompletedAll(init);
      if forall i :: 0 <= i < |s| ==> s[i].completed {
        assert forall i :: 0 <= i < |init| ==> init[i] == s[i];
      } else if |Completed(s)| == |s| {
        assert s[|s| - 1].completed;
        forall i | 0 <= i < |s| ensures s[i].completed {
          if i < |init| { assert s[i] == init[i]; }
        }
      }
    }
  }

  // ---------------------------------------------------------------------
  // Ordering by creation time

  /** `createdAt?.toMillis() || 0`: a missing timestamp sorts as zero. */
  function CreatedKey(t: Task): (k: int)
    ensures t.createdAt.Some? ==> k == t.createdAt.value
    ensures t.createdAt.None? ==> k == 0
  {
    match t.createdAt
    case Some(ms) => ms
    case None => 0
  }

  predicate SortedByCreated(s: seq<Task>) {
    forall i, j :: 0 <= i < j < |s| ==> CreatedKey(s[i]) <= CreatedKey(s[j])
  }

  /** The tasks of `s` whose sort key is `k`, in the order of `s`. */
  function WithKey(s: seq<Task>, k: int): seq<Task>
  {
    if s == [] then []
    else
      var last := s[|s| - 1];
      WithKey(s[..|s| - 1], k) + (if CreatedKey(last) == k then [last] else [])
  }

  /** Places `x` after every element of `s` whose key is not larger than its own. */
  function Insert(s: seq<Task>, x: Task): (r: seq<Task>)
    ensures |r| == |s| + 1
  {
    if s == [] || CreatedKey(s[|s| - 1]) <= CreatedKey(x) then s + [x]
    else Insert(s[..|s| - 1], x) + [s[|s| - 1]]
  }

  /** The stable sort of `s` by creation time, built by insertion. */
  function SortByCreated(s: seq<Task>): (r: seq<Task>)
    ensures |r| == |s|
  {
    if s == [] then [] else Insert(SortByCreated(s[..|s| - 1]), s[|s| - 1])
  }

  lemma {:induction false} WithKeyAppend(a: seq<Task>, b: seq<Task>, k: int)
    ensures WithKey(a + b, k) == WithKey(a, k) + WithKey(b, k)
  {
    if b == [] {
      assert a + b == a;
    } else {
      WithKeyAppend(a, b[..|b| - 1], k);
      assert (a + b)[..|a + b| - 1] == a + b[..|b| - 1];
    }
  }

  lemma {:induction false} InsertMultiset(s: seq<Task>, x: Task)
    ensures multiset(Insert(s, x)) == multiset(s) + multiset{x}
  {
    if !(s == [] || CreatedKey(s[|s| - 1]) <= CreatedKey(x)) {
      InsertMultiset(s[..|s| - 1], x);
      assert s == s[..|s| - 1] + [s[|s| - 1]];
    }
  }

  predicate KeysAtMost(s: seq<Task>, b: int) {
    forall i :: 0 <= i < |s| ==> CreatedKey(s[i]) <= b
  }

  lemma {:induction false} InsertKeysAtMost(s: seq<Task>, x: Task, b: int)
    requires KeysAtMost(s, b) && CreatedKey(x) <= b
    ensures KeysAtMost(Insert(s, x), b)
  {
    if !(s == [] || CreatedKey(s[|s| - 1]) <= CreatedKey(x)) {
      InsertKeysAtMost(s[..|s| - 1], x, b);
    }
  }

  lemma {:induction false} InsertSorted(s: seq<Task>, x: Task)
    requires SortedByCreated(s)
    ensures SortedByCreated(Insert(s, x))
  {
    if !(s == [] || CreatedKey(s[|s| - 1]) <= CreatedKey(x)) {
      var init, last := s[..|s| - 1], s[|s| - 1];
      InsertSorted(init, x);
      InsertKeysAtMost(init, x, CreatedKey(last));
    }
  }

  /**
   * When every element from position `j` on has a larger key than `x` and
   * the one before `j` does not, Insert puts `x` at position `j`.
   */
  lemma {:induction false} InsertAt(s: seq<Task>, x: Task, j: nat)
    requires j <= |s|
    requires forall k :: j <= k < |s| ==> CreatedKey(s[k]) > CreatedKey(x)
    requires j == 0 || CreatedKey(s[j - 1]) <= CreatedKey(x)
    ensures Insert(s, x) == s[..j] + [x] + s[j..]
    decreases |s|
  {
    if j < |s| {
      var init, last := s[..|s| - 1], s[|s| - 1];
      assert CreatedKey(last) > CreatedKey(x);
      assert Insert(s, x) == Insert(init, x) + [last];
      InsertAt(init, x, j);
      assert init[..j] == s[..j];
      assert init[j..] + [last] == s[j..];
    } else {
      assert s[..j] == s && s[j..] == [];
    }
  }

  /** Inserting `x` adds it to the end of its own key class and leaves the other classes alone. */
  lemma {:induction false} InsertWithKey(s: seq<Task>, x: Task, k: int)
    ensures WithKey(Insert(s, x), k) == WithKey(s, k) + (if CreatedKey(x) == k then [x] else [])
  {
    if s == [] || CreatedKey(s[|s| - 1]) <= CreatedKey(x) {
      WithKeyAppend(s, [x], k);
    } else {
      var init, last := s[..|s| - 1], s[|s| - 1];
      InsertWithKey(init, x, k);
      WithKeyAppend(Insert(init, x), [last], k);
      assert s[..|s| - 1] == init;
    }
  }

  /** The cache after a task snapshot is sorted by creation time. */
  lemma {:induction false} SortedBySort(s: seq<Task>)
    ensures SortedByCreated(SortByCreated(s))
  {
    if s != [] {
      SortedBySort(s[..|s| - 1]);
      InsertSorted(SortByCreated(s[..|s| - 1]), s[|s| - 1]);
    }
  }

  /** The cache after a task snapshot holds exactly the snapshot's documents. */
  lemma {:induction false} SortPermutes(s: seq<Task>)
    ensures multiset(SortByCreated(s)) == multiset(s)
  {
    if s != [] {
      var init, last := s[..|s| - 1], s[|s| - 1];
      SortPermutes(init);
      InsertMultiset(SortByCreated(init), last);
      assert multiset(s) == multiset(init) + multiset{last} by {
        assert s == init + [last];
      }
    }
  }

  /** Sorting one more element of `s` inserts it into the sorted shorter prefix. */
  lemma SortPrefixStep(s: seq<Task>, i: nat)
    requires i < |s|
    ensures SortByCreated(s[..i + 1]) == Insert(SortByCreated(s[..i]), s[i])
  {
    assert s[..i + 1][..i] == s[..i];
  }

  /** Tasks with equal creation keys keep their snapshot order (the sort is stable). */
  lemma {:induction false} SortStable(s: seq<Task>, k: int)
    ensures WithKey(SortByCreated(s), k) == WithKey(s, k)
  {
    if s != [] {
      SortStable(s[..|s| - 1], k);
      InsertWithKey(SortByCreated(s[..|s| - 1]), s[|s| - 1], k);
    }
  }

  /** Every member of a key class comes from the sequence and has that key. */
  lemma {:induction false} WithKeyMembers(s: seq<Task>, k: int, t: Task)
    requires t in WithKey(s, k)
    ensures t in s && CreatedKey(t) == k
  {
    var init := s[..|s| - 1];
    if t in WithKey(init, k) {
      WithKeyMembers(init, k, t);
      assert s == init + [s[|s| - 1]];
    }
  }

  /** In a sorted sequence every key present is at most the key of the last element. */
  lemma KeyBelowLast(s: seq<Task>, k: int)
    requires SortedByCreated(s) && WithKey(s, k) != []
    ensures CreatedKey(s[|s| - 1]) >= k
  {
    var t := WithKey(s, k)[0];
    WithKeyMembers(s, k, t);
    var i :| 0 <= i < |s| && s[i] == t;
  }

  /** The last task of a non-empty sequence closes its own key class. */
  lemma WithKeyOfLast(s: seq<Task>)
    requires s != []
    ensures WithKey(s, CreatedKey(s[|s| - 1])) == WithKey(s[..|s| - 1], CreatedKey(s[|s| - 1])) + [s[|s| - 1]]
  {
  }

  /** Dropping the last task drops it from its key class only. */
  lemma WithKeyDropLast(s: seq<Task>, k: int)
    requires s != []
    ensures var w := WithKey(s, k);
      WithKey(s[..|s| - 1], k) == if CreatedKey(s[|s| - 1]) == k then w[..|w| - 1] else w
  {
  }

  /**
   * Two sequences that are both sorted and agree on every key class are
   * equal: whatever stable sort the JavaScript engine runs, its result is
   * SortByCreated.
   */
  lemma {:induction false} StableSortUnique(a: seq<Task>, b: seq<Task>)
    requires SortedByCreated(a) && SortedByCreated(b)
    requires forall k :: WithKey(a, k) == WithKey(b, k)
    ensures a == b
    decreases |a|
  {
    if a == [] {
      if b != [] {
        WithKeyOfLast(b);
      }
    } else {
      WithKeyOfLast(a);
      var ka := CreatedKey(a[|a| - 1]);
      assert WithKey(b, ka) != [];
      WithKeyOfLast(b);
      var kb := CreatedKey(b[|b| - 1]);
      KeyBelowLast(b, ka);
      KeyBelowLast(a, kb);
      var a', b' := a[..|a| - 1], b[..|b| - 1];
      assert a[|a| - 1] == WithKey(a, ka)[|WithKey(a, ka)| - 1];
      forall k ensures WithKey(a', k) == WithKey(b', k) {
        WithKeyDropLast(a, k);
        WithKeyDropLast(b, k);
      }
      StableSortUnique(a', b');
      assert a == a' + [a[|a| - 1]];
      assert b == b' + [b[|b| - 1]];
    }
  }

  /** Any stable sort of the snapshot by creation time yields SortByCreated of it. */
  lemma StableSortIsSortByCreated(s: seq<Task>, r: seq<Task>)
    requires SortedByCreated(r)
    requires forall k :: WithKey(r, k) == WithKey(s, k)
    ensures r == SortByCreated(s)
  {
    SortedBySort(s);
    forall k ensures WithKey(r, k) == WithKey(SortByCreated(s), k) {
      SortStable(s, k);
    }
    StableSortUnique(r, SortByCreated(s));
  }

  /** A snapshot already in creation order is cached unchanged; in particular sorting twice changes nothing. */
  lemma SortKeepsSorted(s: seq<Task>)
    requires SortedByCreated(s)
    ensures SortByCreated(s) == s
  {
    StableSortIsSortByCreated(s, s);
  }

  /** `s` back to front. */
  function Reversed(s: seq<Task>): seq<Task> {
    if s == [] then [] else [s[|s| - 1]] + Reversed(s[..|s| - 1])
  }

  /** Every creation key strictly decreases along `s`: the newest task comes first. */
  predicate NewestFirst(s: seq<Task>) {
    forall i, j :: 0 <= i < j < |s| ==> CreatedKey(s[i]) > CreatedKey(s[j])
  }

  /** Every task in `s` was created after `b`. */
  predicate KeysAbove(s: seq<Task>, b: int) {
    forall i :: 0 <= i < |s| ==> CreatedKey(s[i]) > b
  }

  lemma {:induction false} ReversedKeysAbove(s: seq<Task>, b: int)
    requires KeysAbove(s, b)
    ensures KeysAbove(Reversed(s), b)
  {
    if s != [] {
      ReversedKeysAbove(s[..|s| - 1], b);
    }
  }

  /** Dropping the newest-first snapshot's last task keeps it newest first, and every earlier task is newer than that one. */
  lemma NewestFirstInit(s: seq<Task>)
    requires s != [] && NewestFirst(s)
    ensures NewestFirst(s[..|s| - 1])
    ensures KeysAbove(Reversed(s[..|s| - 1]), CreatedKey(s[|s| - 1]))
  {
    var init, last := s[..|s| - 1], s[|s| - 1];
    forall i, j | 0 <= i < j < |init| ensures CreatedKey(init[i]) > CreatedKey(init[j]) {
      assert init[i] == s[i] && init[j] == s[j];
    }
    forall i | 0 <= i < |init| ensures CreatedKey(init[i]) > CreatedKey(last) {
      assert init[i] == s[i];
    }
    ReversedKeysAbove(init, CreatedKey(last));
  }

  /** A snapshot delivered newest first is cached in exactly the reverse order. */
  lemma {:induction false} NewestFirstReversed(s: seq<Task>)
    requires NewestFirst(s)
    ensures SortByCreated(s) == Reversed(s)
  {
    if s != [] {
      var init, last := s[..|s| - 1], s[|s| - 1];
      NewestFirstInit(s);
      NewestFirstReversed(init);
      var r := Reversed(init);
      InsertAt(r, last, 0);
      assert r[..0] == [] && r[0..] == r;
    }
  }
}
