# Flex-time dashboard: ledger and task-checklist session in Dafny

The dashboard turns a completed daily checklist into "flex time" minutes. It keeps a
debt of "screen time" minutes for overages. Both balances and the task list live in a
remote document store, and the page keeps a cache of the last snapshot it received.

This project models one session of `js/main.js`:

- the cached ledger (`flexTimeBalance`, `screenTimeDebt`);
- the cached task list (`currentTasks`);
- whether a user is signed in (`userId`).

The two snapshot handlers are the only code that assigns that cache. The user actions
(add, toggle, reset, request reward, report overage) only compute the remote writes
and popups they would issue. In the model, each action is a method of
`Session.Dashboard` with no `modifies` clause. So Dafny itself checks that no action
patches the cache; a change shows up only when the store sends the next snapshot.

Modules:

- `Wrappers`: the `Option` type shared by the task record and the profile snapshot.
- `Text`: JavaScript's `trim` and the decimal rendering of counts.
- `Tasks`: the task record, the `completed` filter, the stable sort by `createdAt`, and
  the default routine.
- `Ledger`: reward and deduction arithmetic, and what any sequence of ledger writes
  does to the balances.
- `Effects`: write intents, popups (`Notice`), the store's answer (`StoreReply`), and
  the loop that awaits writes one at a time.
- `Display`: progress percent, label and colour, and the balance colours.
- `Session`: the `Dashboard` class, plus a few concrete scenarios checked against the
  contracts.

A store rejection is a parameter: `StoreReply.RejectsWrite(i)` says which awaited write
of the action is the first the store rejects. The handler's catch block then gives the
`Error` popup. For a loop of awaited writes, the writes after the rejected one are never
sent.

Things the proofs show about the code as written:

- A reward clears `min(30, debt)` of debt and pays out the rest as flex time.
- Flex minus debt goes up by exactly 30 per granted reward. It goes down by `2·m` per
  overage of `m` minutes, because an overage both lowers flex and raises debt
  (`Ledger.ReplayNet`).
- Rounding can make the progress bar show 100% before every task is done: 199 of 200
  gives 100 (`Display.FullBarWithoutAllDone`). The bar's colour still needs all tasks
  done.
- The code does not seed the default routine once per user. It decides on each
  snapshot: it seeds whenever a snapshot has no documents and no document changes
  (`OnTasksSnapshot`).
  After the user deletes every task, the deletions show up as document changes, so no
  reseed happens then. An empty snapshot with no changes seeds again.
- The engine's sort algorithm is not visible, but `Array.prototype.sort` is stable.
  `Tasks.StableSortIsSortByCreated` shows that every stable sort by creation key gives
  the model's `SortByCreated`. So `SortCache`, an insertion sort, gives what the page
  gives.

## Model

| member | source | states |
|---|---|---|
| `Session.Dashboard.constructor` | js/main.js:22-29 | The session starts with 60 minutes of flex time, no debt, no cached tasks and no user. |
| `Session.Dashboard.SignIn` | js/main.js:89-91 | When the identity provider reports a user, the session counts as signed in. |
| `Session.Dashboard.OnProfileSnapshot` | js/main.js:118-131 | If the document exists, both balances are copied from it, and an absent field reads as 0; nothing is written. If it is missing, the document is created with flex 60 and debt 0, the cache takes the same values, and "SYSTEM READY" shows. |
| `Session.Dashboard.OnTasksSnapshot` | js/main.js:142-156 | The cache becomes the snapshot's documents sorted by creation time. Writes are issued iff the snapshot has no documents and no changes. Those writes are the default routine's adds, in order, all not completed. "DEFAULT ROUTINE" shows only when all of them land, and the writes stop at the first rejected one. |
| `Session.Dashboard.SortCache` | js/main.js:154 | After the in-place insertion sort, the cache equals the stable sort of its old contents by creation key. |
| `Session.Dashboard.InsertionStep` | js/main.js:154 | One pass of the sort: the first i+1 cached tasks become the earlier i with task i inserted after every task whose key is not larger, and the rest of the cache is untouched. |
| `Session.Dashboard.SubmitAddTask` | js/main.js:223-244 | A write is issued iff a user is signed in and the name is not all white space. The write adds the trimmed name and time with completed = false. It gives "TASK ADDED" with the trimmed name, or the add error if rejected. No write means no popup. |
| `Session.Dashboard.ToggleTask` | js/main.js:247-256 | Without a user, nothing happens. Otherwise exactly one write sets that task's completed flag, and a rejection gives the toggle error. |
| `Session.Dashboard.ResetTasks` | js/main.js:259-278 | Without a user, nothing happens. With no completed task: "NO TASKS TO RESET" and zero writes. Otherwise one delete per completed task, in cache order, and "TASKS CLEARED" with that count. If a delete is rejected, the deletes stop there and the reset error shows. |
| `Session.Dashboard.RequestConfirmation` | js/main.js:301-334 | Without a user, nothing happens. With no tasks: "HOLD UP" and no write. With some incomplete: "MISSION INCOMPLETE" with total − completed, and no write. A write is issued iff a user is signed in, there is a task, and every task is completed. That write is one profile update with the rewarded balances, after "REQUEST SENT", then "ACCESS GRANTED" with the cleared debt, or the reward error. |
| `Session.Dashboard.DeductOverage` | js/main.js:337-350 | Without a user, nothing happens. Otherwise one profile update writes flex − m and debt + m, then the overage warning or the deduct error. |
| `Session.OrZero` | js/main.js:121-122 | The `or 0` default of a balance field: a present field reads as its value, an absent one as 0. |
| `Session.UnfinishedMorningSorted` | js/main.js:154 | Worked example: tasks keyed 3, 1 and a missing timestamp are cached in the reverse order, with the missing one (key 0) first. |
| `Session.UnfinishedMorningCompleted` | js/main.js:262 | Worked example: of the cached morning (not done, done, done), the filter keeps the two completed tasks in cache order. |
| `Effects.IssueInOrder` | js/main.js:270-272 | Awaited writes go out one by one. All are sent iff none is rejected. Otherwise sending stops at the first rejected write, which is included, and the result reports failure. |
| `Effects.PopulateDefaultTasks` | js/main.js:163-180 | At least one write is sent, and the writes are a prefix of the four routine adds, each not completed. All four land → "DEFAULT ROUTINE". A rejection → writes up to it and no popup. |
| `Effects.DeletesOfIds` | js/main.js:270-271 | The reset's delete writes name a document iff one of the tasks it was given has that id. |
| `Effects.ResetDeletesExactlyCompleted` | js/main.js:262-272 | A reset deletes exactly the completed tasks: a delete write for an id is issued iff some cached task with that id is completed. |
| `Ledger.Reward` | js/main.js:315-322 | The written debt is never negative and never above the old debt (when that was non-negative). Flex never decreases. Flex gained plus debt cleared is exactly 30. Either all debt is gone or no flex was gained. |
| `Ledger.RewardDetermined` | js/main.js:315-322 | Those properties of `Reward` pin down the written balances uniquely. |
| `Ledger.Deduct` | js/main.js:340-343 | Flex + debt is unchanged, and debt grows by exactly the minutes. A non-negative deduction keeps debt non-negative. |
| `Ledger.DeductCanOverdraw` | js/main.js:341 | Flex is not clamped: deducting more than the balance makes it negative. |
| `Ledger.ReplayKeepsDebtNonNegative` | js/main.js:315-343 | From non-negative debt, any sequence of rewards and non-negative overages keeps debt non-negative. |
| `Ledger.ReplayNet` | js/main.js:315-343 | Over any sequence of writes, flex − debt rises by 30 per reward and falls by 2·m per overage of m. |
| `Tasks.Completed` | js/main.js:262 | The filter never yields more tasks than it was given. |
| `Tasks.CompletedAll` | js/main.js:304-312 | The filter keeps as many tasks as the cache holds iff every cached task is completed; this is the test the reward request makes. |
| `Tasks.CompletedMembers` | js/main.js:262 | A task is kept by the filter iff it is cached and completed, and left out iff it is cached and not completed. |
| `Tasks.CreatedKey` | js/main.js:154 | The comparator's sort key: the creation timestamp when there is one, 0 when it is missing. |
| `Tasks.Insert` | js/main.js:154 | Inserting a task makes the list one longer; where it lands is stated by `InsertAt`, and what it keeps by `InsertMultiset` and `InsertWithKey`. |
| `Tasks.SortByCreated` | js/main.js:154 | The sorted cache has as many tasks as the snapshot; its order and contents are fixed by `SortedBySort`, `SortPermutes`, `SortStable` and `StableSortIsSortByCreated`. |
| `Tasks.NewestFirstReversed` | js/main.js:154 | A snapshot whose creation keys strictly decrease is cached in exactly the reverse order. |
| `Tasks.NewestFirstInit` | js/main.js:154 | Dropping the last task of a newest-first snapshot keeps it newest first, and every earlier task was created after the dropped one. |
| `Tasks.CompletedAppend` | js/main.js:262 | The filter keeps cache order: filtering a concatenation gives the concatenation of the filtered parts. |
| `Tasks.CompletedPartition` | js/main.js:262 | The tasks the filter keeps and the tasks it leaves out together are exactly the cached tasks, as a multiset. |
| `Tasks.SortedBySort` | js/main.js:154 | The sorted cache is non-decreasing by creation key, with a missing timestamp read as 0. |
| `Tasks.SortPermutes` | js/main.js:146-154 | The sorted cache is a permutation of the snapshot's documents. |
| `Tasks.SortStable` | js/main.js:154 | Tasks with equal creation keys keep their snapshot order. |
| `Tasks.StableSortUnique` | js/main.js:154 | Two sorted sequences that agree on every key class are equal. |
| `Tasks.StableSortIsSortByCreated` | js/main.js:154 | Any stable sort of the snapshot by creation key gives the model's sorted cache. |
| `Tasks.SortKeepsSorted` | js/main.js:154 | A snapshot already in creation order is cached unchanged, so sorting the cache again changes nothing. |
| `Tasks.InsertAt` | js/main.js:154 | When every task from position j on has a larger key than x and the one before j does not, inserting x puts it exactly at position j. |
| `Text.FirstNonSpace` | js/main.js:225 | The first index from i on that holds no white space (or the length): everything skipped is white space. |
| `Text.EndOfNonSpace` | js/main.js:225 | Scanning back from j, not past lo: everything dropped is white space, and the character before the end, unless the end is lo, is not. |
| `Text.Trim` | js/main.js:225-226 | The result is a slice of the input that starts and ends with non-space, and only white space lies outside it. |
| `Text.TrimEmptyIff` | js/main.js:228 | A trimmed name is empty iff the input is all white space. |
| `Text.TrimIdempotent` | js/main.js:225-226 | Trimming a trimmed value changes nothing. |
| `Text.Decimal` | js/main.js:291 | A rendered count is a non-empty string of decimal digits with no leading zero unless the count is 0. |
| `Text.DecimalRoundTrip` | js/main.js:291 | Reading a rendered count back gives the count. |
| `Text.DecimalInjective` | js/main.js:291 | Different counts render differently. |
| `Display.Percent` | js/main.js:285-290 | The width is 0 with no tasks. Otherwise it is the whole percentage nearest to completed/total, with a half rounded up. It is always within 0..100. |
| `Display.UpdateProgress` | js/main.js:282-297 | The width is `Percent` of the completed and total counts, so within 0..100 and 0 with no tasks, and the label carries the same counts. The bar is blue iff there is a task and all tasks are completed, green otherwise. |
| `Display.FullBarWithoutAllDone` | js/main.js:285-290 | 199 of 200 tasks already rounds to a full bar. |
| `Display.ProgressLabel` | js/main.js:291 | The label is the completed count's digits, "/", the total's digits, then " Tasks Completed", each at its stated position. |
| `Display.FlexColour` | js/main.js:71 | The flex read-out is red iff the balance is negative, green otherwise. |
| `Display.DebtColour` | js/main.js:76 | The debt read-out is green iff no debt is owed (debt ≤ 0), red otherwise. |
| `Display.ProgressLabelInjective` | js/main.js:291 | The label "{completed}/{total} Tasks Completed" determines both counts. |
| `Display.RewardKeepsFlexGreen` | js/main.js:71 | A green flex read-out (flex ≥ 0) stays green after a reward. |
| `Display.RewardClearsDebtColour` | js/main.js:76 | After a reward the debt read-out is green (debt not > 0) iff the debt was at most 30. |
| `Display.OverageTurnsDebtRed` | js/main.js:76 | Any positive overage on non-negative debt turns the debt read-out red. |

## Left out

- Firebase setup and sign-in (js/main.js:4-18, 83-114): calls into an SDK that is not part of this model. Sign-in is the `signedIn` flag; configuration and initialisation errors are not modelled.
- `onSnapshot` subscription mechanics, the snapshot error callbacks (logging only), and async interleaving: each callback is a method that receives the snapshot as a value. Writes in flight are not modelled; `Ledger.Replay` assumes each write is read back before the next action.
- An awaited write that never settles: `StoreReply` says only that every write is accepted or which one is rejected first. The code sets no time-out, so with a hung write no popup shows and the later writes of a reset or of the default-routine seeding are never sent; the model has no such outcome.
- `serverTimestamp()` and `toMillis()`: timestamps are optional integers in milliseconds. The `lastUpdated` (profile creation), `lastReward` and `lastDeduction` stamps are recorded only as which field a write stamps (`Effects.Stamp`), not as times. The `createdAt` stamp that every task add and the default-routine seeding write (js/main.js:165-168, 234) is not part of `NewTask`; a task's key enters the model only when a snapshot delivers it.
- Document fields whose value is not a number: `data.flexTime || 0` also maps `NaN`, strings and `null` to 0 or passes them through. The model reads a field as present with an integer, or absent.
- DOM work: `renderTasks` (js/main.js:184-218, including its empty-list placeholder and the `!task.completed` value the checkbox passes to `toggleTask`), `showPopup`/`hidePopup` (js/main.js:49-67), clearing the form inputs, and the " min" text of the balance read-outs. Only popup identities and their values, the progress values and the colours are kept.
- Audio (`playSound`, js/main.js:32-45): a fire-and-forget side effect. Popups are modelled without their sound cue.
- Floating-point `toFixed(0)` (js/main.js:285-290): replaced by the integer round-half-up `(200·c + t) / (2·t)`. This can differ from the float result where `c/t·100` has no exact binary value.
- The profile `setDoc` (js/main.js:125) is not awaited, so its rejection shows no popup; the model emits the write and "SYSTEM READY" in every case.
- `console` logging and the `window.*` exports (js/main.js:353-357).
