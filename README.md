# OSS-Doorway quest engine in Dafny

OSS-Doorway is a GitHub bot that walks newcomers through three quests
(Q1, Q2, Q3) of small tasks on an open-source repository. Each user has a
stored record with these fields:

- points and xp;
- the single `accepted` quest with a completed flag per task;
- a `current` (quest, task) pointer;
- the list of `completed` quests;
- a rounded `completion` share;
- the issue number chosen in Q2.

This project models the engine that moves that record. The operations are:

- `acceptQuest`, `removeQuest`, `completeQuest` and `completeTask`;
- `createQuestEnvironment`, the issue opened for each task;
- the per-task oracles behind `validateTask`;
- `getMapLink`, the progress image;
- the comment front end of `index.js`: routing of bot, slash and free-text
  comments, and `parseCommand`.

Modules:

- `JsText`: the JavaScript string behaviour the engine relies on. This is
  `trim`, `toLowerCase`, `includes`, and `Number` on the comments compared
  with counts and issue numbers.
- `QuestConfig`: the quest definition table (`quest_config.json`). It covers
  the keys a `for...in` loop visits, the task list without `metadata`,
  `indexOf`, and a task's reward.
- `Environment`: the issue `createQuestEnvironment` opens for a
  (quest, task) pair.
- `Progress`: each quest operation as a function from a user record to an
  `Outcome`. An outcome holds the success flag, the record left in the
  store and the issues opened.
- `ProgressLemmas`: properties across operations:
  - a consistency invariant that every operation preserves;
  - the single quest slot;
  - the Q1 → Q2 → Q3 chain;
  - the completion arithmetic;
  - reward re-application.
- `Oracle`: each task's decision on the data the platform returned (the
  `Evidence`). A failed request is an absent value.
- `MapLink`: `getMapLink`.
- `Commands`: `parseCommand` and the comment routing of `index.js`.
- `UserStore`: the class `QuestBot`. It holds the user collection as a map
  and the opened issues as a sequence. Its methods perform the quest
  operations in place, and each is proved to leave exactly the record and
  the issues the matching `Progress` function describes. `validateTask` is
  proved against `Oracle.TaskVerdict` and `Progress.CompleteTask`.

`completion` is kept in hundredths: the source's `0.6` is `60` here. Platform
answers, the quest table and the response texts are parameters:

- `Evidence` holds what the platform returned;
- `Prompts` holds the task prompts of `response.json`;
- `Config` is the quest table.

## Model

| member | source | states |
|---|---|---|
| JsText.Trim | index.js:117-119 | `trim` removes exactly the leading and trailing whitespace and line terminators. The result is the infix between them and neither starts nor ends with whitespace. |
| JsText.TrimNoSpace | index.js:118 | A string with no whitespace is its own trim. |
| JsText.LowerIncludesLetter | src/quest.js:320 | The lower-cased comment contains a lower-case letter exactly when the comment holds that letter in either case. |
| JsText.JsNumber | src/quest.js:358-359 | `Number(comment)` is a number exactly when the trimmed comment is all decimal digits, and the number is the value of those digits. A blank comment, the empty one included, reads as 0. |
| JsText.IncludesInfix | src/quest.js:592 | A needle found in one part of a text is found by `includes` in the whole text. |
| JsText.DecimalRoundTrip | src/quest.js:301 | Reading back the decimal rendering of n gives n. |
| JsText.PaddedNumber | src/quest.js:301 | Whitespace around a decimal number does not change what loose equality with a count sees. |
| QuestConfig.ForInKeys | src/quest.js:22 | `for...in` visits one key per entry of an object, or one per character of a string. |
| QuestConfig.ForInKeysOrder | src/quest.js:22 | The i-th key `for...in` visits is the object's i-th key, or the decimal rendering of i for a string. |
| QuestConfig.ForInKeysDistinct | src/quest.js:22 | The keys a `for...in` loop visits are pairwise distinct. For a string this follows from the decimal round trip. |
| QuestConfig.TaskIds | src/quest.js:125 | The filter keeps exactly the keys other than `metadata`, and never more keys than it was given. |
| QuestConfig.TaskIdsAppend | src/quest.js:125 | The filter keeps the order: filtering a concatenation gives the filtered parts concatenated. |
| QuestConfig.TaskIdsOne | src/quest.js:125 | A single key is kept exactly when it is not `metadata`. |
| QuestConfig.TaskIdsDistinct | src/quest.js:125 | Filtering keeps distinct keys distinct. |
| QuestConfig.IndexOf | src/quest.js:126 | `indexOf` is -1 exactly when the element is absent. Otherwise it is the first position holding it. |
| QuestConfig.TaskEntry | src/quest.js:113-114 | A reward is found exactly for a configured quest object and a non-`metadata` key among its keys. The entry found is one of that quest's entries, under that key, and the key is one of the quest's task ids. |
| Environment.Materialize | src/quest.js:167-282 | An issue is created exactly for a non-null task in the 13 pairs of the ladder whose title exists. It is titled "❗ quest task: desc" and its body is the prompt followed by the start link. |
| Environment.Opened | src/quest.js:269-281 | A call opens at most one issue: the created one, if any. |
| Progress.InitialFlags | src/quest.js:21-26 | The new flags cover exactly the quest's keys other than `metadata`, and all are incomplete. |
| Progress.AcceptQuest | src/quest.js:9-49 | Succeeds exactly when the quest key is configured and the user holds no quest; a refusal changes nothing. On success only that quest is held, all flags are open, and points, xp, completed and the chosen issue are kept. `current` is Q/T1 with completion 0 when the quest has keys, and the T1 issue is opened. |
| Progress.RemoveQuest | src/quest.js:51-66 | Succeeds exactly when `accepted` is present. It then drops `accepted` and `current` together and opens nothing. |
| Progress.Successor | src/quest.js:89-94 | The quest accepted after completion is never the completed one. |
| Progress.CompleteQuest | src/quest.js:68-105 | Succeeds exactly when the quest is held with every task done. It appends the quest to `completed`, keeps points and xp, and clears the slot. For Q1 and Q2 it then accepts the successor. |
| Progress.Hundredths | src/quest.js:128-130 | The stored completion is `100*done/total` rounded half up, in exact arithmetic (see Left out for floating point). |
| Progress.NextTask | src/quest.js:132-139 | The next task is the one after the current task in configuration order. None means the task was last or absent. |
| Progress.CompleteTask | src/quest.js:107-165 | Succeeds exactly when the reward exists, the task is accepted and `current` exists; a refusal changes nothing. On success it adds the task's points and xp and keeps the chosen issue. `completed` gains at most this quest. |
| ProgressLemmas.FreshConsistent | src/database.js:36-43 | A newly created record satisfies the consistency invariant: at most one accepted quest, flags equal to its tasks, `current` inside it. |
| ProgressLemmas.AcceptPreserves | src/quest.js:13-31 | acceptQuest preserves the consistency invariant. |
| ProgressLemmas.RemovePreserves | src/quest.js:54-57 | removeQuest preserves the consistency invariant. |
| ProgressLemmas.CompleteQuestPreserves | src/quest.js:72-95 | completeQuest preserves the consistency invariant. |
| ProgressLemmas.CompleteTaskPreserves | src/quest.js:113-139 | completeTask preserves the consistency invariant. |
| ProgressLemmas.SingleSlot | src/quest.js:19-20 | While any quest is held, accepting any quest, the same one included, fails and changes nothing. |
| ProgressLemmas.RemoveTwice | src/quest.js:54-61 | A second removeQuest fails and leaves the record of the first. |
| ProgressLemmas.RemoveThenAccept | src/quest.js:54-58 | removeQuest then acceptQuest gives the record and issue of accepting on a record that never held a quest. |
| ProgressLemmas.CompleteQuestOnce | src/quest.js:72-104 | completeQuest cannot succeed twice in a row for the same quest. |
| ProgressLemmas.ChainQ1ToQ2 | src/quest.js:89-91 | Completing Q1 logs it and leaves exactly Q2 held, all open, at T1 with completion 0. |
| ProgressLemmas.ChainQ2ToQ3 | src/quest.js:92-94 | Completing Q2 logs it and leaves exactly Q3 held, all open, at T1 with completion 0. |
| ProgressLemmas.Q3HasNoSuccessor | src/quest.js:89-94 | Completing Q3 leaves no quest held, no current pointer and no new issue. |
| ProgressLemmas.CompleteTaskSteps | src/quest.js:132-158 | Past its guards, completeTask either moves to the next task and opens its issue, or completes the quest first. |
| ProgressLemmas.CompletedTaskIndexed | src/quest.js:125-126 | An accepted task with a reward has a position in the quest's task list. |
| ProgressLemmas.NextTaskDiffers | src/quest.js:125-134 | In a configuration without duplicate keys, `current` always moves to a different task. |
| ProgressLemmas.AdvancedRecord | src/quest.js:118-139 | The record completeTask writes first has the task's flag set, the completion share up to this task, and `current` on the next task of the same quest. Only that flag changes: the quest's other flags, the other accepted quests, `completed` and the chosen issue stay as they were. |
| ProgressLemmas.CompleteTaskAdvances | src/quest.js:118-139 | On a task that is not last: the flag is set, completion is the rounded share up to this task, `current` moves to the next task and that task's issue is opened. `accepted` differs only in that flag, and `completed` and the chosen issue stay as they were. |
| ProgressLemmas.LastTaskCompletesQuest | src/quest.js:136-139 | On the last task, with the others done, the quest is logged as completed. After Q3 the slot is empty and completion is 100. |
| ProgressLemmas.RewardReapplied | src/quest.js:121-123 | Completing the same task twice pays its points and xp twice. |
| ProgressLemmas.RewardsMonotone | src/quest.js:121-123 | No operation lowers points or xp. Only completeTask raises them. |
| ProgressLemmas.FullCompletion | src/quest.js:128-130 | The last task always rounds to a full 100. |
| ProgressLemmas.CompletionRange | src/quest.js:128-130 | Completion stays within 0..100 and never drops for a later task. |
| ProgressLemmas.ThirdOfFive | src/quest.js:128-130 | 3 of 5 tasks store 0.6; 1 and 2 of 3 store 0.33 and 0.67. |
| Oracle.CountIssues | src/quest.js:451-452 | The issue count excludes pull requests. It is bounded by the listing, and it equals the listing exactly when no entry is a pull request. |
| Oracle.CountIssuesAppend | src/quest.js:451-452 | The issue count adds up over a concatenation of listings. |
| Oracle.CountIssuesOne | src/quest.js:451 | One entry counts 1 exactly when it is not a pull request. |
| Oracle.IssueCount | src/quest.js:445-461 | The count is null exactly when the listing request failed. |
| Oracle.IsFirstAssignee | src/quest.js:463-483 | True exactly when the issue is readable and has no assignee or only the user. |
| Oracle.ListIncludes | src/quest.js:821 | `includes` holds exactly when some element equals the login. |
| Oracle.CommentedBy | src/quest.js:737-739 | `some` holds exactly when some comment is by the user. |
| Oracle.CheckAssignee | src/quest.js:799-829 | True exactly when the selected issue is readable and lists the user among its assignees. An unselected or unreadable issue gives false. |
| Oracle.UserCommented | src/quest.js:719-745 | True exactly when the selected issue's comments were read and one of them is by the user. An unselected or unreadable issue gives false. |
| Oracle.JoinIncludes | src/quest.js:585 | Whatever one comment body contains, the joined bodies contain. |
| Oracle.ContributorMentioned | src/quest.js:532-606 | True only when the contributors and the selected issue were read and some contributor's `@login` occurs in the issue body and comments text. Any failed request gives false. |
| Oracle.MentionInBody | src/quest.js:588-597 | A contributor's `@login` in the selected issue's body makes the mention check pass. |
| Oracle.MentionInComment | src/quest.js:585-597 | A contributor's `@login` in any one comment of the selected issue makes the mention check pass. |
| Oracle.FindMention | src/quest.js:591-597 | The loop decides the mention predicate: it finds a contributor exactly when some `@login` occurs in the text. It reports the first such contributor. |
| Oracle.IssueClosed | src/quest.js:773-797 | True only for a readable selected issue whose state is "closed". An unselected or unreadable issue gives false. |
| Oracle.FirstPullBy | src/quest.js:685-687 | `find` returns the first pull request by the user, and None exactly when there is none. |
| Oracle.UserPrAndComment | src/quest.js:667-717 | Passing requires that the pull requests were read and that one of them is by the user. |
| Oracle.UserPrAndCommentExactly | src/quest.js:667-717 | True exactly when the pull requests were read and the user opened one. The first pull request the user opened must be readable with a comment by the user. |
| Oracle.TaskVerdict | src/quest.js:295-433 | Exactly the 12 validated (quest, task) pairs have a branch. Only Q1 T2 and Q2 T1 can end with an escaped request error. |
| Oracle.HintTasks | src/quest.js:317-336 | Q1 T3, Q1 T4 and Q3 T1 pass exactly when the comment holds "c", "d" or "a" in either case. |
| Oracle.IssueCountTask | src/quest.js:297-306 | Q1 T1 passes exactly when the listing was read and the comment reads as its number of issues. |
| Oracle.PullCountTask | src/quest.js:307-316 | Q1 T2 passes exactly when the comment reads as the number of pull requests. When the pull requests cannot be read, the error escapes. |
| Oracle.ContributorCountTask | src/quest.js:337-347 | Q1 T5 passes exactly when the lower-cased comment reads as the number of contributors, counted as 0 when they cannot be read. |
| Oracle.ActivityTasks | src/quest.js:378-421 | Q2 T3 passes exactly when the user commented on the selected issue. Q2 T4 passes exactly when some contributor's `@login` occurs in its text. Q3 T2 passes exactly when userPRAndComment holds. |
| Oracle.ChooseIssueExactly | src/quest.js:354-368 | Q2 T1 crashes when the open issues cannot be read. Otherwise it passes exactly for a number that is an open issue with no assignee or only the user. |
| Oracle.ChooseIssue | src/quest.js:354-363 | Q2 T1 passes only for a number that is an open issue with no assignee or only the user. |
| Oracle.ZeroContributorsOnFailure | src/quest.js:660-664 | A failed contributors request counts as zero, so "0" passes Q1 T5. |
| Oracle.FailedRequestsFail | src/quest.js:366-432 | With no readable selected issue, Q2 T2–T4 and Q3 T3 fail. Without the issue listing Q1 T1 fails, and without pull requests Q3 T2 fails. |
| Oracle.SelectedIssueTasks | src/quest.js:799-829 | Q2 T2 passes exactly when the user is an assignee of the selected issue. Q3 T3 passes exactly when that issue is closed. |
| Oracle.UnvalidatedTasks | src/quest.js:402-432 | Q3 T4 and a null task have no validation branch. |
| MapLink.DoneCount | src/quest.js:1202-1205 | The count of done tasks is 0 exactly when none is done, and the total exactly when all are done. |
| MapLink.GetMapLink | src/quest.js:1171-1215 | The image is chosen as follows: no user gives Q1; three completed quests give F; no quest gives Q1; no or zero done tasks give the quest image; all done gives the final image; otherwise the current task's image. Absent `accepted` throws. |
| MapLink.MidQuestImage | src/quest.js:1211-1213 | Half way through a quest the current task's image is shown. |
| Commands.DotStarToEnd | index.js:112 | `.*$` matches exactly a rest with no line terminator. |
| Commands.TryAlternative | index.js:112-120 | One alternative matches exactly when the name is followed by nothing, or by whitespace and a single line. The argument is then that tail trimmed, or undefined when empty. |
| Commands.ParseCommand | index.js:111-125 | The action is `new_user` or `reset` exactly when that alternative matches, and "" otherwise with argument "". A present argument never starts or ends with whitespace. |
| Commands.NameMustEnd | index.js:112 | `/new_userx` is no command. |
| Commands.LongerName | index.js:112 | `/resets now` is no command. |
| Commands.BareCommand | index.js:116-120 | A bare `/reset` has an undefined argument, and `/reset  ` has "". |
| Commands.LineBreakFirst | index.js:112 | The separating whitespace may be a line break. |
| Commands.LineBreakLater | index.js:112 | A line break later in the tail stops the match. |
| Commands.RouteComment | index.js:39-101 | Bot comments are dropped, comments starting with `/` are parsed, and all others go to validation. |
| Commands.SelectReply | index.js:55-81 | `new_user` creates the named user, `reset` wipes, and anything else gets the invalid-command reply. |
| Commands.UnknownSlashIsInvalid | index.js:77-79 | Every slash comment other than the two commands gets the invalid-command reply. |
| UserStore.WithChoice | src/quest.js:358-363 | The record handed to completeTask. For Q2 T1 with a comment that reads as a number, the number is stored as the chosen issue. Every other record is handed on unchanged. |
| UserStore.IssuesWithoutValidation | src/quest.js:258-262 | Every validated pair has an issue, and Q3 T4 is the only issued pair that is never validated. |
| UserStore.QuestBot.CreateUser | src/database.js:34-54 | Inserts a record with no points and no xp. It fails on an existing login. |
| UserStore.QuestBot.WipeUser | src/database.js:55-70 | Deletes the record, reporting whether one was there. |
| UserStore.QuestBot.CreateQuestEnvironment | src/quest.js:167-282 | Appends the issue of the pair, if any, and leaves the records alone. |
| UserStore.QuestBot.AcceptQuest | src/quest.js:9-49 | The key loop leaves exactly the record and issue of `Progress.AcceptQuest`. An unknown user changes nothing. |
| UserStore.QuestBot.RemoveQuest | src/quest.js:51-66 | Leaves exactly the record of `Progress.RemoveQuest`. |
| UserStore.QuestBot.CompleteQuest | src/quest.js:68-105 | Leaves exactly the record and issues of `Progress.CompleteQuest`. |
| UserStore.QuestBot.LogAndChain | src/quest.js:78-97 | Logging, clearing and accepting the successor leave the record of `Progress.CompleteQuest`. |
| UserStore.QuestBot.AcceptSuccessor | src/quest.js:89-94 | Accepts Q2 after Q1 and Q3 after Q2, and does nothing after Q3. |
| UserStore.QuestBot.CompleteTask | src/quest.js:107-165 | Leaves exactly the record and issues of `Progress.CompleteTask`. |
| UserStore.QuestBot.Advance | src/quest.js:118-158 | Writing the advanced record and completing the quest after the last task leave the record of `Progress.CompleteTask`. |
| UserStore.QuestBot.RecordPass | src/quest.js:358-365 | Storing the chosen issue and then completing the task leave the record of `Progress.CompleteTask` on the chosen record. |
| UserStore.QuestBot.ValidateTask | src/quest.js:284-443 | An unknown user or no current pointer gives no reply. A passing verdict completes the task, and a passing Q2 T1 stores the chosen number. A failing verdict gives the error reply and changes nothing. A task without a branch (Q3 T4, a null task) gives `NoBranch`, the reply object turned into the text "[object Object]" followed by the Home link; an escaped request error gives no reply. |
| UserStore.QuestBot.NewUserAsWritten | index.js:56-69 | As written, `/new_user` stores a record that holds no quest and no current task. |
| UserStore.QuestBot.NewUser | index.js:56-69 | Corrected: the new user accepts Q1 and holds Q1/T1. |
| UserStore.QuestBot.CommentAsWritten | index.js:92-99 | As written, a free-text comment is never judged and nothing is posted. |

## Left out

- The platform is not modelled:
  - REST and MongoDB calls become the `Evidence` parameter and the `QuestBot` fields.
  - Closing the task issue (`issues.update`) is left out.
  - Posted comment texts are the `Answer` values.
  - `updateReadme`, `generateSVG`, `resetReadme`, `closeIssues` and `displayQuests` draw the README and badge and are left out.
- Concurrent webhook deliveries and the stale records they write back
  (last writer wins) are not modelled. Each operation runs alone on the store.
- Progress.Hundredths: `completion` is a float rounded to two places in the
  source; here it is an exact integer number of hundredths, rounded half up.
  The two agree for quests of fewer than 40 tasks. From 40 tasks up, floating
  point can store one hundredth less: 23 of 40 tasks is `57.49999999999999`
  before `Math.round`, so the source stores 0.57 where the model stores 58.
- JsText.JsNumber: only digit strings with whitespace around them are read as
  numbers. Signs, decimals, exponents, hexadecimal and "Infinity" are treated
  as not a number, so such comments never match a count or an issue number.
- JsText.Lower: lower-cases ASCII letters only.
- QuestConfig.TaskEntry: a string-valued quest key gives no reward, so in
  the model completeTask on one of its character indices is refused: no flag
  is set, `current` does not move and it returns false. The source finds the
  flag acceptQuest created under that index, sets it, adds `undefined` so
  that points and xp become NaN, advances `current` and returns true. A
  `metadata` task behaves alike in both: acceptQuest never creates its flag,
  so completeTask refuses it.
- The order of integer-like keys in JavaScript objects, and inherited keys,
  are not modelled: `for...in` visits the keys in their stored order.
- `response.json` is the `Prompts` parameter, and its nested lookups are
  flattened to one text per (quest, task).
- Of `src/database.js`, only `createUser` and `wipeUser` are modelled.
  Downloading a record and `updateData` (an upsert) are reads and writes of
  the `docs` map.
- `src/models/QuestCompletionModel.js` is not part of this model.
- The `issues.opened` handler of `index.js` (a canned reply) is not modelled.
- `/reset` wipes the commenter, not the argument. Its README and issue
  clean-up calls are left out.
- UserStore.QuestBot.NewUser: a `/new_user` with no argument passes
  `undefined` to `createUser`. The model takes the login as a string.
- Store-wide consistency is not a method postcondition. The consistency
  invariant is proved for every operation on the value functions
  (`ProgressLemmas.*Preserves`), and each method is proved equal to its
  value function.
- The model follows the source where a reader might expect otherwise:
  - Completing a finished task again pays its reward again
    (`ProgressLemmas.RewardReapplied`).
  - The PR-count request error and a failed open-issue listing escape the
    oracle, and `validateTask` then posts nothing (`Oracle.Verdict.Crashed`).
  - `acceptQuest` writes `current` and `completion` inside the key loop, so a
    quest without keys leaves both as they were.
- Q3 T4 has an issue but no validation branch, so a user whose current task
  is Q3 T4 can never complete it (`UserStore.IssuesWithoutValidation`). No
  intended rule for it can be read from the code, so it is not corrected.

## Findings

| source | as written | input that shows it | evidently intended | confidence | as-written member | corrected member |
|---|---|---|---|---|---|---|
| index.js:62 | `acceptQuest(context, user_document.user_data, "Q1")` passes the record as the database, "Q1" as the login and no quest. The call returns false without changing anything, and line 65 writes back the record just created. | `/new_user alice` on an empty store, with Q1 configured: alice is stored with no quest and no current task. | The new user accepts Q1 and holds Q1/T1, with the T1 issue opened. | high (not executed) | UserStore.QuestBot.NewUserAsWritten | UserStore.QuestBot.NewUser |
| index.js:95 | `validateTask(user_document.user_data, context, user)` passes the record as the database. `db.downloadUserData` is then not a function, the error is caught inside `validateTask`, and no comment is ever judged. | A registered user on Q1 T3 comments "c": nothing is posted and the task stays open. | The comment is judged against the current task, which passes and advances. | high (not executed) | UserStore.QuestBot.CommentAsWritten | UserStore.QuestBot.ValidateTask |
