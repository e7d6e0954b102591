/** The per-user quest progression engine of `src/quest.js`, stated on values:
    each operation takes the user's stored record and gives back whether it
    succeeded, the record it leaves in the store and the task issues it opened.
    The store itself (module UserStore) performs these steps in place. */
module Progress {
  import opened JsText
  import opened QuestConfig
  import opened Environment

  /** quest task -> completed flag, as kept under `accepted[quest]`. */
  type TaskFlags = map<string, bool>

  /** `current`: the active quest and its next task; a null task means the
      quest's tasks are exhausted and completion is pending. */
  datatype Current = Current(quest: string, task: Option<string>)

  /** `user_data` of one stored document. `completion` is kept in hundredths. */
  datatype UserData = UserData(
    points: int,
    xp: int,
    accepted: Option<map<string, TaskFlags>>,
    current: Option<Current>,
    completed: Option<seq<string>>,
    completion: Option<int>,
    selectedIssue: Option<int>)

  /** The record `createUser` inserts: no points, no xp, nothing else. */
  const Fresh := UserData(0, 0, None, None, None, None, None)

  /** What an operation returns, leaves in the store, and opens on the platform. */
  datatype Outcome = Outcome(ok: bool, data: UserData, issues: seq<NewIssue>)

  /** A refusal: false, the record as it was, nothing opened. */
  function Unchanged(d: UserData): Outcome {
    Outcome(false, d, [])
  }

  /** True when the user holds no accepted quest: `accepted` absent or `{}`. */
  predicate HasNoQuest(d: UserData) {
    d.accepted.None? || d.accepted.value == map[]
  }

  /** The flags `acceptQuest` creates: every key of the quest but `metadata`, not completed. */
  function InitialFlags(keys: seq<string>): (flags: TaskFlags)
    ensures forall k :: k in flags <==> k in keys && k != MetadataKey
    ensures forall k | k in flags :: !flags[k]
  {
    map k | k in keys && k != MetadataKey :: false
  }

  /** acceptQuest (src/quest.js:9-49). The guard is key membership in the
      whole configuration object and an empty `accepted`, whatever quest it holds.
      `current` and `completion` are written inside the loop over the quest's
      keys, so a quest without keys leaves them as they were. */
  function AcceptQuest(cfg: Config, prompts: Prompts, d: UserData, quest: string): (r: Outcome)
    ensures r.ok <==> quest in cfg && HasNoQuest(d)
    ensures !r.ok ==> r == Unchanged(d)
    ensures r.ok ==> r.data.accepted == Some(map[quest := InitialFlags(ForInKeys(cfg[quest]))])
    ensures r.ok ==> r.data.points == d.points && r.data.xp == d.xp
    ensures r.ok ==> r.data.completed == d.completed && r.data.selectedIssue == d.selectedIssue
    ensures r.ok && |ForInKeys(cfg[quest])| > 0 ==>
      r.data.current == Some(Current(quest, Some("T1"))) && r.data.completion == Some(0)
    ensures r.ok && |ForInKeys(cfg[quest])| == 0 ==>
      r.data.current == d.current && r.data.completion == d.completion
    ensures r.ok ==> r.issues == Opened(Materialize(cfg, prompts, quest, Some("T1")))
  {
    if quest in cfg && HasNoQuest(d) then
      var keys := ForInKeys(cfg[quest]);
      var started := |keys| > 0;
      var d1 := d.(accepted := Some(map[quest := InitialFlags(keys)]),
                   current := if started then Some(Current(quest, Some("T1"))) else d.current,
                   completion := if started then Some(0) else d.completion);
      Outcome(true, d1, Opened(Materialize(cfg, prompts, quest, Some("T1"))))
    else
      Unchanged(d)
  }

  /** removeQuest (src/quest.js:51-66): drops `accepted` and `current` together,
      exactly when `accepted` is present (even as `{}`). */
  function RemoveQuest(d: UserData): (r: Outcome)
    ensures r.ok <==> d.accepted.Some?
    ensures r.ok ==> r.data == d.(accepted := None, current := None)
    ensures !r.ok ==> r == Unchanged(d)
    ensures r.issues == []
  {
    if d.accepted.Some? then Outcome(true, d.(accepted := None, current := None), [])
    else Unchanged(d)
  }

  /** The quest `completeQuest` auto-accepts next. */
  function Successor(quest: string): (next: Option<string>)
    ensures next.Some? ==> next.value != quest
  {
    if quest == "Q1" then Some("Q2") else if quest == "Q2" then Some("Q3") else None
  }

  predicate AllDone(flags: TaskFlags) {
    forall k | k in flags :: flags[k]
  }

  /** The record after the completed quest is logged and the slot cleared. */
  function Logged(d: UserData, quest: string): UserData {
    d.(accepted := None, current := None, completed := Some(d.completed.GetOr([]) + [quest]))
  }

  /** completeQuest (src/quest.js:68-105): acts only when `accepted[quest]` exists
      and all its tasks are completed; it then logs the quest in `completed`,
      clears the slot through removeQuest and accepts the successor quest. */
  function CompleteQuest(cfg: Config, prompts: Prompts, d: UserData, quest: string): (r: Outcome)
    ensures r.ok <==> d.accepted.Some? && quest in d.accepted.value && AllDone(d.accepted.value[quest])
    ensures !r.ok ==> r == Unchanged(d)
    ensures r.ok ==> r.data.completed == Some(d.completed.GetOr([]) + [quest])
    ensures r.ok ==> r.data.points == d.points && r.data.xp == d.xp
    ensures r.data.selectedIssue == d.selectedIssue
    ensures r.ok && Successor(quest).None? ==> r.data == Logged(d, quest) && r.issues == []
    ensures r.ok && Successor(quest).Some? ==>
      var next := AcceptQuest(cfg, prompts, Logged(d, quest), Successor(quest).value);
      r.data == next.data && r.issues == next.issues
  {
    if d.accepted.Some? && quest in d.accepted.value && AllDone(d.accepted.value[quest]) then
      var d1 := d.(accepted := Some(d.accepted.value - {quest}),
                   completed := Some(d.completed.GetOr([]) + [quest]));
      var d2 := RemoveQuest(d1).data;
      assert d2 == Logged(d, quest);
      var next := Successor(quest);
      if next.Some? then
        var a := AcceptQuest(cfg, prompts, d2, next.value);
        Outcome(true, a.data, a.issues)
      else
        Outcome(true, d2, [])
    else
      Unchanged(d)
  }

  /** `Math.round(100 * done / total)` for the stored completion, in hundredths
      (JavaScript rounds halves upwards). */
  function Hundredths(done: nat, total: nat): (h: int)
    requires total > 0
    ensures 2 * total * h <= 200 * done + total < 2 * total * (h + 1)
  {
    (200 * done + total) / (2 * total)
  }

  /** The task that follows `task` in configuration order, or None when it is the
      last one (or absent from the list). */
  function NextTask(tasks: seq<string>, task: string): (next: Option<string>)
    ensures next.Some? ==> 0 <= IndexOf(tasks, task) < |tasks| - 1 && next.value == tasks[IndexOf(tasks, task) + 1]
    ensures next.None? ==> IndexOf(tasks, task) == -1 || IndexOf(tasks, task) == |tasks| - 1
  {
    var i := IndexOf(tasks, task);
    if i != -1 && i < |tasks| - 1 then Some(tasks[i + 1]) else None
  }

  /** True when completeTask's guards pass: the configuration has a reward for
      the task, the user accepted it, and a `current` pointer exists to advance. */
  predicate CanComplete(cfg: Config, d: UserData, quest: string, task: string) {
    && TaskEntry(cfg, quest, task).Some?
    && d.accepted.Some? && quest in d.accepted.value && task in d.accepted.value[quest]
    && d.current.Some?
  }

  /** The record completeTask writes before any quest completion. */
  function Advanced(cfg: Config, d: UserData, quest: string, task: string): (d1: UserData)
    requires CanComplete(cfg, d, quest, task)
  {
    var e := TaskEntry(cfg, quest, task).value;
    var tasks := TasksOf(cfg, quest);
    var acc := d.accepted.value;
    d.(accepted := Some(acc[quest := acc[quest][task := true]]),
       points := d.points + e.points,
       xp := d.xp + e.xp,
       completion := Some(Hundredths(IndexOf(tasks, task) + 1, |tasks|)),
       current := Some(d.current.value.(task := NextTask(tasks, task))))
  }

  /** completeTask (src/quest.js:107-165). The reward is added whenever the
      flag exists, also when it was already set; the last task hands over to
      completeQuest; the issue for the new current task is opened last. */
  function CompleteTask(cfg: Config, prompts: Prompts, d: UserData, quest: string, task: string): (r: Outcome)
    ensures r.ok <==> CanComplete(cfg, d, quest, task)
    ensures !r.ok ==> r == Unchanged(d)
    ensures r.ok ==> r.data.points == d.points + TaskEntry(cfg, quest, task).value.points
    ensures r.ok ==> r.data.xp == d.xp + TaskEntry(cfg, quest, task).value.xp
    ensures r.data.selectedIssue == d.selectedIssue
    ensures r.ok ==> r.data.completed.GetOr([]) == d.completed.GetOr([]) ||
                     r.data.completed.GetOr([]) == d.completed.GetOr([]) + [quest]
  {
    if CanComplete(cfg, d, quest, task) then
      var d1 := Advanced(cfg, d, quest, task);
      var next := NextTask(TasksOf(cfg, quest), task);
      if next.Some? then
        Outcome(true, d1, Opened(Materialize(cfg, prompts, quest, next)))
      else
        var c := CompleteQuest(cfg, prompts, d1, quest);
        Outcome(true, c.data, c.issues + Opened(Materialize(cfg, prompts, quest, None)))
    else
      Unchanged(d)
  }
}
