/** Properties of the progression engine that relate several operations or
    several calls: the single accepted-quest slot, what a repeated call does,
    the completion arithmetic and the quest chain. */
module ProgressLemmas {
  import opened JsText
  import opened QuestConfig
  import opened Environment
  import opened Progress

  /** The task keys a quest's flags carry once accepted. */
  function TaskSet(v: ConfigValue): set<string> {
    set k | k in ForInKeys(v) && k != MetadataKey
  }

  /** The shape every record reachable from `createUser` keeps: at most one
      accepted quest, whose flags are exactly the quest's configured tasks, and a
      `current` pointer only into an accepted quest. */
  predicate Consistent(cfg: Config, d: UserData) {
    && (d.accepted.Some? ==> |d.accepted.value| <= 1)
    && (d.accepted.Some? ==> forall q | q in d.accepted.value ::
          q in cfg && d.accepted.value[q].Keys == TaskSet(cfg[q]))
    && (d.current.Some? ==> d.accepted.Some? && d.current.value.quest in d.accepted.value)
  }

  lemma FreshConsistent(cfg: Config)
    ensures Consistent(cfg, Fresh)
  {
  }

  lemma {:induction false} AcceptPreserves(cfg: Config, prompts: Prompts, d: UserData, quest: string)
    requires Consistent(cfg, d)
    ensures Consistent(cfg, AcceptQuest(cfg, prompts, d, quest).data)
  {
    var r := AcceptQuest(cfg, prompts, d, quest);
    if r.ok {
      var flags := InitialFlags(ForInKeys(cfg[quest]));
      assert flags.Keys == TaskSet(cfg[quest]);
      assert |map[quest := flags]| == 1 by {
        assert map[quest := flags].Keys == {quest};
      }
      if d.current.Some? {
        assert d.current.value.quest in d.accepted.value;
      }
    }
  }

  lemma RemovePreserves(cfg: Config, d: UserData)
    requires Consistent(cfg, d)
    ensures Consistent(cfg, RemoveQuest(d).data)
  {
  }

  lemma {:induction false} CompleteQuestPreserves(cfg: Config, prompts: Prompts, d: UserData, quest: string)
    requires Consistent(cfg, d)
    ensures Consistent(cfg, CompleteQuest(cfg, prompts, d, quest).data)
  {
    var r := CompleteQuest(cfg, prompts, d, quest);
    if r.ok {
      var l := Logged(d, quest);
      assert Consistent(cfg, l);
      if Successor(quest).Some? {
        AcceptPreserves(cfg, prompts, l, Successor(quest).value);
      }
    }
  }

  lemma {:induction false} CompleteTaskPreserves(cfg: Config, prompts: Prompts, d: UserData, quest: string, task: string)
    requires Consistent(cfg, d)
    ensures Consistent(cfg, CompleteTask(cfg, prompts, d, quest, task).data)
  {
    if CanComplete(cfg, d, quest, task) {
      var acc := d.accepted.value;
      var d1 := Advanced(cfg, d, quest, task);
      var acc1 := acc[quest := acc[quest][task := true]];
      assert acc1.Keys == acc.Keys;
      assert acc1[quest].Keys == acc[quest].Keys;
      assert Consistent(cfg, d1);
      if NextTask(TasksOf(cfg, quest), task).None? {
        CompleteQuestPreserves(cfg, prompts, d1, quest);
      }
    }
  }

  /** The single-slot rule: once any quest is accepted, no quest can be accepted,
      the same one included. */
  lemma SingleSlot(cfg: Config, prompts: Prompts, d: UserData, held: string, quest: string)
    requires d.accepted.Some? && held in d.accepted.value
    ensures !AcceptQuest(cfg, prompts, d, quest).ok
    ensures AcceptQuest(cfg, prompts, d, quest).data == d
  {
  }

  /** removeQuest clears the slot, so a second call finds nothing to remove. */
  lemma RemoveTwice(d: UserData)
    ensures !RemoveQuest(RemoveQuest(d).data).ok
    ensures RemoveQuest(RemoveQuest(d).data).data == RemoveQuest(d).data
  {
  }

  /** Removing a quest and accepting one gives the record a first acceptance
      gives, and the same issue. */
  lemma RemoveThenAccept(cfg: Config, prompts: Prompts, d: UserData, quest: string)
    requires d.accepted.Some?
    ensures AcceptQuest(cfg, prompts, RemoveQuest(d).data, quest)
         == AcceptQuest(cfg, prompts, d.(accepted := None, current := None), quest)
  {
  }

  /** completeQuest succeeds at most once in a row: after it, the finished quest
      is no longer accepted. */
  lemma {:induction false} CompleteQuestOnce(cfg: Config, prompts: Prompts, d: UserData, quest: string)
    requires CompleteQuest(cfg, prompts, d, quest).ok
    ensures !CompleteQuest(cfg, prompts, CompleteQuest(cfg, prompts, d, quest).data, quest).ok
  {
    var d1 := CompleteQuest(cfg, prompts, d, quest).data;
    var next := Successor(quest);
    if next.Some? {
      var a := AcceptQuest(cfg, prompts, Logged(d, quest), next.value);
      if a.ok {
        assert d1.accepted.value.Keys == {next.value};
      }
    }
  }

  /** Finishing Q1 logs it and leaves exactly Q2 accepted, all tasks open, at T1. */
  lemma ChainQ1ToQ2(cfg: Config, prompts: Prompts, d: UserData)
    requires CompleteQuest(cfg, prompts, d, "Q1").ok
    requires "Q2" in cfg && |ForInKeys(cfg["Q2"])| > 0
    ensures var r := CompleteQuest(cfg, prompts, d, "Q1").data;
      && r.completed == Some(d.completed.GetOr([]) + ["Q1"])
      && r.accepted == Some(map["Q2" := InitialFlags(ForInKeys(cfg["Q2"]))])
      && r.current == Some(Current("Q2", Some("T1")))
      && r.completion == Some(0)
  {
  }

  /** Finishing Q2 logs it and leaves exactly Q3 held, all tasks open, at T1. */
  lemma ChainQ2ToQ3(cfg: Config, prompts: Prompts, d: UserData)
    requires CompleteQuest(cfg, prompts, d, "Q2").ok
    requires "Q3" in cfg && |ForInKeys(cfg["Q3"])| > 0
    ensures var r := CompleteQuest(cfg, prompts, d, "Q2").data;
      && r.completed == Some(d.completed.GetOr([]) + ["Q2"])
      && r.accepted == Some(map["Q3" := InitialFlags(ForInKeys(cfg["Q3"]))])
      && r.current == Some(Current("Q3", Some("T1")))
      && r.completion == Some(0)
  {
  }

  /** Finishing Q3 has no successor: the slot stays empty. */
  lemma Q3HasNoSuccessor(cfg: Config, prompts: Prompts, d: UserData)
    requires CompleteQuest(cfg, prompts, d, "Q3").ok
    ensures CompleteQuest(cfg, prompts, d, "Q3").data.accepted.None?
    ensures CompleteQuest(cfg, prompts, d, "Q3").data.current.None?
    ensures CompleteQuest(cfg, prompts, d, "Q3").issues == []
  {
  }

  /** completeTask past its guards, step by step: the advanced record, then
      either the next task's issue or the completion of the quest. */
  lemma CompleteTaskSteps(cfg: Config, prompts: Prompts, d: UserData, quest: string, task: string)
    requires CanComplete(cfg, d, quest, task)
    ensures var d1 := Advanced(cfg, d, quest, task);
      && d1.current.Some?
      && var r := CompleteTask(cfg, prompts, d, quest, task);
      && (d1.current.value.task.Some? ==>
            r.data == d1 && r.issues == Opened(Materialize(cfg, prompts, quest, d1.current.value.task)))
      && (d1.current.value.task.None? ==>
            var c := CompleteQuest(cfg, prompts, d1, quest);
            r.data == c.data && r.issues == c.issues + Opened(Materialize(cfg, prompts, quest, None)))
  {
  }

  /** The position of a completed task in the quest's task list. */
  lemma {:induction false} CompletedTaskIndexed(cfg: Config, d: UserData, quest: string, task: string)
    requires CanComplete(cfg, d, quest, task)
    ensures 0 <= IndexOf(TasksOf(cfg, quest), task) < |TasksOf(cfg, quest)|
  {
    assert task in TasksOf(cfg, quest);
  }

  /** In a well-formed configuration a quest's task list repeats no id, so the
      task completeTask moves `current` to is never the one just completed. */
  lemma {:induction false} NextTaskDiffers(cfg: Config, quest: string, task: string)
    requires WellFormed(cfg) && quest in cfg
    requires NextTask(TasksOf(cfg, quest), task).Some?
    ensures NextTask(TasksOf(cfg, quest), task).value != task
  {
    var keys := ForInKeys(cfg[quest]);
    ForInKeysDistinct(cfg[quest]);
    TaskIdsDistinct(keys);
    var tasks := TasksOf(cfg, quest);
    var i := IndexOf(tasks, task);
    assert tasks[i] == task;
  }

  /** completeTask on a task that is not the last: the flag is set, `completion`
      is the rounded share of tasks up to and including this one, `current`
      moves to the next task and that task's issue is opened. */
  lemma {:induction false} CompleteTaskAdvances(cfg: Config, prompts: Prompts, d: UserData, quest: string, task: string)
    requires CanComplete(cfg, d, quest, task)
    requires NextTask(TasksOf(cfg, quest), task).Some?
    ensures var tasks := TasksOf(cfg, quest);
      var i := IndexOf(tasks, task);
      var r := CompleteTask(cfg, prompts, d, quest, task);
      && 0 <= i < |tasks| - 1
      && r.ok
      && r.data.accepted.value[quest][task]
      && r.data.completion == Some(Hundredths(i + 1, |tasks|))
      && r.data.current == Some(Current(d.current.value.quest, Some(tasks[i + 1])))
      && r.issues == Opened(Materialize(cfg, prompts, quest, Some(tasks[i + 1])))
      && r.data.accepted == Some(d.accepted.value[quest := d.accepted.value[quest][task := true]])
      && r.data.completed == d.completed
      && r.data.selectedIssue == d.selectedIssue
  {
    var tasks := TasksOf(cfg, quest);
    var i := IndexOf(tasks, task);
    var next := NextTask(tasks, task);
    CompletedTaskIndexed(cfg, d, quest, task);
    AdvancedRecord(cfg, d, quest, task);
    CompleteTaskSteps(cfg, prompts, d, quest, task);
    assert next == Some(tasks[i + 1]);
    assert CompleteTask(cfg, prompts, d, quest, task).data == Advanced(cfg, d, quest, task);
  }

  /** The record completeTask writes before any quest completion: the task's
      flag set, the completion share up to it, `current` on the next task.
      The quest's other flags, the other accepted quests, `completed` and the
      chosen issue stay as they were. */
  lemma AdvancedRecord(cfg: Config, d: UserData, quest: string, task: string)
    requires CanComplete(cfg, d, quest, task)
    ensures var d1 := Advanced(cfg, d, quest, task);
      var tasks := TasksOf(cfg, quest);
      && d1.accepted.Some? && quest in d1.accepted.value && task in d1.accepted.value[quest]
      && d1.accepted.value[quest][task]
      && d1.completion == Some(Hundredths(IndexOf(tasks, task) + 1, |tasks|))
      && d1.current == Some(Current(d.current.value.quest, NextTask(tasks, task)))
      && d1.accepted == Some(d.accepted.value[quest := d.accepted.value[quest][task := true]])
      && d1.completed == d.completed
      && d1.selectedIssue == d.selectedIssue
    ensures var acc, acc1 := d.accepted.value, Advanced(cfg, d, quest, task).accepted.value;
      && acc1.Keys == acc.Keys && acc1[quest].Keys == acc[quest].Keys
      && (forall k | k in acc[quest] && k != task :: acc1[quest][k] == acc[quest][k])
      && (forall q | q in acc && q != quest :: acc1[q] == acc[q])
  {
  }

  /** completeTask on the last task of a quest whose other tasks are done:
      the quest is logged in `completed` and the slot is cleared or handed to
      the successor quest. */
  lemma {:induction false} LastTaskCompletesQuest(cfg: Config, prompts: Prompts, d: UserData, quest: string, task: string)
    requires CanComplete(cfg, d, quest, task)
    requires IndexOf(TasksOf(cfg, quest), task) == |TasksOf(cfg, quest)| - 1
    requires forall k | k in d.accepted.value[quest] && k != task :: d.accepted.value[quest][k]
    ensures var r := CompleteTask(cfg, prompts, d, quest, task);
      && r.ok
      && r.data.completed == Some(d.completed.GetOr([]) + [quest])
      && (Successor(quest).None? ==> r.data.accepted.None? && r.data.current.None?)
      && (Successor(quest).None? ==> r.data.completion == Some(100))
  {
    var tasks := TasksOf(cfg, quest);
    CompletedTaskIndexed(cfg, d, quest, task);
    assert NextTask(tasks, task).None?;
    var d1 := Advanced(cfg, d, quest, task);
    var flags := d.accepted.value[quest][task := true];
    assert d1.accepted.value[quest] == flags;
    assert AllDone(flags);
    var c := CompleteQuest(cfg, prompts, d1, quest);
    assert c.ok;
    assert CompleteTask(cfg, prompts, d, quest, task).data == c.data;
    assert d1.completed == d.completed;
    if Successor(quest).None? {
      FullCompletion(|tasks|);
      assert d1.completion == Some(100);
      assert c.data == Logged(d1, quest);
    }
  }

  /** The reward is paid again when an already completed task is completed again. */
  lemma {:induction false} RewardReapplied(cfg: Config, prompts: Prompts, d: UserData, quest: string, task: string)
    requires CanComplete(cfg, d, quest, task)
    requires NextTask(TasksOf(cfg, quest), task).Some?
    ensures var once := CompleteTask(cfg, prompts, d, quest, task);
      var twice := CompleteTask(cfg, prompts, once.data, quest, task);
      && twice.ok
      && twice.data.points == d.points + 2 * TaskEntry(cfg, quest, task).value.points
      && twice.data.xp == d.xp + 2 * TaskEntry(cfg, quest, task).value.xp
  {
    var once := CompleteTask(cfg, prompts, d, quest, task);
    assert once.data == Advanced(cfg, d, quest, task);
    assert CanComplete(cfg, once.data, quest, task);
  }

  /** Points and xp never decrease, whichever operation runs. */
  lemma {:induction false} RewardsMonotone(cfg: Config, prompts: Prompts, d: UserData, quest: string, task: string)
    ensures var r := CompleteTask(cfg, prompts, d, quest, task); r.data.points >= d.points && r.data.xp >= d.xp
    ensures var r := CompleteQuest(cfg, prompts, d, quest); r.data.points == d.points && r.data.xp == d.xp
    ensures var r := AcceptQuest(cfg, prompts, d, quest); r.data.points == d.points && r.data.xp == d.xp
    ensures var r := RemoveQuest(d); r.data.points == d.points && r.data.xp == d.xp
  {
  }

  lemma MulMonotone(x: int, y: int, c: int)
    requires x <= y && 0 <= c
    ensures x * c <= y * c
  {
    assert y * c - x * c == (y - x) * c;
  }

  /** Integer division by a positive number is monotone in the dividend. */
  lemma {:induction false} DivMonotone(a: int, b: int, c: int)
    requires 0 <= a <= b && c > 0
    ensures a / c <= b / c
  {
    var qa, qb := a / c, b / c;
    assert qa * c <= a && b < qb * c + c;
    if qa > qb {
      MulMonotone(qb + 1, qa, c);
      assert false;
    }
  }

  /** Division undoes multiplication when the remainder is below the divisor. */
  lemma {:induction false} DivBy(q: int, c: int, m: int)
    requires c > 0 && 0 <= m < c
    ensures (q * c + m) / c == q
  {
    var x := q * c + m;
    var d := x / c;
    assert x == d * c + x % c;
    if d < q {
      MulMonotone(d + 1, q, c);
      assert false;
    } else if d > q {
      MulMonotone(q + 1, d, c);
      assert false;
    }
  }

  /** The last task always rounds to a full quest. */
  lemma {:induction false} FullCompletion(n: nat)
    requires n > 0
    ensures Hundredths(n, n) == 100
  {
    var c := 2 * n;
    assert 200 * n + n == 100 * c + n;
    DivBy(100, c, n);
  }

  /** The completion share stays within 0..100 hundredths, is 100 after the last
      task and never drops as later tasks are completed. */
  lemma {:induction false} CompletionRange(i: nat, j: nat, n: nat)
    requires i <= j < n
    ensures 0 <= Hundredths(i + 1, n) <= Hundredths(j + 1, n) <= 100
  {
    DivMonotone(200 * (i + 1) + n, 200 * (j + 1) + n, 2 * n);
    DivMonotone(200 * (j + 1) + n, 200 * n + n, 2 * n);
    FullCompletion(n);
  }

  /** The worked example: the third of five tasks leaves completion at 0.6. */
  lemma ThirdOfFive()
    ensures Hundredths(3, 5) == 60
    ensures Hundredths(1, 3) == 33 && Hundredths(2, 3) == 67
  {
  }
}
