/** The bot's mutable state: the `user_data` collection of src/database.js,
    keyed by login, and the issues the bot has opened on the platform. The
    quest operations of src/quest.js download a record, change it and write it
    back; here they update the store in place, and each is proved to leave
    exactly the record and the issues the value-level functions of module
    Progress describe. */
module UserStore {
  import opened JsText
  import opened QuestConfig
  import opened Environment
  import opened Oracle
  import Progress
  import ProgressLemmas

  /** The comment validateTask posts: none (the user is unknown, has no
      current task, or a request error escaped), the task's success or error
      text, or, for a task without a branch, the reply object turned into the
      text "[object Object]" followed by the Home link. */
  datatype Answer = Silent | Success(quest: string, task: string) | Error(quest: string, task: string) | NoBranch

  /** The record validateTask hands to completeTask: for Q2 T1 the chosen
      issue number is stored first. */
  function WithChoice(d: Progress.UserData, quest: string, task: string, comment: string): (d1: Progress.UserData)
    ensures !(quest == "Q2" && task == "T1") || JsNumber(comment).None? ==> d1 == d
    ensures quest == "Q2" && task == "T1" && JsNumber(comment).Some? ==>
      d1 == d.(selectedIssue := Some(JsNumber(comment).value))
  {
    if quest == "Q2" && task == "T1" && JsNumber(comment).Some? then
      d.(selectedIssue := Some(JsNumber(comment).value))
    else d
  }

  /** Every pair validateTask judges has an issue in createQuestEnvironment;
      the one pair with an issue but no judgement is Q3 T4, so a user whose
      current task is Q3 T4 can never complete it. */
  lemma IssuesWithoutValidation()
    ensures Validated <= Catalogue
    ensures Catalogue - Validated == {("Q3", "T4")}
  {
  }

  class QuestBot {
    /** login -> `user_data` */
    var docs: map<string, Progress.UserData>
    /** Task issues opened so far, oldest first. */
    var issues: seq<NewIssue>

    constructor()
      ensures docs == map[] && issues == []
    {
      docs := map[];
      issues := [];
    }

    /** createUser (src/database.js:34-54): inserts a record with no points and
        no xp; the insert fails on a duplicate login. */
    method CreateUser(name: string) returns (ok: bool)
      modifies this
      ensures ok <==> name !in old(docs)
      ensures docs == if ok then old(docs)[name := Progress.Fresh] else old(docs)
      ensures issues == old(issues)
    {
      if name in docs {
        return false;
      }
      docs := docs[name := Progress.Fresh];
      ok := true;
    }

    /** wipeUser (src/database.js:55-70): deletes the record; reports whether one was there. */
    method WipeUser(name: string) returns (ok: bool)
      modifies this
      ensures ok <==> name in old(docs)
      ensures docs == old(docs) - {name}
      ensures issues == old(issues)
    {
      ok := name in docs;
      docs := docs - {name};
    }

    /** createQuestEnvironment (src/quest.js:167-282): opens the issue of a
        known (quest, task) pair; any other pair opens nothing. */
    method CreateQuestEnvironment(cfg: Config, prompts: Prompts, quest: string, task: Option<string>)
      modifies this
      ensures issues == old(issues) + Opened(Materialize(cfg, prompts, quest, task))
      ensures docs == old(docs)
    {
      var created := Materialize(cfg, prompts, quest, task);
      if created.Some? {
        issues := issues + [created.value];
      }
    }

    /** acceptQuest (src/quest.js:9-49): the for-in loop over the quest's keys
        builds the flags and points `current` at T1 on every iteration. */
    method AcceptQuest(cfg: Config, prompts: Prompts, user: string, quest: string) returns (ok: bool)
      modifies this
      ensures user !in old(docs) ==> !ok && docs == old(docs) && issues == old(issues)
      ensures user in old(docs) ==>
        var r := Progress.AcceptQuest(cfg, prompts, old(docs)[user], quest);
        ok == r.ok && docs == old(docs)[user := r.data] && issues == old(issues) + r.issues
    {
      if quest !in cfg || user !in docs {
        return false;
      }
      var d := docs[user];
      if !Progress.HasNoQuest(d) {
        return false;
      }
      var keys := ForInKeys(cfg[quest]);
      var flags: Progress.TaskFlags := map[];
      var current := d.current;
      var completion := d.completion;
      var i := 0;
      while i < |keys|
        invariant 0 <= i <= |keys|
        invariant forall k :: k in flags <==> k in keys[..i] && k != MetadataKey
        invariant forall k | k in flags :: !flags[k]
        invariant i == 0 ==> current == d.current && completion == d.completion
        invariant i > 0 ==> current == Some(Progress.Current(quest, Some("T1"))) && completion == Some(0)
      {
        if keys[i] != MetadataKey {
          flags := flags[keys[i] := false];
        }
        current := Some(Progress.Current(quest, Some("T1")));
        completion := Some(0);
        i := i + 1;
      }
      assert keys[..i] == keys;
      assert flags == Progress.InitialFlags(keys);
      var d1 := d.(accepted := Some(map[quest := flags]), current := current, completion := completion);
      assert d1 == Progress.AcceptQuest(cfg, prompts, d, quest).data;
      docs := docs[user := d1];
      CreateQuestEnvironment(cfg, prompts, quest, Some("T1"));
      ok := true;
    }

    /** removeQuest (src/quest.js:51-66). */
    method RemoveQuest(user: string) returns (ok: bool)
      modifies this
      ensures user !in old(docs) ==> !ok && docs == old(docs)
      ensures user in old(docs) ==>
        var r := Progress.RemoveQuest(old(docs)[user]);
        ok == r.ok && docs == old(docs)[user := r.data]
      ensures issues == old(issues)
    {
      if user !in docs || docs[user].accepted.None? {
        return false;
      }
      var d := docs[user];
      docs := docs[user := d.(accepted := None, current := None)];
      ok := true;
    }

    /** completeQuest (src/quest.js:68-105): logs the quest, clears the slot
        through RemoveQuest and accepts the successor quest. */
    method CompleteQuest(cfg: Config, prompts: Prompts, user: string, quest: string) returns (ok: bool)
      modifies this
      ensures user !in old(docs) ==> !ok && docs == old(docs) && issues == old(issues)
      ensures user in old(docs) ==>
        var r := Progress.CompleteQuest(cfg, prompts, old(docs)[user], quest);
        ok == r.ok && docs == old(docs)[user := r.data] && issues == old(issues) + r.issues
    {
      if user !in docs {
        return false;
      }
      var d := docs[user];
      if !(d.accepted.Some? && quest in d.accepted.value && Progress.AllDone(d.accepted.value[quest])) {
        return false;
      }
      LogAndChain(cfg, prompts, user, quest);
      ok := true;
    }

    /** The part of completeQuest past its guard (src/quest.js:78-97): the
        quest leaves `accepted` and joins `completed`, RemoveQuest clears the
        slot and the successor quest is accepted. */
    method LogAndChain(cfg: Config, prompts: Prompts, user: string, quest: string)
      requires user in docs
      requires var d := docs[user]; d.accepted.Some? && quest in d.accepted.value && Progress.AllDone(d.accepted.value[quest])
      modifies this
      ensures var r := Progress.CompleteQuest(cfg, prompts, old(docs)[user], quest);
        docs == old(docs)[user := r.data] && issues == old(issues) + r.issues
    {
      var d := docs[user];
      var d1 := d.(accepted := Some(d.accepted.value - {quest}),
                   completed := Some(d.completed.GetOr([]) + [quest]));
      docs := docs[user := d1];
      var removed := RemoveQuest(user);
      assert docs == old(docs)[user := Progress.Logged(d, quest)] && issues == old(issues);
      AcceptSuccessor(cfg, prompts, user, quest);
    }

    /** The end of completeQuest (src/quest.js:90-95): Q1 is followed by Q2 and
        Q2 by Q3. */
    method AcceptSuccessor(cfg: Config, prompts: Prompts, user: string, quest: string)
      requires user in docs
      modifies this
      ensures Progress.Successor(quest).None? ==> docs == old(docs) && issues == old(issues)
      ensures Progress.Successor(quest).Some? ==>
        var a := Progress.AcceptQuest(cfg, prompts, old(docs)[user], Progress.Successor(quest).value);
        docs == old(docs)[user := a.data] && issues == old(issues) + a.issues
    {
      if quest == "Q1" {
        var accepted := AcceptQuest(cfg, prompts, user, "Q2");
      }
      if quest == "Q2" {
        var accepted := AcceptQuest(cfg, prompts, user, "Q3");
      }
    }

    /** completeTask (src/quest.js:107-165): marks the task, adds its reward,
        records the completion and moves `current` on; after the last task the
        quest is completed. The issue of the new current task is opened last. */
    method CompleteTask(cfg: Config, prompts: Prompts, user: string, quest: string, task: string) returns (ok: bool)
      modifies this
      ensures user !in old(docs) ==> !ok && docs == old(docs) && issues == old(issues)
      ensures user in old(docs) ==>
        var r := Progress.CompleteTask(cfg, prompts, old(docs)[user], quest, task);
        ok == r.ok && docs == old(docs)[user := r.data] && issues == old(issues) + r.issues
    {
      if user !in docs {
        return false;
      }
      var d := docs[user];
      var entry := TaskEntry(cfg, quest, task);
      if entry.None? || !(d.accepted.Some? && quest in d.accepted.value && task in d.accepted.value[quest]) {
        return false;
      }
      if d.current.None? {
        return false;
      }
      Advance(cfg, prompts, user, quest, task);
      ok := true;
    }

    /** The part of completeTask past its guards (src/quest.js:118-158): the
        flag, the reward, the completion and the next-task pointer are written
        to the record; after the last task the quest is completed. */
    method Advance(cfg: Config, prompts: Prompts, user: string, quest: string, task: string)
      requires user in docs && Progress.CanComplete(cfg, docs[user], quest, task)
      modifies this
      ensures var r := Progress.CompleteTask(cfg, prompts, old(docs)[user], quest, task);
        docs == old(docs)[user := r.data] && issues == old(issues) + r.issues
    {
      var d := docs[user];
      ProgressLemmas.CompleteTaskSteps(cfg, prompts, d, quest, task);
      var d1 := Progress.Advanced(cfg, d, quest, task);
      docs := docs[user := d1];
      if d1.current.value.task.None? {
        var completed := CompleteQuest(cfg, prompts, user, quest);
      }
      CreateQuestEnvironment(cfg, prompts, quest, d1.current.value.task);
    }

    /** What validateTask does once the comment passed (src/quest.js:372-377
        and the completeTask calls of every branch): the chosen issue of Q2 T1
        is stored, then the task is completed. */
    method RecordPass(cfg: Config, prompts: Prompts, user: string, quest: string, task: string, comment: string)
      requires user in docs
      modifies this
      ensures var r := Progress.CompleteTask(cfg, prompts, WithChoice(old(docs)[user], quest, task, comment), quest, task);
        docs == old(docs)[user := r.data] && issues == old(issues) + r.issues
    {
      var d1 := WithChoice(docs[user], quest, task, comment);
      if quest == "Q2" && task == "T1" {
        docs := docs[user := d1];
      }
      assert docs == old(docs)[user := d1];
      var completed := CompleteTask(cfg, prompts, user, quest, task);
    }

    /** validateTask (src/quest.js:284-443): judges the comment against the
        user's current task and, when it passes, completes that task. */
    method ValidateTask(cfg: Config, prompts: Prompts, user: string, comment: string, ev: Evidence)
      returns (answer: Answer)
      modifies this
      ensures user !in old(docs) || old(docs)[user].current.None? ==>
        answer == Silent && docs == old(docs) && issues == old(issues)
      ensures user in old(docs) && old(docs)[user].current.Some? ==>
        var d := old(docs)[user];
        var quest := d.current.value.quest;
        var task := d.current.value.task;
        var v := TaskVerdict(quest, task, comment, user, d.selectedIssue, ev);
        && (v == Crashed ==> answer == Silent)
        && (v == Unhandled ==> answer == NoBranch)
        && (v == Failed ==> task.Some? && answer == Error(quest, task.value))
        && (v != Passed ==> docs == old(docs) && issues == old(issues))
        && (v == Passed ==>
              && task.Some? && answer == Success(quest, task.value)
              && var r := Progress.CompleteTask(cfg, prompts, WithChoice(d, quest, task.value, comment), quest, task.value);
                 docs == old(docs)[user := r.data] && issues == old(issues) + r.issues)
      ensures answer.Success? && (answer.quest, answer.task) == ("Q2", "T1") ==>
        user in docs && docs[user].selectedIssue == Some(JsNumber(comment).value)
    {
      if user !in docs || docs[user].current.None? {
        return Silent;
      }
      var d := docs[user];
      var quest := d.current.value.quest;
      var task := d.current.value.task;
      var verdict := TaskVerdict(quest, task, comment, user, d.selectedIssue, ev);
      match verdict
      case Crashed => answer := Silent;
      case Unhandled => answer := NoBranch;
      case Failed => answer := Error(quest, task.value);
      case Passed =>
        if quest == "Q2" && task.value == "T1" {
          ChooseIssue(comment, user, d.selectedIssue, ev);
        }
        RecordPass(cfg, prompts, user, quest, task.value, comment);
        answer := Success(quest, task.value);
    }

    /** The `/new_user` branch of index.js:56-69 as written. acceptQuest is
        handed the stored record where it expects the database, "Q1" where it
        expects the login and no quest, so it returns false without touching
        the store; the record written back at line 65 is the one just created.
        The new user is left holding no quest and no current task. */
    method NewUserAsWritten(name: string) returns (ok: bool)
      modifies this
      ensures ok <==> name !in old(docs)
      ensures docs == if ok then old(docs)[name := Progress.Fresh] else old(docs)
      ensures issues == old(issues)
      ensures ok ==> name in docs && Progress.HasNoQuest(docs[name]) && docs[name].current.None?
    {
      ok := CreateUser(name);
    }

    /** The `/new_user` branch as its comments describe it: the user is
        created and accepts Q1, whose first task issue is opened. */
    method NewUser(cfg: Config, prompts: Prompts, name: string) returns (ok: bool)
      modifies this
      ensures ok <==> name !in old(docs)
      ensures !ok ==> docs == old(docs) && issues == old(issues)
      ensures ok ==> var a := Progress.AcceptQuest(cfg, prompts, Progress.Fresh, "Q1");
        docs == old(docs)[name := a.data] && issues == old(issues) + a.issues
      ensures ok && "Q1" in cfg && |ForInKeys(cfg["Q1"])| > 0 ==>
        name in docs && docs[name].current == Some(Progress.Current("Q1", Some("T1")))
    {
      ok := CreateUser(name);
      if ok {
        var accepted := AcceptQuest(cfg, prompts, name, "Q1");
      }
    }

    /** The free-text branch of index.js:92-99 as written: validateTask is
        handed the record where it expects the database, its first call
        throws inside its own try, and the record written back is the one
        just read. No comment is judged and nothing is posted. */
    method CommentAsWritten(user: string, comment: string) returns (answer: Answer)
      ensures answer == Silent
    {
      answer := Silent;
    }
  }
}
