/** `createQuestEnvironment`: given a (quest, task) pair, the issue the bot opens
    to present that task. Only the pairs of its if/else ladder open an issue. */
module Environment {
  import opened JsText
  import opened QuestConfig

  datatype NewIssue = NewIssue(title: string, body: string)

  /** The prompt texts of `response.json`, by (quest, task); a missing text is
      rendered by JavaScript as "undefined". */
  type Prompts = map<(string, string), string>

  function PromptOf(prompts: Prompts, quest: string, task: string): string {
    if (quest, task) in prompts then prompts[(quest, task)] else "undefined"
  }

  /** The (quest, task) pairs the ladder recognises. */
  const Catalogue: set<(string, string)> := {
    ("Q1", "T1"), ("Q1", "T2"), ("Q1", "T3"), ("Q1", "T4"), ("Q1", "T5"),
    ("Q2", "T1"), ("Q2", "T2"), ("Q2", "T3"), ("Q2", "T4"),
    ("Q3", "T1"), ("Q3", "T2"), ("Q3", "T3"), ("Q3", "T4")
  }

  /** The fixed call to action appended to every prompt. */
  function StartLink(cfg: Config): string {
    "\n\n[Click here to start](https://github.com/" + OssRepo(cfg) + ")"
  }

  /** The ladder's branches: which task names each quest knows. */
  predicate LadderSelects(quest: string, task: string) {
    if quest == "Q1" then task == "T1" || task == "T2" || task == "T3" || task == "T4" || task == "T5"
    else if quest == "Q2" || quest == "Q3" then task == "T1" || task == "T2" || task == "T3" || task == "T4"
    else false
  }

  /** The task title `quests[quest][task].desc`; None where that lookup throws. */
  function TitleOf(cfg: Config, quest: string, task: string): Option<string> {
    if quest in cfg && cfg[quest].QuestObject? then
      var e := FindEntry(cfg[quest].entries, task);
      if e.Some? then Some(e.value.desc) else None
    else None
  }

  /** The issue opened for (quest, task), or None when nothing is created: an
      unrecognised pair, a null task, or a title the configuration lacks (the
      source's creation attempt then fails and is swallowed). */
  function Materialize(cfg: Config, prompts: Prompts, quest: string, task: Option<string>): (r: Option<NewIssue>)
    ensures r.Some? <==> task.Some? && (quest, task.value) in Catalogue && TitleOf(cfg, quest, task.value).Some?
    ensures r.Some? ==> r.value.title == "\U{2757} " + quest + " " + task.value + ": " + TitleOf(cfg, quest, task.value).value
    ensures r.Some? ==> r.value.body == PromptOf(prompts, quest, task.value) + StartLink(cfg)
  {
    if task.Some? && LadderSelects(quest, task.value) then
      var title := TitleOf(cfg, quest, task.value);
      if title.Some? then
        Some(NewIssue("\U{2757} " + quest + " " + task.value + ": " + title.value,
                      PromptOf(prompts, quest, task.value) + StartLink(cfg)))
      else None
    else None
  }

  /** The issues a call leaves behind: none or one. */
  function Opened(r: Option<NewIssue>): (s: seq<NewIssue>)
    ensures |s| <= 1
    ensures r.Some? ==> s == [r.value]
    ensures r.None? ==> s == []
  {
    if r.Some? then [r.value] else []
  }
}
