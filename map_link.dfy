/** getMapLink (src/quest.js:1170-1215): the quest map image shown in the
    user's README, picked from the user's progress. */
module MapLink {
  import opened JsText
  import opened Progress

  /** `${task}`: a null task renders as "null". */
  function TaskText(task: Option<string>): string {
    if task.Some? then task.value else "null"
  }

  predicate NoneDone(flags: TaskFlags) {
    forall k | k in flags :: !flags[k]
  }

  /** A subset is no larger than its superset, and only as large when equal. */
  lemma {:induction false} SubsetCardinality<T>(a: set<T>, b: set<T>)
    requires a <= b
    ensures |a| <= |b|
    ensures |a| == |b| ==> a == b
  {
    if a != {} {
      var x :| x in a;
      SubsetCardinality(a - {x}, b - {x});
    }
  }

  /** `Object.values(flags).filter((t) => t.completed).length`. */
  function DoneCount(flags: TaskFlags): (n: nat)
    ensures n <= |flags|
    ensures n == 0 <==> NoneDone(flags)
    ensures n == |flags| <==> AllDone(flags)
  {
    var done := set k | k in flags && flags[k];
    assert forall k | k in flags :: flags[k] <==> k in done;
    assert NoneDone(flags) <==> done == {};
    assert AllDone(flags) <==> done == flags.Keys;
    SubsetCardinality(done, flags.Keys);
    |done|
  }

  /** The image for the user's progress, under `mapRepo` (`quests.map_repo_link`).
      `quest` and `task` are the current pointer ("" when there is none),
      `completed` the completed list (None where the caller passes ""). None is
      returned where the source throws: reading the keys or an entry of an
      absent `accepted`. */
  function GetMapLink(mapRepo: string, user: Option<UserData>, quest: string, task: Option<string>,
                      completed: Option<seq<string>>): (r: Option<string>)
    ensures user.None? ==> r == Some(mapRepo + "/Q1.png")
    ensures user.Some? && completed.Some? && |completed.value| == 3 ==> r == Some(mapRepo + "/F.png")
    ensures user.Some? && (completed.None? || |completed.value| != 3) && quest == "" ==>
      r == (if completed.Some? && user.value.accepted.None? then None else Some(mapRepo + "/Q1.png"))
    ensures user.Some? && (completed.None? || |completed.value| != 3) && quest != "" ==>
      var acc := user.value.accepted;
      && (acc.None? ==> r.None?)
      && (acc.Some? && (quest !in acc.value || NoneDone(acc.value[quest])) ==>
            r == Some(mapRepo + "/" + quest + ".png"))
      && (acc.Some? && quest in acc.value && acc.value[quest] != map[] && AllDone(acc.value[quest]) ==>
            r == Some(mapRepo + "/" + quest + "F.png"))
      && (acc.Some? && quest in acc.value && !NoneDone(acc.value[quest]) && !AllDone(acc.value[quest]) ==>
            r == Some(mapRepo + "/" + quest + TaskText(task) + ".png"))
  {
    if user.None? then Some(mapRepo + "/Q1.png")
    else if completed.Some? && |completed.value| == 3 then Some(mapRepo + "/F.png")
    else if quest == "" then
      // `Object.keys(accepted).indexOf(completed)` looks an array up among strings: always -1.
      if completed.Some? && user.value.accepted.None? then None
      else Some(mapRepo + "/Q1.png")
    else if user.value.accepted.None? then None
    else
      var acc := user.value.accepted.value;
      if quest !in acc || |acc[quest]| == 0 then Some(mapRepo + "/" + quest + ".png")
      else
        var done := DoneCount(acc[quest]);
        if done == 0 then Some(mapRepo + "/" + quest + ".png")
        else if done == |acc[quest]| then Some(mapRepo + "/" + quest + "F.png")
        else Some(mapRepo + "/" + quest + TaskText(task) + ".png")
  }

  /** A user half way through a quest sees the image of the current task. */
  lemma MidQuestImage(mapRepo: string, d: UserData, quest: string, task: string)
    requires quest != "" && d.accepted.Some? && quest in d.accepted.value && d.completed.None?
    requires "T1" in d.accepted.value[quest] && d.accepted.value[quest]["T1"]
    requires task in d.accepted.value[quest] && !d.accepted.value[quest][task]
    ensures GetMapLink(mapRepo, Some(d), quest, Some(task), d.completed) == Some(mapRepo + "/" + quest + task + ".png")
  {
    var flags := d.accepted.value[quest];
    assert !NoneDone(flags);
    assert !AllDone(flags);
  }
}
