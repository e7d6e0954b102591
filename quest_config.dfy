/** The quest definition table (`quest_config.json`), read once at start-up.
    It is a JSON object: each quest id maps to an object whose keys, in order,
    are the quest's task ids plus a `metadata` key; the same object also holds
    plain string settings such as `oss_repo` and `map_repo_link`. */
module QuestConfig {
  import opened JsText

  /** One key of a quest object: a task with its reward and title, or `metadata`. */
  datatype Entry = Entry(key: string, points: nat, xp: nat, desc: string)

  datatype ConfigValue =
    | QuestObject(entries: seq<Entry>)
    | Text(text: string)

  type Config = map<string, ConfigValue>

  const MetadataKey := "metadata"

  /** A parsed JSON object never holds the same key twice. */
  predicate WellFormed(cfg: Config) {
    forall q | q in cfg && cfg[q].QuestObject? ::
      forall i, j | 0 <= i < j < |cfg[q].entries| :: cfg[q].entries[i].key != cfg[q].entries[j].key
  }

  /** The keys `for (const k in value)` visits, in order: an object's own keys, or
      the indices "0", "1", ... of a string. */
  function ForInKeys(v: ConfigValue): (keys: seq<string>)
    ensures v.QuestObject? ==> |keys| == |v.entries|
    ensures v.Text? ==> |keys| == |v.text|
  {
    match v
    case QuestObject(entries) => seq(|entries|, i requires 0 <= i < |entries| => entries[i].key)
    case Text(s) => seq(|s|, i requires 0 <= i < |s| => DecimalString(i))
  }

  /** The keys a for-in loop visits, key by key: an object's own keys in
      their order, or the decimal indices of a string. */
  lemma ForInKeysOrder(v: ConfigValue)
    ensures v.QuestObject? ==> forall i | 0 <= i < |v.entries| :: ForInKeys(v)[i] == v.entries[i].key
    ensures v.Text? ==> forall i | 0 <= i < |v.text| :: ForInKeys(v)[i] == DecimalString(i)
  {
  }

  /** `keys.filter((t) => t !== "metadata")`. */
  function TaskIds(keys: seq<string>): (ids: seq<string>)
    ensures |ids| <= |keys|
    ensures forall t :: t in ids <==> t in keys && t != MetadataKey
  {
    if keys == [] then []
    else if keys[0] == MetadataKey then TaskIds(keys[1..])
    else [keys[0]] + TaskIds(keys[1..])
  }

  /** The filter keeps the order: filtering a concatenation concatenates the
      filtered parts. */
  lemma {:induction false} TaskIdsAppend(a: seq<string>, b: seq<string>)
    ensures TaskIds(a + b) == TaskIds(a) + TaskIds(b)
  {
    if a == [] {
      assert a + b == b;
    } else {
      var ab := a + b;
      assert ab[0] == a[0];
      assert ab[1..] == a[1..] + b;
      TaskIdsAppend(a[1..], b);
      assert TaskIds(ab) == (if a[0] == MetadataKey then [] else [a[0]]) + TaskIds(a[1..] + b);
    }
  }

  /** A single key is kept exactly when it is not `metadata`. */
  lemma TaskIdsOne(k: string)
    ensures TaskIds([k]) == if k == MetadataKey then [] else [k]
  {
    assert [k][1..] == [];
  }

  /** Filtering keeps distinct keys distinct. */
  lemma {:induction false} TaskIdsDistinct(keys: seq<string>)
    requires forall i, j | 0 <= i < j < |keys| :: keys[i] != keys[j]
    ensures forall i, j | 0 <= i < j < |TaskIds(keys)| :: TaskIds(keys)[i] != TaskIds(keys)[j]
  {
    if keys != [] {
      TaskIdsDistinct(keys[1..]);
      assert keys[0] !in keys[1..];
    }
  }

  /** The keys a for-in loop visits are distinct: an object's keys by
      well-formedness, a string's indices because each decimal rendering reads
      back as its own number. */
  lemma {:induction false} ForInKeysDistinct(v: ConfigValue)
    requires v.QuestObject? ==> forall i, j | 0 <= i < j < |v.entries| :: v.entries[i].key != v.entries[j].key
    ensures forall i, j | 0 <= i < j < |ForInKeys(v)| :: ForInKeys(v)[i] != ForInKeys(v)[j]
  {
    if v.Text? {
      forall i, j | 0 <= i < j < |v.text| ensures DecimalString(i) != DecimalString(j) {
        DecimalRoundTrip(i);
        DecimalRoundTrip(j);
      }
    }
  }

  /** `xs.indexOf(x)`: the first position of `x`, or -1. */
  function IndexOf(xs: seq<string>, x: string): (r: int)
    ensures -1 <= r < |xs|
    ensures r == -1 <==> x !in xs
    ensures r >= 0 ==> xs[r] == x && x !in xs[..r]
  {
    if xs == [] then -1
    else if xs[0] == x then 0
    else var k := IndexOf(xs[1..], x); if k == -1 then -1 else k + 1
  }

  /** The first entry of `entries` with key `key`, if any. */
  function FindEntry(entries: seq<Entry>, key: string): (r: Option<Entry>)
    ensures r.Some? <==> exists i | 0 <= i < |entries| :: entries[i].key == key
    ensures r.Some? ==> r.value in entries && r.value.key == key
  {
    if entries == [] then None
    else if entries[0].key == key then Some(entries[0])
    else FindEntry(entries[1..], key)
  }

  /** `quests[quest][task]` when it is a task entry: its reward and title.
      None where the source throws (unknown quest, unknown task), for a
      `metadata` task, and for a string-valued quest key, whose character
      entries carry no reward. */
  function TaskEntry(cfg: Config, quest: string, task: string): (r: Option<Entry>)
    ensures r.Some? <==> quest in cfg && cfg[quest].QuestObject? && task != MetadataKey && task in ForInKeys(cfg[quest])
    ensures r.Some? ==> task in TaskIds(ForInKeys(cfg[quest]))
    ensures r.Some? ==> r.value in cfg[quest].entries && r.value.key == task
  {
    if quest in cfg && cfg[quest].QuestObject? && task != MetadataKey then
      var e := FindEntry(cfg[quest].entries, task);
      if e.Some? then
        var i :| 0 <= i < |cfg[quest].entries| && cfg[quest].entries[i].key == task;
        assert ForInKeys(cfg[quest])[i] == task;
        e
      else None
    else None
  }

  /** A quest's task ids in configuration order (the `metadata` key skipped). */
  function TasksOf(cfg: Config, quest: string): seq<string>
    requires quest in cfg
  {
    TaskIds(ForInKeys(cfg[quest]))
  }

  /** The repository the task prompts link to (`quests.oss_repo`); JavaScript
      renders a missing value as "undefined". */
  function OssRepo(cfg: Config): string {
    if "oss_repo" in cfg && cfg["oss_repo"].Text? then cfg["oss_repo"].text else "undefined"
  }
}
