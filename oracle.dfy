/** The validation oracle of `src/quest.js`: for each task, the decision taken
    on data already fetched from the platform. A request that failed is a None
    (or an issue number missing from `issues`); the decision then falls back to
    what the source's try/catch returns. */
module Oracle {
  import opened JsText

  datatype Comment = Comment(author: string, body: string)

  /** One issue (or pull request) with its comments; `body` is null when empty. */
  datatype Issue = Issue(assignees: seq<string>, state: string, body: Option<string>, comments: seq<Comment>)

  /** An entry of the repository's issue list; pull requests appear there too. */
  datatype Listing = Listing(number: int, isPullRequest: bool)

  datatype Pull = Pull(number: int, author: Option<string>)

  /** What the platform answered while one comment was validated. */
  datatype Evidence = Evidence(
    listing: Option<seq<Listing>>,
    openIssues: Option<seq<int>>,
    pulls: Option<seq<Pull>>,
    contributors: Option<seq<string>>,
    issues: map<int, Issue>)

  /** Issues in a listing, pull requests filtered out. */
  function CountIssues(listing: seq<Listing>): (n: nat)
    ensures n <= |listing|
    ensures n == |listing| <==> forall i | 0 <= i < |listing| :: !listing[i].isPullRequest
    ensures n == 0 <==> forall i | 0 <= i < |listing| :: listing[i].isPullRequest
  {
    if listing == [] then 0
    else (if listing[0].isPullRequest then 0 else 1) + CountIssues(listing[1..])
  }

  /** The count adds up over a concatenation. */
  lemma {:induction false} CountIssuesAppend(a: seq<Listing>, b: seq<Listing>)
    ensures CountIssues(a + b) == CountIssues(a) + CountIssues(b)
  {
    if a == [] {
      assert a + b == b;
    } else {
      var ab := a + b;
      assert ab[0] == a[0];
      assert ab[1..] == a[1..] + b;
      CountIssuesAppend(a[1..], b);
    }
  }

  /** One entry counts 1 exactly when it is not a pull request. */
  lemma CountIssuesOne(x: Listing)
    ensures CountIssues([x]) == if x.isPullRequest then 0 else 1
  {
    assert [x][1..] == [];
  }

  /** getIssueCount (src/quest.js:445-461): null when the request failed. */
  function IssueCount(ev: Evidence): (r: Option<nat>)
    ensures r.Some? <==> ev.listing.Some?
    ensures r.Some? ==> r.value <= |ev.listing.value|
  {
    if ev.listing.Some? then Some(CountIssues(ev.listing.value)) else None
  }

  /** isFirstAssignee (src/quest.js:463-483): the issue can be taken by `user`
      when nobody or only `user` is assigned; false when the issue cannot be read. */
  function IsFirstAssignee(ev: Evidence, number: Option<int>, user: string): (r: bool)
    ensures r <==> number.Some? && number.value in ev.issues &&
                   (ev.issues[number.value].assignees == [] || ev.issues[number.value].assignees == [user])
  {
    if number.Some? && number.value in ev.issues then
      var assignees := ev.issues[number.value].assignees;
      if |assignees| == 0 then true
      else if |assignees| == 1 && user in assignees then true
      else false
    else false
  }

  /** `logins.includes(user)`, scanning from the front. */
  function ListIncludes(logins: seq<string>, user: string): (b: bool)
    ensures b <==> exists i | 0 <= i < |logins| :: logins[i] == user
  {
    if logins == [] then false
    else logins[0] == user || ListIncludes(logins[1..], user)
  }

  /** `comments.some((c) => c.user.login === user)`, scanning from the front. */
  function CommentedBy(comments: seq<Comment>, user: string): (b: bool)
    ensures b <==> exists i | 0 <= i < |comments| :: comments[i].author == user
  {
    if comments == [] then false
    else comments[0].author == user || CommentedBy(comments[1..], user)
  }

  /** checkAssignee (src/quest.js:799-829): `user` is among the selected
      issue's assignees; a failed request yields undefined, which is falsy. */
  function CheckAssignee(ev: Evidence, selected: Option<int>, user: string): (b: bool)
    ensures selected.None? || selected.value !in ev.issues ==> !b
    ensures selected.Some? && selected.value in ev.issues ==>
      (b <==> exists i | 0 <= i < |ev.issues[selected.value].assignees| :: ev.issues[selected.value].assignees[i] == user)
  {
    selected.Some? && selected.value in ev.issues && ListIncludes(ev.issues[selected.value].assignees, user)
  }

  /** userCommentedInIssue (src/quest.js:719-745): the comment listing of the
      selected issue was read and one of its comments is by `user`; false
      when the listing cannot be read. */
  function UserCommented(ev: Evidence, selected: Option<int>, user: string): (b: bool)
    ensures selected.None? || selected.value !in ev.issues ==> !b
    ensures selected.Some? && selected.value in ev.issues ==>
      (b <==> exists i | 0 <= i < |ev.issues[selected.value].comments| :: ev.issues[selected.value].comments[i].author == user)
  {
    selected.Some? && selected.value in ev.issues && CommentedBy(ev.issues[selected.value].comments, user)
  }

  /** `parts.join(sep)`. */
  function Join(parts: seq<string>, sep: string): (s: string)
    ensures parts == [] ==> s == []
    ensures |parts| == 1 ==> s == parts[0]
  {
    if parts == [] then []
    else if |parts| == 1 then parts[0]
    else parts[0] + sep + Join(parts[1..], sep)
  }

  /** What any one part contains, the joined text contains. */
  lemma {:induction false} JoinIncludes(parts: seq<string>, sep: string, k: int, needle: string)
    requires 0 <= k < |parts| && Includes(parts[k], needle)
    ensures Includes(Join(parts, sep), needle)
  {
    if |parts| > 1 {
      var rest := Join(parts[1..], sep);
      assert Join(parts, sep) == parts[0] + sep + rest;
      if k == 0 {
        IncludesInfix([], parts[0], sep + rest, needle);
        assert [] + parts[0] + (sep + rest) == parts[0] + sep + rest;
      } else {
        JoinIncludes(parts[1..], sep, k - 1, needle);
        IncludesInfix(parts[0] + sep, rest, [], needle);
        assert parts[0] + sep + rest + [] == parts[0] + sep + rest;
      }
    }
  }

  /** The comment bodies of an issue, in order. */
  function Bodies(issue: Issue): seq<string> {
    seq(|issue.comments|, i requires 0 <= i < |issue.comments| => issue.comments[i].body)
  }

  /** The text searched for mentions: the issue body (null rendered as "null"),
      a space, and the comment bodies joined by spaces. */
  function MentionText(issue: Issue): string {
    (if issue.body.Some? then issue.body.value else "null") + " " + Join(Bodies(issue), " ")
  }

  /** Some contributor's `@login` occurs in `text`. */
  predicate Mentions(logins: seq<string>, text: string) {
    exists i | 0 <= i < |logins| :: Includes(text, "@" + logins[i])
  }

  /** isContributorMentionedInIssue (src/quest.js:532-606): some contributor's
      `@login` occurs in the selected issue's combined text; false when any of
      its three requests failed. */
  function ContributorMentioned(ev: Evidence, selected: Option<int>): (b: bool)
    ensures ev.contributors.None? || selected.None? || selected.value !in ev.issues ==> !b
    ensures b ==> exists i | 0 <= i < |ev.contributors.value| ::
      Includes(MentionText(ev.issues[selected.value]), "@" + ev.contributors.value[i])
  {
    && ev.contributors.Some?
    && selected.Some? && selected.value in ev.issues
    && Mentions(ev.contributors.value, MentionText(ev.issues[selected.value]))
  }

  /** A contributor mentioned in the body of the selected issue is found. */
  lemma {:induction false} MentionInBody(ev: Evidence, selected: Option<int>, i: int)
    requires ev.contributors.Some? && 0 <= i < |ev.contributors.value|
    requires selected.Some? && selected.value in ev.issues
    requires var issue := ev.issues[selected.value];
      issue.body.Some? && Includes(issue.body.value, "@" + ev.contributors.value[i])
    ensures ContributorMentioned(ev, selected)
  {
    var issue := ev.issues[selected.value];
    var needle := "@" + ev.contributors.value[i];
    IncludesInfix([], issue.body.value, " " + Join(Bodies(issue), " "), needle);
    assert [] + issue.body.value + (" " + Join(Bodies(issue), " ")) == MentionText(issue);
  }

  /** So is a contributor mentioned in any one of its comments. */
  lemma {:induction false} MentionInComment(ev: Evidence, selected: Option<int>, i: int, k: int)
    requires ev.contributors.Some? && 0 <= i < |ev.contributors.value|
    requires selected.Some? && selected.value in ev.issues
    requires var issue := ev.issues[selected.value];
      0 <= k < |issue.comments| && Includes(issue.comments[k].body, "@" + ev.contributors.value[i])
    ensures ContributorMentioned(ev, selected)
  {
    var issue := ev.issues[selected.value];
    var needle := "@" + ev.contributors.value[i];
    var head := (if issue.body.Some? then issue.body.value else "null") + " ";
    assert Bodies(issue)[k] == issue.comments[k].body;
    JoinIncludes(Bodies(issue), " ", k, needle);
    IncludesInfix(head, Join(Bodies(issue), " "), [], needle);
    assert head + Join(Bodies(issue), " ") + [] == MentionText(issue);
  }

  /** The search loop of isContributorMentionedInIssue (src/quest.js:591-597),
      which decides `Mentions`, the predicate ContributorMentioned is built on:
      the first contributor whose `@login` occurs in the text ends the search. */
  method FindMention(logins: seq<string>, text: string) returns (found: bool, at: int)
    ensures found <==> Mentions(logins, text)
    ensures found ==> 0 <= at < |logins| && Includes(text, "@" + logins[at])
    ensures found ==> forall j | 0 <= j < at :: !Includes(text, "@" + logins[j])
  {
    var i := 0;
    while i < |logins|
      invariant 0 <= i <= |logins|
      invariant forall j | 0 <= j < i :: !Includes(text, "@" + logins[j])
    {
      if Includes(text, "@" + logins[i]) {
        return true, i;
      }
      i := i + 1;
    }
    return false, -1;
  }

  /** issueClosed (src/quest.js:773-797): the selected issue reads back as
      closed; false when it cannot be read. */
  function IssueClosed(ev: Evidence, selected: Option<int>): (b: bool)
    ensures selected.None? || selected.value !in ev.issues ==> !b
    ensures b ==> ev.issues[selected.value].state == "closed"
  {
    selected.Some? && selected.value in ev.issues && ev.issues[selected.value].state == "closed"
  }

  /** The first pull request authored by `user`, as `find` returns it. */
  function FirstPullBy(pulls: seq<Pull>, user: string): (r: Option<Pull>)
    ensures r.Some? ==> r.value in pulls && r.value.author == Some(user)
    ensures r.Some? ==> exists i | 0 <= i < |pulls| ::
      pulls[i] == r.value && forall j | 0 <= j < i :: pulls[j].author != Some(user)
    ensures r.None? <==> forall i | 0 <= i < |pulls| :: pulls[i].author != Some(user)
  {
    if pulls == [] then None
    else if pulls[0].author == Some(user) then Some(pulls[0])
    else
      var r := FirstPullBy(pulls[1..], user);
      if r.Some? then
        var i :| 0 <= i < |pulls[1..]| && pulls[1..][i] == r.value && forall j | 0 <= j < i :: pulls[1..][j].author != Some(user);
        assert pulls[i + 1] == r.value;
        r
      else r
  }

  /** userPRAndComment (src/quest.js:667-717): `user` opened a pull request and
      commented on the first such pull request. */
  function UserPrAndComment(ev: Evidence, user: string): (r: bool)
    ensures r ==> ev.pulls.Some? && exists i | 0 <= i < |ev.pulls.value| :: ev.pulls.value[i].author == Some(user)
  {
    if ev.pulls.Some? then
      var pr := FirstPullBy(ev.pulls.value, user);
      pr.Some? && pr.value.number in ev.issues && CommentedBy(ev.issues[pr.value.number].comments, user)
    else false
  }

  /** The user's first pull request in the listing decides: userPRAndComment
      holds exactly when the pull requests were read, the user opened one, and
      the user commented on the first one they opened. */
  lemma {:induction false} UserPrAndCommentExactly(ev: Evidence, user: string)
    ensures UserPrAndComment(ev, user) <==>
      && ev.pulls.Some?
      && exists i | 0 <= i < |ev.pulls.value| ::
           && ev.pulls.value[i].author == Some(user)
           && (forall j | 0 <= j < i :: ev.pulls.value[j].author != Some(user))
           && ev.pulls.value[i].number in ev.issues
           && exists c | 0 <= c < |ev.issues[ev.pulls.value[i].number].comments| ::
                ev.issues[ev.pulls.value[i].number].comments[c].author == user
  {
    if ev.pulls.Some? {
      var pulls := ev.pulls.value;
      var r := FirstPullBy(pulls, user);
      if r.Some? {
        var k :| 0 <= k < |pulls| && pulls[k] == r.value && forall j | 0 <= j < k :: pulls[j].author != Some(user);
      }
    }
  }

  /** The lower-cased comment contains the hint. */
  predicate HintFound(comment: string, hint: string) {
    Includes(Lower(comment), hint)
  }

  /** The outcome of one validation: the oracle accepted or rejected the
      evidence, a request error escaped (no reply is posted), or the current
      (quest, task) has no branch. */
  datatype Verdict = Passed | Failed | Crashed | Unhandled

  function Decide(b: bool): Verdict {
    if b then Passed else Failed
  }

  /** The (quest, task) pairs validateTask has a branch for. */
  const Validated: set<(string, string)> :=
    {("Q1", "T1"), ("Q1", "T2"), ("Q1", "T3"), ("Q1", "T4"), ("Q1", "T5"),
     ("Q2", "T1"), ("Q2", "T2"), ("Q2", "T3"), ("Q2", "T4"),
     ("Q3", "T1"), ("Q3", "T2"), ("Q3", "T3")}

  /** validateTask's dispatch (src/quest.js:295-433) on already fetched data.
      Loose equality between the comment and a count compares `Number(comment)`. */
  function TaskVerdict(quest: string, task: Option<string>, comment: string, user: string,
                       selected: Option<int>, ev: Evidence): (v: Verdict)
    ensures v != Unhandled ==> task.Some? && quest in {"Q1", "Q2", "Q3"}
    ensures v == Crashed ==> (quest, task.value) in {("Q1", "T2"), ("Q2", "T1")}
    ensures v == Unhandled <==> task.None? || (quest, task.value) !in Validated
  {
    if task.None? then Unhandled
    else
      var t := task.value;
      if quest == "Q1" then
        if t == "T1" then
          var count := IssueCount(ev);
          Decide(count.Some? && JsNumber(comment) == Some(count.value))
        else if t == "T2" then
          if ev.pulls.None? then Crashed
          else Decide(JsNumber(comment) == Some(|ev.pulls.value|))
        else if t == "T3" then Decide(HintFound(comment, "c"))
        else if t == "T4" then Decide(HintFound(comment, "d"))
        else if t == "T5" then
          var count := if ev.contributors.Some? then |ev.contributors.value| else 0;
          Decide(JsNumber(Lower(comment)) == Some(count))
        else Unhandled
      else if quest == "Q2" then
        if t == "T1" then
          if ev.openIssues.None? then Crashed
          else
            var n := JsNumber(comment);
            Decide(n.Some? && n.value in ev.openIssues.value && IsFirstAssignee(ev, n, user))
        else if t == "T2" then Decide(CheckAssignee(ev, selected, user))
        else if t == "T3" then Decide(UserCommented(ev, selected, user))
        else if t == "T4" then Decide(ContributorMentioned(ev, selected))
        else Unhandled
      else if quest == "Q3" then
        if t == "T1" then Decide(HintFound(comment, "a"))
        else if t == "T2" then Decide(UserPrAndComment(ev, user))
        else if t == "T3" then Decide(IssueClosed(ev, selected))
        else Unhandled
      else Unhandled
  }

  /** The three text-hint tasks pass exactly when the comment holds the letter,
      in either case. */
  lemma {:induction false} HintTasks(comment: string, user: string, selected: Option<int>, ev: Evidence)
    ensures TaskVerdict("Q1", Some("T3"), comment, user, selected, ev) == Passed <==> ('c' in comment || 'C' in comment)
    ensures TaskVerdict("Q1", Some("T4"), comment, user, selected, ev) == Passed <==> ('d' in comment || 'D' in comment)
    ensures TaskVerdict("Q3", Some("T1"), comment, user, selected, ev) == Passed <==> ('a' in comment || 'A' in comment)
  {
    LowerIncludesLetter(comment, 'c');
    LowerIncludesLetter(comment, 'd');
    LowerIncludesLetter(comment, 'a');
  }

  /** Q1 T1 passes exactly when the issue listing was read and the comment
      reads as the number of issues in it, pull requests excluded. */
  lemma IssueCountTask(comment: string, user: string, selected: Option<int>, ev: Evidence)
    ensures TaskVerdict("Q1", Some("T1"), comment, user, selected, ev) == Passed <==>
      ev.listing.Some? && JsNumber(comment) == Some(CountIssues(ev.listing.value))
  {
  }

  /** Q1 T2 passes exactly when the comment reads as the number of pull
      requests; a failed pull request request escapes instead. */
  lemma PullCountTask(comment: string, user: string, selected: Option<int>, ev: Evidence)
    ensures ev.pulls.None? ==> TaskVerdict("Q1", Some("T2"), comment, user, selected, ev) == Crashed
    ensures ev.pulls.Some? ==>
      (TaskVerdict("Q1", Some("T2"), comment, user, selected, ev) == Passed <==> JsNumber(comment) == Some(|ev.pulls.value|))
  {
  }

  /** Q1 T5 passes exactly when the lower-cased comment reads as the number of
      contributors, counted as 0 when they could not be read. */
  lemma ContributorCountTask(comment: string, user: string, selected: Option<int>, ev: Evidence)
    ensures TaskVerdict("Q1", Some("T5"), comment, user, selected, ev) == Passed <==>
      JsNumber(Lower(comment)) == Some(if ev.contributors.Some? then |ev.contributors.value| else 0)
  {
  }

  /** The activity tasks: Q2 T3 passes exactly when the user commented on the
      selected issue, Q2 T4 exactly when a contributor's `@login` occurs in its
      text, Q3 T2 exactly when userPRAndComment holds. */
  lemma ActivityTasks(comment: string, user: string, selected: Option<int>, ev: Evidence)
    ensures TaskVerdict("Q2", Some("T3"), comment, user, selected, ev) == Passed <==>
      selected.Some? && selected.value in ev.issues &&
      exists i | 0 <= i < |ev.issues[selected.value].comments| :: ev.issues[selected.value].comments[i].author == user
    ensures TaskVerdict("Q2", Some("T4"), comment, user, selected, ev) == Passed <==>
      ev.contributors.Some? && selected.Some? && selected.value in ev.issues &&
      exists i | 0 <= i < |ev.contributors.value| :: Includes(MentionText(ev.issues[selected.value]), "@" + ev.contributors.value[i])
    ensures TaskVerdict("Q3", Some("T2"), comment, user, selected, ev) == Passed <==> UserPrAndComment(ev, user)
  {
  }

  /** Q2 T1 once the open issues were read: it passes exactly for a number
      naming an open issue with no assignee or only the user. */
  lemma ChooseIssueExactly(comment: string, user: string, selected: Option<int>, ev: Evidence)
    ensures ev.openIssues.None? ==> TaskVerdict("Q2", Some("T1"), comment, user, selected, ev) == Crashed
    ensures ev.openIssues.Some? ==>
      (TaskVerdict("Q2", Some("T1"), comment, user, selected, ev) == Passed <==>
        && JsNumber(comment).Some?
        && JsNumber(comment).value in ev.openIssues.value
        && JsNumber(comment).value in ev.issues
        && (ev.issues[JsNumber(comment).value].assignees == [] || ev.issues[JsNumber(comment).value].assignees == [user]))
  {
  }

  /** Q2 T1 passes only for a number naming an open issue that the user may take. */
  lemma ChooseIssue(comment: string, user: string, selected: Option<int>, ev: Evidence)
    requires TaskVerdict("Q2", Some("T1"), comment, user, selected, ev) == Passed
    ensures JsNumber(comment).Some? && ev.openIssues.Some?
    ensures JsNumber(comment).value in ev.openIssues.value
    ensures JsNumber(comment).value in ev.issues
    ensures ev.issues[JsNumber(comment).value].assignees in {[], [user]}
  {
  }

  /** A failed contributor request counts as zero contributors, so "0" passes Q1 T5. */
  lemma ZeroContributorsOnFailure(user: string, selected: Option<int>, ev: Evidence)
    requires ev.contributors.None?
    ensures TaskVerdict("Q1", Some("T5"), "0", user, selected, ev) == Passed
  {
    assert Lower("0") == "0";
    assert LeadingSpaces("0") == 0;
    assert TrailingSpaces("0") == 0;
    assert Trim("0") == "0";
  }

  /** The tasks that read the selected issue fail, never pass, when no issue was
      selected or the issue could not be read; so does Q1 T1 when the issue list
      could not be read, and Q3 T2 when the pull requests could not be read. */
  lemma FailedRequestsFail(comment: string, user: string, selected: Option<int>, ev: Evidence)
    requires selected.None? || selected.value !in ev.issues
    ensures TaskVerdict("Q2", Some("T2"), comment, user, selected, ev) == Failed
    ensures TaskVerdict("Q2", Some("T3"), comment, user, selected, ev) == Failed
    ensures TaskVerdict("Q2", Some("T4"), comment, user, selected, ev) == Failed
    ensures TaskVerdict("Q3", Some("T3"), comment, user, selected, ev) == Failed
    ensures ev.listing.None? ==> TaskVerdict("Q1", Some("T1"), comment, user, selected, ev) == Failed
    ensures ev.pulls.None? ==> TaskVerdict("Q3", Some("T2"), comment, user, selected, ev) == Failed
  {
  }

  /** Q2 T2 and Q3 T3 pass exactly when the selected issue lists the user as an
      assignee, respectively is closed. */
  lemma SelectedIssueTasks(comment: string, user: string, selected: Option<int>, ev: Evidence)
    requires selected.Some? && selected.value in ev.issues
    ensures TaskVerdict("Q2", Some("T2"), comment, user, selected, ev) == Passed <==>
      exists i | 0 <= i < |ev.issues[selected.value].assignees| :: ev.issues[selected.value].assignees[i] == user
    ensures TaskVerdict("Q3", Some("T3"), comment, user, selected, ev) == Passed <==>
      ev.issues[selected.value].state == "closed"
  {
  }

  /** Q3 T4 is opened as an issue but has no validation branch, and neither does
      a pending (null) task. */
  lemma UnvalidatedTasks(comment: string, user: string, selected: Option<int>, ev: Evidence, quest: string)
    ensures TaskVerdict("Q3", Some("T4"), comment, user, selected, ev) == Unhandled
    ensures TaskVerdict(quest, None, comment, user, selected, ev) == Unhandled
  {
  }
}
