/** The comment front end of index.js: which comments reach the command
    parser, which reach task validation, and how `parseCommand` reads
    `/new_user` and `/reset`. */
module Commands {
  import opened JsText

  /** `{action, argument}`; an absent argument is JavaScript's undefined. */
  datatype Command = Command(action: string, argument: Option<string>)

  /** What the tail `(\s.*)?$` of the pattern accepts: nothing, or one whitespace
      character followed by characters none of which ends a line. */
  predicate TailMatches(tail: string) {
    tail == [] || (IsSpace(tail[0]) && forall i | 1 <= i < |tail| :: !IsLineTerminator(tail[i]))
  }

  /** `s` matches `^(\/(name))(\s.*)?$` through the alternative `name`. */
  predicate IsCommandText(s: string, name: string) {
    |s| >= |name| + 1 && s[..|name| + 1] == "/" + name && TailMatches(s[|name| + 1..])
  }

  /** `.*$`: the rest of the string holds no line terminator. */
  function DotStarToEnd(t: string): (b: bool)
    ensures b <==> forall i | 0 <= i < |t| :: !IsLineTerminator(t[i])
  {
    if t == [] then true
    else if IsLineTerminator(t[0]) then false
    else DotStarToEnd(t[1..])
  }

  /** One alternative of the pattern tried against `s`: `match[2]` and the
      trimmed `match[3]` (left undefined when the group did not take part). */
  function TryAlternative(s: string, name: string): (r: Option<Command>)
    ensures r.Some? <==> IsCommandText(s, name)
    ensures r.Some? ==> var tail := s[|name| + 1..];
      r.value == Command(name, if tail == [] then None else Some(Trim(tail)))
  {
    var head := "/" + name;
    if |s| >= |head| && s[..|head|] == head then
      var rest := s[|head|..];
      if rest == [] then Some(Command(name, None))
      else if IsSpace(rest[0]) && DotStarToEnd(rest[1..]) then Some(Command(name, Some(Trim(rest))))
      else None
    else None
  }

  /** parseCommand (index.js:111-125). A comment matching the pattern yields the
      command name and its trailing text trimmed (absent when there is none);
      every other comment yields an empty action and an empty argument. */
  function ParseCommand(s: string): (c: Command)
    ensures c.action == "new_user" <==> IsCommandText(s, "new_user")
    ensures c.action == "reset" <==> IsCommandText(s, "reset")
    ensures c.action == "" <==> !IsCommandText(s, "new_user") && !IsCommandText(s, "reset")
    ensures c.action == "" ==> c.argument == Some("")
    ensures c.action != "" ==> var tail := s[|c.action| + 1..];
      c.argument == (if tail == [] then None else Some(Trim(tail)))
    ensures c.argument.Some? && c.argument.value != [] ==>
      !IsSpace(c.argument.value[0]) && !IsSpace(c.argument.value[|c.argument.value| - 1])
  {
    assert IsCommandText(s, "new_user") ==> s[1] == 'n';
    assert IsCommandText(s, "reset") ==> s[1] == 'r';
    var first := TryAlternative(s, "new_user");
    if first.Some? then first.value
    else
      var second := TryAlternative(s, "reset");
      if second.Some? then second.value
      else Command("", Some(""))
  }

  /** The name must end where the pattern says: `/new_userx` is no command. */
  lemma NameMustEnd()
    ensures ParseCommand("/new_userx") == Command("", Some(""))
  {
    var s := "/new_userx";
    assert !IsCommandText(s, "new_user") by {
      assert s[9..] == "x";
      assert !IsSpace('x');
    }
    assert !IsCommandText(s, "reset") by {
      assert s[..6][1] == 'n';
    }
  }

  /** Nor is `/resets now`. */
  lemma LongerName()
    ensures ParseCommand("/resets now") == Command("", Some(""))
  {
    var s := "/resets now";
    assert !IsCommandText(s, "reset") by {
      assert s[6..][0] == 's';
      assert !IsSpace('s');
    }
    assert !IsCommandText(s, "new_user") by {
      assert s[..9][1] == 'r';
    }
  }

  /** A bare command has an undefined argument; blanks after it give "". */
  lemma BareCommand()
    ensures ParseCommand("/reset") == Command("reset", None)
    ensures ParseCommand("/reset  ") == Command("reset", Some(""))
  {
    var s := "/reset  ";
    assert IsCommandText(s, "reset");
    assert LeadingSpaces(s[6..]) == 2;
  }

  /** The whitespace after the name may itself be a line break, but no later
      character may be one. */
  lemma LineBreakFirst()
    ensures ParseCommand("/reset\nbob") == Command("reset", Some("bob"))
  {
    var s := "/reset\nbob";
    var t := s[6..];
    assert t == "\nbob";
    assert IsCommandText(s, "reset");
    assert t[1..] == "bob";
    assert LeadingSpaces(t) == 1 by {
      assert LeadingSpaces(t[1..]) == 0 by { assert !IsSpace('b'); }
    }
    assert TrailingSpaces(t[1..]) == 0 by { assert !IsSpace('b'); }
    assert Trim(t) == "bob";
  }

  lemma LineBreakLater()
    ensures ParseCommand("/new_user bob\nx") == Command("", Some(""))
  {
    var s := "/new_user bob\nx";
    assert !IsCommandText(s, "new_user") by {
      var u := s[9..];
      assert IsLineTerminator(u[4]);
      assert !TailMatches(u);
    }
    assert !IsCommandText(s, "reset") by {
      assert s[..6][1] == 'n';
    }
  }

  /** Where a comment goes in the `issue_comment.created` handler. */
  datatype Route = Ignored | Slash(command: Command) | FreeText

  /** index.js:39-101: comments by bots are dropped, comments starting with `/`
      are parsed as commands (the parse result is never null), all others go to
      task validation. */
  function RouteComment(authorType: string, body: string): (r: Route)
    ensures r.Ignored? <==> authorType == "Bot"
    ensures r.Slash? <==> authorType != "Bot" && |body| > 0 && body[0] == '/'
    ensures r.FreeText? <==> authorType != "Bot" && (|body| == 0 || body[0] != '/')
    ensures r.Slash? ==> r.command == ParseCommand(body)
  {
    if authorType == "Bot" then Ignored
    else if |body| > 0 && body[0] == '/' then Slash(ParseCommand(body))
    else FreeText
  }

  /** The branch of the command switch. */
  datatype Reply = CreateUser(name: Option<string>) | ResetUser | InvalidCommand

  /** index.js:55-81. */
  function SelectReply(c: Command): (r: Reply)
    ensures r.CreateUser? <==> c.action == "new_user"
    ensures r.ResetUser? <==> c.action == "reset"
    ensures r.CreateUser? ==> r.name == c.argument
  {
    match c.action
    case "new_user" => CreateUser(c.argument)
    case "reset" => ResetUser
    case _ => InvalidCommand
  }

  /** Every slash comment other than the two commands is answered with the
      invalid-command text. */
  lemma {:induction false} UnknownSlashIsInvalid(authorType: string, body: string)
    requires RouteComment(authorType, body).Slash?
    requires !IsCommandText(body, "new_user") && !IsCommandText(body, "reset")
    ensures SelectReply(RouteComment(authorType, body).command) == InvalidCommand
  {
    var c := ParseCommand(body);
    assert c.action == "";
  }
}
