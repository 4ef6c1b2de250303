// mihomo rule lines: a line is split on commas with the target last, logic rules nest their
// parts in parentheses, and names and usernames are split on slashes.
module Rules {
  import opened Wrappers
  import opened Text
  import opened RenderSpec

  datatype Rule = And(inName: string, inUser: string, target: string) | Match(target: string) | Malformed

  /** One "(TYPE,value)" part without its parentheses. */
  function ParsePart(part: string, typ: string): Option<string> {
    var fields := Split(part, ',');
    if |fields| == 2 && fields[0] == typ then Some(TrimSpace(fields[1])) else None
  }

  function ParseAnd(payload: string, target: string): Rule {
    if !("((" <= payload) then Malformed
    else
      var first := Cut(payload[2..], ')');
      if !first.found || !(",(" <= first.after) then Malformed
      else
        var second := Cut(first.after[2..], ')');
        if !second.found || second.after != ")" then Malformed
        else
          var name, user := ParsePart(first.before, "IN-NAME"), ParsePart(second.before, "IN-USER");
          if name.Some? && user.Some? then And(name.value, user.value, target) else Malformed
  }

  function ParseRule(line: string): Rule {
    var i := LastIndexOf(line, ',');
    if i < 0 then Malformed
    else
      var head, target := line[..i], TrimSpace(line[i + 1..]);
      if head == "MATCH" then Match(target)
      else if "AND," <= head then ParseAnd(head[4..], target)
      else Malformed
  }

  predicate Matches(rule: Rule, listener: string, username: string) {
    match rule
    case And(n, u, _) => listener in Split(n, '/') && username in Split(u, '/')
    case Match(_) => true
    case Malformed => false
  }

  /** The target of the first rule that matches. */
  function FirstMatch(rules: seq<string>, listener: string, username: string): Option<string> {
    if rules == [] then None
    else
      var rule := ParseRule(rules[0]);
      if Matches(rule, listener, username) then Some(rule.target)
      else FirstMatch(rules[1..], listener, username)
  }

  /** What may stand inside a rule. */
  predicate Plain(s: string) {
    ',' !in s && '/' !in s && '(' !in s && ')' !in s && TrimSpace(s) == s
  }

  lemma PartDecodes(typ: string, value: string)
    requires ',' !in typ && Plain(value)
    ensures ParsePart(typ + "," + value, typ) == Some(value)
  {
    SplitAt(typ, ',', value);
  }

  lemma PayloadParts(one: string, two: string)
    requires ')' !in one && ')' !in two
    ensures var payload := AndPayload(one, two);
            && "((" <= payload
            && var first := Cut(payload[2..], ')');
               && first.found && first.before == one && ",(" <= first.after
               && Cut(first.after[2..], ')') == Halves(two, ")", true)
  {
    var inner := two + (")" + ")");
    var rest := ",(" + inner;
    DropPrefix("((", one + (")" + rest));
    Associate(one, ")", rest);
    CutAt(one, ')', rest);
    DropPrefix(",(", inner);
    Associate(two, ")", ")");
    CutAt(two, ')', ")");
  }

  lemma NamePartDecodes(listener: string)
    requires Plain(listener)
    ensures ParsePart("IN-NAME," + listener, "IN-NAME") == Some(listener) && ')' !in "IN-NAME," + listener
  {
    hide ParsePart;
    assert "IN-NAME" + "," == "IN-NAME,";
    PartDecodes("IN-NAME", listener);
    NotInConcat(')', "IN-NAME,", listener);
  }

  lemma UserPartDecodes(username: string)
    requires Plain(username)
    ensures ParsePart("IN-USER," + username, "IN-USER") == Some(username) && ')' !in "IN-USER," + username
  {
    hide ParsePart;
    assert "IN-USER" + "," == "IN-USER,";
    PartDecodes("IN-USER", username);
    NotInConcat(')', "IN-USER,", username);
  }

  lemma AndDecodes(listener: string, username: string, target: string)
    requires Plain(listener) && Plain(username)
    ensures ParseAnd(AndPayload("IN-NAME," + listener, "IN-USER," + username), target) ==
            And(listener, username, target)
  {
    hide AndPayload, Cut, ParsePart, Plain;
    NamePartDecodes(listener);
    UserPartDecodes(username);
    PayloadParts("IN-NAME," + listener, "IN-USER," + username);
  }

  /** The printed rule lines are uniquely decodable. */
  lemma RuleDecodes(listener: string, username: string, target: string)
    requires Plain(listener) && Plain(username) && ',' !in target && TrimSpace(target) == target
    ensures ParseRule(RuleLine(listener, username, target)) == And(listener, username, target)
  {
    var payload := AndPayload("IN-NAME," + listener, "IN-USER," + username);
    var head := "AND," + payload;
    DropPrefix("AND,", payload);
    LastIndexUnique(head + [','] + target, ',', head, target);
    assert head[0] == 'A' && "MATCH"[0] == 'M';
    AndDecodes(listener, username, target);
  }

  lemma PlainMatches(listener: string, username: string, target: string, n: string, u: string)
    requires Plain(listener) && Plain(username)
    ensures Matches(And(listener, username, target), n, u) <==> n == listener && u == username
  {
  }

  lemma MatchRejects()
    ensures ParseRule("MATCH,REJECT") == Match("REJECT")
  {
    var line, head, target := "MATCH,REJECT", "MATCH", "REJECT";
    assert line == head + [','] + target;
    LastIndexUnique(line, ',', head, target);
    VisibleUnchanged(target);
  }

  /** If every matching rule leads to the target, and one does match, first-match finds the target. */
  lemma {:induction false} FirstMatchFinds(rules: seq<string>, listener: string, username: string, target: string)
    requires forall line | line in rules && Matches(ParseRule(line), listener, username) ::
             ParseRule(line).target == target
    ensures FirstMatch(rules + ["MATCH,REJECT"], listener, username) ==
            Some(if exists line | line in rules :: Matches(ParseRule(line), listener, username) then target
                 else "REJECT")
  {
    var all := rules + ["MATCH,REJECT"];
    if rules == [] {
      MatchRejects();
      assert all[0] == "MATCH,REJECT";
    } else {
      assert all[0] == rules[0] && all[1..] == rules[1..] + ["MATCH,REJECT"];
      assert rules == [rules[0]] + rules[1..];
      if !Matches(ParseRule(rules[0]), listener, username) {
        FirstMatchFinds(rules[1..], listener, username, target);
      }
    }
  }
}
