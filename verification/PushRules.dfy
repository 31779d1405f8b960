/** Push rules: the flattened first match against the priority cascade, and the two mentions-only checks. */
module PushRules {
  import opened Basics
  import opened EventMatch

  // An element of an untyped array: of the expected class or not.
  datatype Item<+T> = Typed(value: T) | Foreign

  datatype Kind = Override | Content | Room | Sender | Underride

  datatype ConditionKind =
    | EventMatch | ProfileTag | ContainsDisplayName | RoomMemberCount | SenderNotificationPermission
    | Custom(name: string)

  datatype Condition = Condition(kind: ConditionKind, parameters: map<string, string>)

  datatype Action = Notify | DontNotify | Coalesce | SetTweak | CustomAction

  // `kind` is None when the raw value names no kind.
  datatype Rule = Rule(ruleId: string, kind: Option<Kind>, enabled: bool, pattern: Option<string>,
                       conditions: seq<Item<Condition>>, actions: seq<Item<Action>>)

  // A list is None when the cast to an array of rules fails.
  datatype RulesSet = RulesSet(
    overrides: Option<seq<Rule>>, content: Option<seq<Rule>>, room: Option<seq<Rule>>,
    sender: Option<seq<Rule>>, underride: Option<seq<Rule>>)

  datatype RulesResponse = RulesResponse(global: Option<RulesSet>)

  // One event to be matched, and the answers of the checkers of display names, member counts and permissions for it.
  datatype Checks = Checks(event: PushEvent, text: Text, others: Condition -> bool)

  function OrEmpty(rules: Option<seq<Rule>>): seq<Rule> { if rules.Some? then rules.value else [] }

  function TypedItems<T>(items: seq<Item<T>>): seq<T> {
    if items == [] then []
    else (if items[0].Typed? then [items[0].value] else []) + TypedItems(items[1..])
  }

  // Two kinds have none: the profile tag, and whatever the code does not know.
  predicate HasChecker(c: Condition): (b: bool)
    ensures b <==> !c.kind.ProfileTag? && !c.kind.Custom?
  {
    c.kind.EventMatch? || c.kind.ContainsDisplayName? || c.kind.RoomMemberCount? || c.kind.SenderNotificationPermission?
  }

  function Parameter(c: Condition, name: string): Option<string> {
    if name in c.parameters then Some(c.parameters[name]) else None
  }

  // The checker's answer for a condition that has one.
  predicate Holds(c: Condition, checks: Checks) {
    if c.kind.EventMatch?
    then Satisfied(checks.event, Parameter(c, "key"), Parameter(c, "pattern"), checks.text)
    else checks.others(c)
  }

  // ---------- When a rule matches ----------

  // Every condition with a checker holds, and the list does not end on one without.
  predicate AcceptsAll(conditions: seq<Condition>, checks: Checks) {
    && (forall c | c in conditions && HasChecker(c) :: Holds(c, checks))
    && (conditions != [] ==> HasChecker(conditions[|conditions|-1]))
  }

  // What the specification asks for: all conditions hold, and an unrecognised one never does.
  predicate AllHold(conditions: seq<Condition>, checks: Checks) {
    forall c | c in conditions :: HasChecker(c) && Holds(c, checks)
  }

  // The other kinds are turned into one condition on a field of the event.
  predicate Applies(rule: Rule, checks: Checks) {
    match rule.kind
    case None => false
    case Some(Override) => AcceptsAll(TypedItems(rule.conditions), checks)
    case Some(Underride) => AcceptsAll(TypedItems(rule.conditions), checks)
    case Some(Content) => Satisfied(checks.event, Some("content.body"), rule.pattern, checks.text)
    case Some(Room) => Satisfied(checks.event, Some("room_id"), Some(rule.ruleId), checks.text)
    case Some(Sender) => Satisfied(checks.event, Some("user_id"), Some(rule.ruleId), checks.text)
  }

  predicate Matches(rule: Rule, checks: Checks) { rule.enabled && Applies(rule, checks) }

  // The specification: a room rule is for the room it names, a sender rule for the sender it names, and a content rule
  // for a pattern in the body of the message.
  predicate SpecMatches(rule: Rule, checks: Checks) {
    rule.enabled &&
    match rule.kind
    case None => false
    case Some(Override) => AllHold(TypedItems(rule.conditions), checks)
    case Some(Underride) => AllHold(TypedItems(rule.conditions), checks)
    case Some(Content) => PatternInBody(rule.pattern, checks)
    case Some(Room) => checks.event.roomId == Some(rule.ruleId)
    case Some(Sender) => checks.event.sender == Some(rule.ruleId)
  }

  // "@room" to the letter, any other pattern as words.
  predicate PatternInBody(pattern: Option<string>, checks: Checks) {
    && pattern.Some? && pattern.value != "" && "content.body" in checks.event.nested
    && var body := checks.event.nested["content.body"];
    if pattern.value == "@room" then Contains(body, "@room") else Found(pattern.value, body, checks.text)
  }

  // A content rule tests the body of the message, and nothing else.
  lemma ContentRuleIff(rule: Rule, checks: Checks)
    requires rule.kind == Some(Content)
    ensures Matches(rule, checks) <==> rule.enabled && PatternInBody(rule.pattern, checks)
  {
  }

  // A room rule whose id holds no star or operator tests where the id stands in the room id of the event, as a word.
  lemma RoomRuleIff(rule: Rule, checks: Checks)
    requires rule.kind == Some(Room) && Plain(rule.ruleId)
    ensures Matches(rule, checks) <==>
            && rule.enabled && rule.ruleId != "" && checks.event.roomId.Some?
            && exists i :: StandsAt(rule.ruleId, checks.event.roomId.value, i, checks.text)
  {
    if checks.event.roomId.Some? { PlainFoundIff(rule.ruleId, checks.event.roomId.value, checks.text); }
  }

  // So it matches every event of the room it names.
  lemma RoomRuleMatchesItsRoom(rule: Rule, checks: Checks)
    requires rule.kind == Some(Room) && Plain(rule.ruleId) && rule.ruleId != "" && Sane(checks.text)
    requires forall c | c in rule.ruleId :: !IsBreak(c)
    requires checks.event.roomId == Some(rule.ruleId)
    ensures Matches(rule, checks) <==> rule.enabled
  {
    FindsItself(rule.ruleId, checks.text);
  }

  // A room id begins with an exclamation mark, and has no other.
  predicate IsRoomId(id: string) {
    id != "" && id[0] == '!' && forall i | 1 <= i < |id| :: id[i] != '!'
  }

  // Another room that it matches has an id that goes on after a delimiter: a longer domain, or a port.
  lemma RoomRuleReachesIff(rule: Rule, checks: Checks)
    requires rule.kind == Some(Room) && rule.enabled && Plain(rule.ruleId) && checks.event.roomId.Some?
    requires IsRoomId(rule.ruleId) && IsRoomId(checks.event.roomId.value)
    requires forall c :: checks.text.same('!', c) <==> c == '!'
    ensures
      var id, t := checks.event.roomId.value, checks.text;
      Matches(rule, checks) <==>
        && |rule.ruleId| <= |id| && (|rule.ruleId| < |id| ==> !t.isWord(id[|rule.ruleId|]))
        && forall k | 0 <= k < |rule.ruleId| :: MatchesOne(rule.ruleId[k], id[k], t)
  {
    RoomRuleIff(rule, checks);
    var id, t := checks.event.roomId.value, checks.text;
    if i :| StandsAt(rule.ruleId, id, i, t) {
      assert MatchesOne(rule.ruleId[0], id[i+0], t);
      assert i == 0;
    }
    assert StandsAt(rule.ruleId, id, 0, t) <==>
      && |rule.ruleId| <= |id| && Delimited(id, 0, |rule.ruleId|, t)
      && forall k | 0 <= k < |rule.ruleId| :: MatchesOne(rule.ruleId[k], id[0+k], t);
  }

  // A rule for one domain so reaches a room of another.
  lemma RoomRuleReachesLongerDomain(rule: Rule, checks: Checks)
    requires rule.kind == Some(Room) && rule.enabled && rule.ruleId == "!r:x"
    requires checks.event.roomId == Some("!r:x.org") && Sane(checks.text) && !checks.text.isWord('.')
    ensures Matches(rule, checks) && !SpecMatches(rule, checks)
  {
    assert Plain("!r:x");
    assert StandsAt("!r:x", "!r:x.org", 0, checks.text);
    RoomRuleIff(rule, checks);
  }

  // The event has no "user_id", so a sender rule matches no event at all.
  lemma SenderRuleMatchesNothing(rule: Rule, checks: Checks)
    requires rule.kind == Some(Sender)
    ensures !Matches(rule, checks)
  {
    assert ValueAt(checks.event, "user_id").None?;
  }

  // The branch that goes on after an unknown condition, and lets a later one overwrite the verdict.
  predicate ForgetsUnknown(conditions: seq<Condition>, checks: Checks) {
    && (exists c :: c in conditions && !HasChecker(c))
    && HasChecker(conditions[|conditions|-1])
    && (forall c | c in conditions && HasChecker(c) :: Holds(c, checks))
  }

  // The verdict differs from "all conditions hold" exactly there.
  lemma VerdictDiffersIff(conditions: seq<Condition>, checks: Checks)
    ensures (AcceptsAll(conditions, checks) == AllHold(conditions, checks)) <==> !ForgetsUnknown(conditions, checks)
    ensures AllHold(conditions, checks) ==> AcceptsAll(conditions, checks)
  {
  }

  lemma UnknownConditionIsOverwritten(tag: Condition, known: Condition, checks: Checks)
    requires tag.kind.ProfileTag? && known.kind.EventMatch? && Holds(known, checks)
    ensures AcceptsAll([tag, known], checks) && !AllHold([tag, known], checks)
    ensures !AcceptsAll([known, tag], checks)
  {
    assert tag in [tag, known];
    assert [known, tag][1] == tag;
  }

  // A condition on a field of the event holds exactly when its pattern stands in that field, as a word.
  lemma FieldConditionIff(c: Condition, checks: Checks, key: string, field: Option<string>, pattern: string)
    requires c.kind.EventMatch? && c.parameters == map["key" := key, "pattern" := pattern]
    requires pattern != "" && Plain(pattern)
    requires
      var e := checks.event;
      (key, field) in [("event_id", e.eventId), ("type", e.eventType), ("room_id", e.roomId), ("sender", e.sender),
                       ("state_key", e.stateKey), ("redacts", e.redacts)]
    ensures Holds(c, checks) <==> field.Some? && exists i :: StandsAt(pattern, field.value, i, checks.text)
  {
    assert ValueAt(checks.event, key) == field;
    if field.Some? { PlainFoundIff(pattern, field.value, checks.text); }
  }

  // ---------- Flat list and cascade ----------

  function Flat(response: Option<RulesResponse>): seq<Rule> {
    if response.None? || response.value.global.None? then []
    else
      var g := response.value.global.value;
      OrEmpty(g.overrides) + OrEmpty(g.content) + OrEmpty(g.room) + OrEmpty(g.sender) + OrEmpty(g.underride)
  }

  function FirstMatch(rules: seq<Rule>, checks: Checks): Option<Rule> {
    First(rules, (r: Rule) => Matches(r, checks))
  }

  // The result matches, and no rule before it does; none means that none matches.
  lemma FirstMatchIsFirst(rules: seq<Rule>, checks: Checks)
    ensures FirstMatch(rules, checks).None? <==> forall i | 0 <= i < |rules| :: !Matches(rules[i], checks)
    ensures FirstMatch(rules, checks).Some? ==>
      exists i :: 0 <= i < |rules| && FirstMatch(rules, checks) == Some(rules[i]) && Matches(rules[i], checks)
        && forall j | 0 <= j < i :: !Matches(rules[j], checks)
  {
  }

  // A rule that is chosen is enabled and tests what its kind says; none is a sender rule.
  lemma ChosenTestsItsField(rules: seq<Rule>, checks: Checks)
    requires FirstMatch(rules, checks).Some?
    ensures
      var rule := FirstMatch(rules, checks).value;
      && rule in rules && rule.enabled && rule.kind.Some? && rule.kind != Some(Sender)
      && (rule.kind == Some(Room) && Plain(rule.ruleId) ==>
            checks.event.roomId.Some? && exists i :: StandsAt(rule.ruleId, checks.event.roomId.value, i, checks.text))
      && (rule.kind == Some(Content) ==> PatternInBody(rule.pattern, checks))
      && (rule.kind == Some(Override) || rule.kind == Some(Underride) ==>
            forall c | c in TypedItems(rule.conditions) && HasChecker(c) :: Holds(c, checks))
  {
    var rule := FirstMatch(rules, checks).value;
    if rule.kind == Some(Sender) { SenderRuleMatchesNothing(rule, checks); }
    if rule.kind == Some(Content) { ContentRuleIff(rule, checks); }
    if rule.kind == Some(Room) && Plain(rule.ruleId) { RoomRuleIff(rule, checks); }
  }

  // An enabled room rule is chosen for every event of its room, unless an earlier rule matches.
  lemma RoomRuleIsChosen(rules: seq<Rule>, checks: Checks, i: nat)
    requires i < |rules| && rules[i].enabled && rules[i].kind == Some(Room)
    requires Plain(rules[i].ruleId) && rules[i].ruleId != "" && Sane(checks.text)
    requires forall c | c in rules[i].ruleId :: !IsBreak(c)
    requires checks.event.roomId == Some(rules[i].ruleId)
    requires forall j | 0 <= j < i :: !Matches(rules[j], checks)
    ensures FirstMatch(rules, checks) == Some(rules[i])
  {
    RoomRuleMatchesItsRoom(rules[i], checks);
    MatchAt(rules, checks, i);
  }

  // Priority by kind, then by position: a lower kind is consulted only when every higher one has no match.
  function Cascade(g: RulesSet, hit: Rule -> bool): Option<Rule> {
    OrElse(First(OrEmpty(g.overrides), hit),
      OrElse(First(OrEmpty(g.content), hit),
        OrElse(First(OrEmpty(g.room), hit),
          OrElse(First(OrEmpty(g.sender), hit), First(OrEmpty(g.underride), hit)))))
  }

  // The first match of the flat list is the match of the cascade, whatever the test.
  lemma FlatIsCascade(g: RulesSet, hit: Rule -> bool)
    ensures First(Flat(Some(RulesResponse(Some(g)))), hit) == Cascade(g, hit)
  {
    var o, c, r := OrEmpty(g.overrides), OrEmpty(g.content), OrEmpty(g.room);
    var s, u := OrEmpty(g.sender), OrEmpty(g.underride);
    FirstOfConcat(o + c + r + s, u, hit);
    FirstOfConcat(o + c + r, s, hit);
    FirstOfConcat(o + c, r, hit);
    FirstOfConcat(o, c, hit);
  }

  lemma FlatRefinesCascade(g: RulesSet, checks: Checks)
    ensures FirstMatch(Flat(Some(RulesResponse(Some(g)))), checks) == Cascade(g, (r: Rule) => Matches(r, checks))
  {
    FlatIsCascade(g, (r: Rule) => Matches(r, checks));
  }

  // The rule matches, and the specification says it should not: an unknown condition was forgotten, or the event is in
  // another room.
  predicate Overmatches(rule: Rule, checks: Checks) {
    match rule.kind
    case Some(Override) => ForgetsUnknown(TypedItems(rule.conditions), checks)
    case Some(Underride) => ForgetsUnknown(TypedItems(rule.conditions), checks)
    case Some(Room) => checks.event.roomId != Some(rule.ruleId)
    case _ => false
  }

  // The rule does not match, and the specification says it should: it is for the sender of the event, or for its room,
  // whose id does not match itself.
  predicate Undermatches(rule: Rule, checks: Checks) {
    rule.enabled &&
    match rule.kind
    case Some(Sender) => checks.event.sender == Some(rule.ruleId)
    case Some(Room) =>
      && checks.event.roomId == Some(rule.ruleId)
      && (rule.ruleId == "" || !Found(rule.ruleId, rule.ruleId, checks.text))
    case _ => false
  }

  lemma SpecMatchesIff(rule: Rule, checks: Checks)
    ensures SpecMatches(rule, checks) <==>
            (Matches(rule, checks) && !Overmatches(rule, checks)) || Undermatches(rule, checks)
    ensures Undermatches(rule, checks) ==> !Matches(rule, checks)
  {
    VerdictDiffersIff(TypedItems(rule.conditions), checks);
    if rule.kind == Some(Sender) { SenderRuleMatchesNothing(rule, checks); }
    if rule.kind == Some(Content) { ContentRuleIff(rule, checks); }
  }

  // Every rule that should match and does not stands behind one that matches.
  ghost predicate UndermatchesBehind(rules: seq<Rule>, checks: Checks) {
    forall i | 0 <= i < |rules| && Undermatches(rules[i], checks) :: exists j :: 0 <= j < i && Matches(rules[j], checks)
  }

  // The result is the rule the specification's cascade chooses exactly when the rule that matches should, and none
  // before it should have; when nothing matches, exactly when nothing should have.
  lemma FlatMeetsSpecification(g: RulesSet, checks: Checks)
    ensures
      var rules := Flat(Some(RulesResponse(Some(g))));
      var found := FirstMatch(rules, checks);
      found == Cascade(g, (r: Rule) => SpecMatches(r, checks)) <==>
        (found.Some? ==> !Overmatches(found.value, checks)) && UndermatchesBehind(rules, checks)
  {
    FlatIsCascade(g, (r: Rule) => SpecMatches(r, checks));
    MeetsIff(Flat(Some(RulesResponse(Some(g)))), checks);
  }

  lemma MeetsIff(rules: seq<Rule>, checks: Checks)
    ensures
      var found := FirstMatch(rules, checks);
      found == First(rules, (r: Rule) => SpecMatches(r, checks)) <==>
        (found.Some? ==> !Overmatches(found.value, checks)) && UndermatchesBehind(rules, checks)
  {
    var hit, spec := (r: Rule) => Matches(r, checks), (r: Rule) => SpecMatches(r, checks);
    var over, under := (r: Rule) => Overmatches(r, checks), (r: Rule) => Undermatches(r, checks);
    forall r | r in rules ensures spec(r) <==> (hit(r) && !over(r)) || under(r) ensures under(r) ==> !hit(r) {
      SpecMatchesIff(r, checks);
    }
    FirstAgreesIff(rules, hit, spec, over, under);
    assert UndermatchesBehind(rules, checks) <==> Behind(rules, under, hit);
  }

  ghost predicate Behind<T(!new)>(s: seq<T>, under: T -> bool, hit: T -> bool) {
    forall i | 0 <= i < |s| && under(s[i]) :: exists j :: 0 <= j < i && hit(s[j])
  }

  lemma FirstAgreesIff<T(!new)>(s: seq<T>, hit: T -> bool, spec: T -> bool, over: T -> bool, under: T -> bool)
    requires forall x | x in s :: (spec(x) <==> (hit(x) && !over(x)) || under(x)) && (under(x) ==> !hit(x))
    ensures First(s, hit) == First(s, spec) <==>
            (First(s, hit).Some? ==> !over(First(s, hit).value)) && Behind(s, under, hit)
  {
    var i, j := FirstIndex(s, hit), FirstIndex(s, spec);
    if First(s, hit) == First(s, spec) { SameFirst(s, hit, spec); }
    if Behind(s, under, hit) {
      assert i <= j;
    } else {
      var k :| 0 <= k < |s| && under(s[k]) && forall m | 0 <= m < k :: !hit(s[m]);
      assert j <= k;
    }
  }

  lemma SameFirst<T>(s: seq<T>, p: T -> bool, q: T -> bool)
    requires First(s, p) == First(s, q)
    ensures FirstIndex(s, p) == FirstIndex(s, q)
  {
    var i, j := FirstIndex(s, p), FirstIndex(s, q);
    assert i < |s| ==> First(s, p) == Some(s[i]);
    assert j < |s| ==> First(s, q) == Some(s[j]);
  }

  lemma FirstOfKept<T>(s: seq<T>, p: T -> bool, q: T -> bool)
    ensures First(Keep(s, p), q) == First(s, x => p(x) && q(x))
  {
    if s != [] {
      FirstOfKept(s[1..], p, q);
      FirstOfConcat(if p(s[0]) then [s[0]] else [], Keep(s[1..], p), q);
      FirstOfConcat([s[0]], s[1..], x => p(x) && q(x));
      assert s == [s[0]] + s[1..];
    }
  }

  // ---------- Mentions only ----------

  predicate WellTyped(rule: Rule) { Foreign !in rule.actions }

  predicate Silences(rule: Option<Rule>) {
    && rule.Some?
    && (rule.value.actions == [] || Typed(DontNotify) in rule.value.actions)
    && rule.value.enabled
  }

  function RuleOf(rules: Option<seq<Rule>>, roomId: string): Option<Rule> {
    First(OrEmpty(rules), (r: Rule) => r.ruleId == roomId)
  }

  function WellTypedRuleOf(rules: Option<seq<Rule>>, roomId: string): Option<Rule> {
    First(OrEmpty(rules), (r: Rule) => r.ruleId == roomId && WellTyped(r))
  }

  // The background check: the first rule with the room's id decides.
  predicate BackgroundMentionsOnly(rules: Option<seq<Rule>>, roomId: string) { Silences(RuleOf(rules, roomId)) }

  // The counter's check skips rules with an action of another class.
  predicate CounterMentionsOnly(rules: Option<seq<Rule>>, roomId: string) { Silences(WellTypedRuleOf(rules, roomId)) }

  // The first rule under the room's id, well typed or not, is enabled and has no action at all or one not to notify.
  ghost predicate FirstSilences(list: seq<Rule>, roomId: string, anyAction: bool) {
    exists i ::
      && 0 <= i < |list| && list[i].ruleId == roomId && (anyAction || Foreign !in list[i].actions)
      && (forall j | 0 <= j < i && list[j].ruleId == roomId :: !anyAction && Foreign in list[j].actions)
      && list[i].enabled
      && (|list[i].actions| == 0 || exists k :: 0 <= k < |list[i].actions| && list[i].actions[k] == Typed(DontNotify))
  }

  lemma MentionsOnlyIff(rules: Option<seq<Rule>>, roomId: string)
    ensures BackgroundMentionsOnly(rules, roomId) <==> rules.Some? && FirstSilences(rules.value, roomId, true)
    ensures CounterMentionsOnly(rules, roomId) <==> rules.Some? && FirstSilences(rules.value, roomId, false)
  {
    var list := OrEmpty(rules);
    SilencesAt(list, roomId, true, (r: Rule) => r.ruleId == roomId);
    SilencesAt(list, roomId, false, (r: Rule) => r.ruleId == roomId && WellTyped(r));
  }

  lemma SilencesAt(list: seq<Rule>, roomId: string, anyAction: bool, p: Rule -> bool)
    requires forall r :: p(r) <==> r.ruleId == roomId && (anyAction || Foreign !in r.actions)
    ensures Silences(First(list, p)) <==> FirstSilences(list, roomId, anyAction)
  {
    var i := FirstIndex(list, p);
    if n :|
      && 0 <= n < |list| && list[n].ruleId == roomId && (anyAction || Foreign !in list[n].actions)
      && (forall j | 0 <= j < n && list[j].ruleId == roomId :: !anyAction && Foreign in list[j].actions)
      && list[n].enabled
      && (|list[n].actions| == 0 || exists k :: 0 <= k < |list[n].actions| && list[n].actions[k] == Typed(DontNotify))
    {
      assert p(list[n]);
      assert i == n;
    }
    if i < |list| && Silences(Some(list[i])) { assert p(list[i]); }
  }

  // They agree exactly when the room has no rule, or its first rule is well typed, or that rule's verdict is the one
  // of the first well-typed rule.
  lemma ChecksAgree(rules: Option<seq<Rule>>, roomId: string)
    ensures BackgroundMentionsOnly(rules, roomId) == CounterMentionsOnly(rules, roomId) <==>
      || RuleOf(rules, roomId).None?
      || WellTyped(RuleOf(rules, roomId).value)
      || Silences(RuleOf(rules, roomId)) == Silences(WellTypedRuleOf(rules, roomId))
  {
    var list := OrEmpty(rules);
    var p, q := (r: Rule) => r.ruleId == roomId, (r: Rule) => r.ruleId == roomId && WellTyped(r);
    var i, j := FirstIndex(list, p), FirstIndex(list, q);
    assert j < |list| ==> p(list[j]) && i <= j;
    assert i < |list| && WellTyped(list[i]) ==> q(list[i]) && j == i;
  }

  // An action as it comes in: a string, a dictionary, or neither.
  datatype RawAction = Text(text: string) | Dictionary(keys: set<string>) | Neither

  // The parser wraps each of them, so a parsed rule has no action of another class.
  function Parsed(raw: RawAction): Item<Action> {
    match raw
    case Text(s) =>
      Typed(if s == "notify" then Notify else if s == "dont_notify" then DontNotify
            else if s == "coalesce" then Coalesce else CustomAction)
    case Dictionary(keys) => Typed(if "set_tweak" in keys then SetTweak else CustomAction)
    case Neither => Typed(CustomAction)
  }

  function ParsedAll(raw: seq<RawAction>): seq<Item<Action>> {
    seq(|raw|, i requires 0 <= i < |raw| => Parsed(raw[i]))
  }

  ghost predicate IsParsed(rule: Rule) { exists raw :: rule.actions == ParsedAll(raw) }

  // On parsed rules the two checks always agree.
  lemma ParsedChecksAgree(rules: Option<seq<Rule>>, roomId: string)
    requires forall r | r in OrEmpty(rules) :: IsParsed(r)
    ensures BackgroundMentionsOnly(rules, roomId) == CounterMentionsOnly(rules, roomId)
  {
    var rule := RuleOf(rules, roomId);
    if rule.Some? {
      assert IsParsed(rule.value);
      var raw :| rule.value.actions == ParsedAll(raw);
      assert forall a | a in ParsedAll(raw) :: a.Typed?;
    }
    ChecksAgree(rules, roomId);
  }

  // ---------- The managers ----------

  datatype AccountEvent = AccountEvent(isPushRules: bool, content: Option<RulesResponse>)

  // The response of the last push-rules event with a content, if any.
  function LastResponse(events: seq<AccountEvent>, before: Option<RulesResponse>): Option<RulesResponse> {
    if events == [] then before
    else
      var e := events[|events|-1];
      if e.isPushRules && e.content.Some? then e.content else LastResponse(events[..|events|-1], before)
  }

  // It is that of an event no later one of which has any; without one, it stays what it was.
  lemma {:induction false} LastResponseIsLast(events: seq<AccountEvent>, before: Option<RulesResponse>)
    ensures
      || (LastResponse(events, before) == before
          && forall i | 0 <= i < |events| :: !events[i].isPushRules || events[i].content.None?)
      || exists i ::
           && 0 <= i < |events| && events[i].isPushRules && events[i].content.Some?
           && LastResponse(events, before) == events[i].content
           && forall j | i < j < |events| :: !events[j].isPushRules || events[j].content.None?
  {
    if events != [] {
      var init, e := events[..|events|-1], events[|events|-1];
      assert forall i | 0 <= i < |init| :: init[i] == events[i];
      LastResponseIsLast(init, before);
      if !(e.isPushRules && e.content.Some?) {
        if i :|
          && 0 <= i < |init| && init[i].isPushRules && init[i].content.Some?
          && LastResponse(init, before) == init[i].content
          && forall j | i < j < |init| :: !init[j].isPushRules || init[j].content.None?
        {
          assert events[i] == init[i];
        }
      }
    }
  }

  class BackgroundPushRulesManager {
    const userId: string
    var pushRulesResponse: Option<RulesResponse>
    var flatRules: seq<Rule>

    ghost predicate Valid()
      reads this
    {
      flatRules == Flat(pushRulesResponse)
    }

    constructor (userId: string)
      ensures Valid() && this.userId == userId && pushRulesResponse == None
    {
      this.userId := userId;
      pushRulesResponse, flatRules := None, [];
    }

    // The property observer that runs after an assignment.
    method SetPushRulesResponse(response: Option<RulesResponse>)
      modifies this
      ensures Valid() && pushRulesResponse == response
    {
      pushRulesResponse := response;
      var tmpRules: seq<Rule> := [];
      if response.Some? && response.value.global.Some? {
        var global := response.value.global.value;
        if global.overrides.Some? { tmpRules := tmpRules + global.overrides.value; }
        assert tmpRules == OrEmpty(global.overrides);
        if global.content.Some? { tmpRules := tmpRules + global.content.value; }
        assert tmpRules == OrEmpty(global.overrides) + OrEmpty(global.content);
        if global.room.Some? { tmpRules := tmpRules + global.room.value; }
        assert tmpRules == OrEmpty(global.overrides) + OrEmpty(global.content) + OrEmpty(global.room);
        if global.sender.Some? { tmpRules := tmpRules + global.sender.value; }
        assert tmpRules ==
          OrEmpty(global.overrides) + OrEmpty(global.content) + OrEmpty(global.room) + OrEmpty(global.sender);
        if global.underride.Some? { tmpRules := tmpRules + global.underride.value; }
      }
      flatRules := tmpRules;
    }

    method HandleAccountData(events: Option<seq<AccountEvent>>)
      requires Valid()
      modifies this
      ensures Valid()
      ensures pushRulesResponse ==
              if events.None? then old(pushRulesResponse) else LastResponse(events.value, old(pushRulesResponse))
    {
      if events.None? { return; }
      for i := 0 to |events.value|
        invariant Valid() && pushRulesResponse == LastResponse(events.value[..i], old(pushRulesResponse))
      {
        assert events.value[..i+1][..i] == events.value[..i];
        var event := events.value[i];
        if event.isPushRules && event.content.Some? {
          SetPushRulesResponse(event.content);
        }
      }
      assert events.value[..|events.value|] == events.value;
    }

    // The loop over the conditions of an override or underride rule.
    method ConditionsOk(conditions: seq<Item<Condition>>, checks: Checks) returns (conditionsOk: bool)
      ensures conditionsOk == AcceptsAll(TypedItems(conditions), checks)
    {
      conditionsOk := true;
      var i := 0;
      while i < |conditions|
        invariant i <= |conditions|
        invariant forall c | c in TypedItems(conditions[..i]) && HasChecker(c) :: Holds(c, checks)
        invariant conditionsOk == AcceptsAll(TypedItems(conditions[..i]), checks)
      {
        TypedOfNext(conditions, i);
        i := i + 1;
        if conditions[i-1].Foreign? { continue; }
        var condition := conditions[i-1].value;
        assert condition in TypedItems(conditions[..i]);
        if HasChecker(condition) {
          conditionsOk := Holds(condition, checks);
          if !conditionsOk {
            TypedPrefix(conditions, i, condition);
            return;
          }
        } else {
          conditionsOk := false;
        }
      }
      assert conditions[..i] == conditions;
    }

    // The switch over the kind of a rule.
    method RuleApplies(rule: Rule, checks: Checks) returns (conditionsOk: bool)
      ensures conditionsOk == Applies(rule, checks)
    {
      if rule.kind.None? { return false; }
      match rule.kind.value
      case Override => conditionsOk := ConditionsOk(rule.conditions, checks);
      case Underride => conditionsOk := ConditionsOk(rule.conditions, checks);
      case Content => conditionsOk := Satisfied(checks.event, Some("content.body"), rule.pattern, checks.text);
      case Room => conditionsOk := Satisfied(checks.event, Some("room_id"), Some(rule.ruleId), checks.text);
      case Sender => conditionsOk := Satisfied(checks.event, Some("user_id"), Some(rule.ruleId), checks.text);
    }

    // The loop over the enabled rules.
    method FirstApplicable(rules: seq<Rule>, checks: Checks) returns (r: Option<Rule>)
      requires forall rule | rule in rules :: rule.enabled
      ensures r == FirstMatch(rules, checks)
    {
      for i := 0 to |rules|
        invariant forall j | 0 <= j < i :: !Matches(rules[j], checks)
      {
        assert rules[i] in rules;
        var conditionsOk := RuleApplies(rules[i], checks);
        if conditionsOk {
          MatchAt(rules, checks, i);
          return Some(rules[i]);
        }
      }
      NoMatch(rules, checks);
      return None;
    }

    // None for the user's own events; otherwise the first enabled rule that matches.
    method PushRule(sender: string, checks: Checks) returns (r: Option<Rule>)
      requires Valid()
      ensures r == if sender == userId then None else FirstMatch(Flat(pushRulesResponse), checks)
    {
      if sender == userId { return None; }
      EnabledMatch(flatRules, checks);
      r := FirstApplicable(Keep(flatRules, (rule: Rule) => rule.enabled), checks);
    }

    method IsRoomMentionsOnly(roomId: string) returns (r: bool)
      requires pushRulesResponse.Some? ==> pushRulesResponse.value.global.Some?   // force-unwrapped
      ensures r == if pushRulesResponse.None? then false
                   else BackgroundMentionsOnly(pushRulesResponse.value.global.value.room, roomId)
    {
      if pushRulesResponse.None? { return false; }
      var found := First(OrEmpty(pushRulesResponse.value.global.value.room), (r: Rule) => r.ruleId == roomId);
      if found.None? { return false; }
      var rule := found.value;
      if |rule.actions| == 0 { return rule.enabled; }
      for i := 0 to |rule.actions|
        invariant Typed(DontNotify) !in rule.actions[..i]
      {
        if rule.actions[i] == Typed(DontNotify) { return rule.enabled; }
      }
      assert rule.actions[..|rule.actions|] == rule.actions;
      return false;
    }
  }

  lemma EnabledMatch(rules: seq<Rule>, checks: Checks)
    ensures FirstMatch(Keep(rules, (r: Rule) => r.enabled), checks) == FirstMatch(rules, checks)
  {
    var hit := (r: Rule) => Matches(r, checks);
    FirstOfKept(rules, (r: Rule) => r.enabled, hit);
    SameTest(rules, (r: Rule) => r.enabled && hit(r), hit);
  }

  // The result is the first matching rule: nothing before it matches.
  lemma MatchAt(rules: seq<Rule>, checks: Checks, i: nat)
    requires i < |rules| && Matches(rules[i], checks) && forall j | 0 <= j < i :: !Matches(rules[j], checks)
    ensures FirstMatch(rules, checks) == Some(rules[i])
  {
  }

  lemma NoMatch(rules: seq<Rule>, checks: Checks)
    requires forall j | 0 <= j < |rules| :: !Matches(rules[j], checks)
    ensures FirstMatch(rules, checks) == None
  {
  }

  // MXSpaceNotificationCounter's own check, a loop with continue and break.
  method IsRoomMentionsOnlyInCounter(rules: Option<seq<Rule>>, roomId: string) returns (r: bool)
    ensures r == CounterMentionsOnly(rules, roomId)
  {
    if rules.None? { return false; }
    ghost var p := (r: Rule) => r.ruleId == roomId && WellTyped(r);
    for i := 0 to |rules.value|
      invariant forall j | 0 <= j < i :: !p(rules.value[j])
    {
      var rule := rules.value[i];
      if rule.ruleId != roomId || Foreign in rule.actions { continue; }
      assert FirstIndex(rules.value, p) == i;
      if |rule.actions| == 0 { return rule.enabled; }
      for k := 0 to |rule.actions|
        invariant Typed(DontNotify) !in rule.actions[..k]
      {
        if rule.actions[k] == Typed(DontNotify) { return rule.enabled; }
      }
      assert rule.actions[..|rule.actions|] == rule.actions;
      return false;
    }
    return false;
  }

  lemma SameTest<T>(s: seq<T>, p: T -> bool, q: T -> bool)
    requires forall x | x in s :: p(x) == q(x)
    ensures First(s, p) == First(s, q)
  {
  }

  lemma TypedOfConcat<T>(a: seq<Item<T>>, b: seq<Item<T>>)
    ensures TypedItems(a + b) == TypedItems(a) + TypedItems(b)
  {
    if a == [] {
      assert a + b == b;
    } else {
      TypedOfConcat(a[1..], b);
      assert (a + b)[1..] == a[1..] + b;
      var head := if a[0].Typed? then [a[0].value] else [];
      assert head + (TypedItems(a[1..]) + TypedItems(b)) == (head + TypedItems(a[1..])) + TypedItems(b);
    }
  }

  lemma TypedOfNext<T>(items: seq<Item<T>>, i: nat)
    requires i < |items|
    ensures TypedItems(items[..i+1]) == TypedItems(items[..i]) + if items[i].Typed? then [items[i].value] else []
  {
    assert items[..i+1] == items[..i] + [items[i]];
    TypedOfConcat(items[..i], [items[i]]);
    assert [items[i]][1..] == [];
  }

  lemma TypedPrefix<T>(items: seq<Item<T>>, i: nat, x: T)
    requires i <= |items| && x in TypedItems(items[..i])
    ensures x in TypedItems(items)
  {
    assert items == items[..i] + items[i..];
    TypedOfConcat(items[..i], items[i..]);
  }
}
