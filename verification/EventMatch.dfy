/** The event-match checker of push rules: a field of the event against a glob, as words, whatever the case. */
module EventMatch {
  import opened Basics

  // What an event offers to a key path: the strings of its dictionary, and those below its dictionary-valued entries.
  datatype PushEvent = PushEvent(eventId: Option<string>, eventType: Option<string>, roomId: Option<string>,
                                 sender: Option<string>, stateKey: Option<string>, redacts: Option<string>,
                                 nested: map<string, string>)

  // The library's regular expressions: which characters make words, which differ in case only, and what a pattern
  // with operators of its own comes to.
  datatype Text = Text(isWord: char -> bool, same: (char, char) -> bool, regex: (string, string) -> bool)

  // A character is the same as itself.
  ghost predicate Sane(t: Text) { forall c :: t.same(c, c) }

  function ValueAt(event: PushEvent, key: string): Option<string> {
    if key == "event_id" then event.eventId
    else if key == "type" then event.eventType
    else if key == "room_id" then event.roomId
    else if key == "sender" then event.sender
    else if key == "state_key" then event.stateKey
    else if key == "redacts" then event.redacts
    else if IsBelow(key) && key in event.nested then Some(event.nested[key])
    else None
  }

  predicate IsBelow(key: string) {
    || "content." <= key || "unsigned." <= key || "prev_content." <= key || "redacted_because." <= key
    || "invite_room_state." <= key
  }

  // Characters that mean something else in a regular expression; the star and the question mark are translated.
  const OPERATORS := "()[]{}+|^$\\"

  predicate HasOperators(pattern: string) { exists i :: 0 <= i < |pattern| && pattern[i] in OPERATORS }

  predicate IsBreak(c: char) {
    c == '\n' || c == '\U{B}' || c == '\U{C}' || c == '\r' || c == '\U{85}' || c == '\U{2028}' || c == '\U{2029}'
  }

  // One character of a pattern against one of the value. The dot is not escaped, so it matches like a question mark.
  predicate MatchesOne(p: char, c: char, t: Text) {
    if p == '?' || p == '.' then !IsBreak(c) else t.same(p, c)
  }

  predicate GlobMatches(pattern: string, s: string, t: Text)
    decreases |pattern| + |s|
  {
    if pattern == "" then s == ""
    else if pattern[0] == '*' then
      GlobMatches(pattern[1..], s, t) || (s != "" && !IsBreak(s[0]) && GlobMatches(pattern, s[1..], t))
    else s != "" && MatchesOne(pattern[0], s[0], t) && GlobMatches(pattern[1..], s[1..], t)
  }

  // No word character right before or right after.
  predicate Delimited(s: string, i: nat, j: nat, t: Text)
    requires i <= j <= |s|
  {
    (i == 0 || !t.isWord(s[i-1])) && (j == |s| || !t.isWord(s[j]))
  }

  predicate Found(pattern: string, s: string, t: Text) {
    if HasOperators(pattern) then t.regex(pattern, s)
    else exists i, j :: 0 <= i <= j <= |s| && Delimited(s, i, j, t) && GlobMatches(pattern, s[i..j], t)
  }

  predicate Contains(s: string, part: string) { exists i :: 0 <= i <= |s| && part <= s[i..] }

  predicate Satisfied(event: PushEvent, key: Option<string>, pattern: Option<string>, t: Text) {
    if key.None? then false
    else
      var value := ValueAt(event, key.value);
      if key.value == "content.body" && pattern == Some("@room") then value.Some? && Contains(value.value, "@room")
      else value.Some? && pattern.Some? && pattern.value != "" && Found(pattern.value, value.value, t)
  }

  // ---------- What a glob matches ----------

  predicate Splits(p: string, q: string, s: string, k: int, t: Text) {
    0 <= k <= |s| && GlobMatches(p, s[..k], t) && GlobMatches(q, s[k..], t)
  }

  // Two globs in a row match two pieces in a row, cut anywhere: with `GlobOfOne`, the meaning of every glob.
  lemma {:induction false} GlobOfConcat(p: string, q: string, s: string, t: Text)
    ensures GlobMatches(p + q, s, t) <==> exists k :: Splits(p, q, s, k, t)
    decreases |p| + |s|
  {
    if p == "" {
      assert p + q == q && s[..0] == "" && s[0..] == s;
      assert Splits(p, q, s, 0, t) <==> GlobMatches(q, s, t);
      forall k | Splits(p, q, s, k, t) ensures k == 0 { assert |s[..k]| == k; }
    } else {
      assert (p + q)[0] == p[0] && (p + q)[1..] == p[1..] + q;
      if p[0] == '*' {
        GlobOfConcat(p[1..], q, s, t);
        if k :| Splits(p[1..], q, s, k, t) { assert Splits(p, q, s, k, t); }
        if s != "" { GlobOfConcat(p, q, s[1..], t); }
      } else if s != "" {
        GlobOfConcat(p[1..], q, s[1..], t);
      }
      FirstTaken(p, q, s, t);
    }
  }

  // One step of a split: the first character of the pattern takes nothing, when it is a star, or one character.
  lemma FirstTaken(p: string, q: string, s: string, t: Text)
    requires p != ""
    ensures
      var rest := if p[0] == '*' then p else p[1..];
      var one := s != "" && (if p[0] == '*' then !IsBreak(s[0]) else MatchesOne(p[0], s[0], t));
      (exists k :: Splits(p, q, s, k, t)) <==>
        || (p[0] == '*' && exists k :: Splits(p[1..], q, s, k, t))
        || (one && exists k :: Splits(rest, q, s[1..], k, t))
  {
    var rest := if p[0] == '*' then p else p[1..];
    var one := s != "" && (if p[0] == '*' then !IsBreak(s[0]) else MatchesOne(p[0], s[0], t));
    if k :| Splits(p, q, s, k, t) && !(p[0] == '*' && Splits(p[1..], q, s, k, t)) {
      assert k > 0 && s[..k][1..] == s[1..][..k-1] && s[k..] == s[1..][k-1..];
      assert one && Splits(rest, q, s[1..], k - 1, t);
    }
    if one {
      if k :| Splits(rest, q, s[1..], k, t) {
        assert s[..k+1][1..] == s[1..][..k] && s[k+1..] == s[1..][k..];
        assert Splits(p, q, s, k + 1, t);
      }
    }
    if p[0] == '*' {
      if k :| Splits(p[1..], q, s, k, t) { assert Splits(p, q, s, k, t); }
    }
  }

  // A star matches any text on one line; a question mark, and a dot too, one character of it; any other character
  // itself, whatever the case.
  lemma {:induction false} GlobOfOne(c: char, s: string, t: Text)
    ensures GlobMatches([c], s, t) <==>
      if c == '*' then forall i | 0 <= i < |s| :: !IsBreak(s[i])
      else |s| == 1 && (if c == '?' || c == '.' then !IsBreak(s[0]) else t.same(c, s[0]))
    ensures IsBreak(c) <==> c in ['\n', '\U{B}', '\U{C}', '\r', '\U{85}', '\U{2028}', '\U{2029}']
    decreases |s|
  {
    assert [c][1..] == "";
    if s != "" && c == '*' {
      GlobOfOne(c, s[1..], t);
      assert s == [s[0]] + s[1..];
    }
  }

  // A pattern without stars and operators.
  predicate Plain(pattern: string) { !HasOperators(pattern) && '*' !in pattern }

  // The pattern stands at this place, character by character, and as a word.
  predicate StandsAt(pattern: string, s: string, i: int, t: Text) {
    && 0 <= i && i + |pattern| <= |s| && Delimited(s, i, i + |pattern|, t)
    && forall k | 0 <= k < |pattern| :: MatchesOne(pattern[k], s[i+k], t)
  }

  lemma {:induction false} PlainGlob(pattern: string, s: string, t: Text)
    requires '*' !in pattern
    ensures GlobMatches(pattern, s, t) <==>
            |s| == |pattern| && forall k | 0 <= k < |pattern| :: MatchesOne(pattern[k], s[k], t)
  {
    if pattern != "" && s != "" {
      PlainGlob(pattern[1..], s[1..], t);
      if |s| == |pattern| && forall k | 0 <= k < |pattern| :: MatchesOne(pattern[k], s[k], t) {
        forall k | 0 <= k < |pattern[1..]| ensures MatchesOne(pattern[1..][k], s[1..][k], t) {
          assert MatchesOne(pattern[k+1], s[k+1], t);
        }
      }
      if GlobMatches(pattern, s, t) {
        forall k | 0 <= k < |pattern| ensures MatchesOne(pattern[k], s[k], t) {
          if k > 0 { assert MatchesOne(pattern[1..][k-1], s[1..][k-1], t); }
        }
      }
    }
  }

  // A plain pattern is found exactly when it stands somewhere in the value, as a word.
  lemma PlainFoundIff(pattern: string, s: string, t: Text)
    requires Plain(pattern)
    ensures Found(pattern, s, t) <==> exists i :: StandsAt(pattern, s, i, t)
  {
    if i, j :| 0 <= i <= j <= |s| && Delimited(s, i, j, t) && GlobMatches(pattern, s[i..j], t) {
      PlainGlob(pattern, s[i..j], t);
      forall k | 0 <= k < |pattern| ensures MatchesOne(pattern[k], s[i+k], t) { assert s[i..j][k] == s[i+k]; }
      assert StandsAt(pattern, s, i, t);
    }
    if i :| StandsAt(pattern, s, i, t) {
      var j := i + |pattern|;
      PlainGlob(pattern, s[i..j], t);
      assert 0 <= i <= j <= |s| && Delimited(s, i, j, t) && GlobMatches(pattern, s[i..j], t);
    }
  }

  // "@room" is looked for to the letter, anywhere in the text.
  lemma ContainsIff(s: string, part: string)
    ensures Contains(s, part) <==> exists before, after :: s == before + part + after
  {
    if i :| 0 <= i <= |s| && part <= s[i..] {
      assert s == s[..i] + part + s[i + |part|..];
    }
    if before, after :| s == before + part + after {
      assert s[|before|..] == part + after;
      assert part <= s[|before|..];
    }
  }

  // Every value has itself in it.
  lemma FindsItself(pattern: string, t: Text)
    requires Plain(pattern) && Sane(t) && forall c | c in pattern :: !IsBreak(c)
    ensures Found(pattern, pattern, t)
  {
    forall k | 0 <= k < |pattern| ensures MatchesOne(pattern[k], pattern[k], t) { assert pattern[k] in pattern; }
    assert StandsAt(pattern, pattern, 0, t);
    PlainFoundIff(pattern, pattern, t);
  }
}
