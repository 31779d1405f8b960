/** Room aliases: building the full alias, extracting the local part, and the characters it may have. */
module Aliases {
  import opened Basics

  predicate IsDigit(c: char) { '0' <= c <= '9' }
  predicate IsLower(c: char) { 'a' <= c <= 'z' }
  predicate IsUpper(c: char) { 'A' <= c <= 'Z' }

  predicate ValidCharacter(c: char) { IsDigit(c) || IsLower(c) || IsUpper(c) || c == '-' || c == '_' }

  predicate AllValid(s: string) { forall i | 0 <= i < |s| :: ValidCharacter(s[i]) }

  // The characters accepted by the availability check.
  predicate Accepted(localPart: string) { localPart != "" && AllValid(localPart) }

  // What follows the first component of the user id; none without a colon.
  function NodeSuffix(userId: string): (suffix: Option<string>)
    ensures suffix.Some? <==> ':' in userId
    ensures suffix.Some? ==>
      exists i :: 0 <= i < |userId| && userId[i] == ':' && ':' !in userId[..i] && suffix.value == userId[i..]
  {
    var i := FirstIndex(userId, (c: char) => c == ':');
    assert forall j | 0 <= j < |userId| :: userId[j] in userId;
    if i < |userId| then Some(userId[i..]) else None
  }

  function FullLocalAlias(s: string, nodeSuffix: Option<string>): string {
    if nodeSuffix.None? then s else "#" + s + nodeSuffix.value
  }

  // The alias of a user "name:domain" is "#local:domain".
  lemma FullAliasShape(localPart: string, name: string, domain: string)
    requires ':' !in name
    ensures FullLocalAlias(localPart, NodeSuffix(name + ":" + domain)) == "#" + localPart + ":" + domain
  {
    var userId := name + ":" + domain;
    assert forall j | 0 <= j < |name| :: userId[j] in name;
    assert userId[|name|] == ':';
    assert userId[|name|..] == ":" + domain;
    assert "#" + localPart + (":" + domain) == "#" + localPart + ":" + domain;
  }

  // ---------- Extraction ----------

  function StripHashes(s: string): string {
    if s != "" && s[0] == '#' then StripHashes(s[1..]) else s
  }

  function CutAtColon(s: string): string { s[..FirstIndex(s, (c: char) => c == ':')] }

  function Extracted(s: string): string { CutAtColon(StripHashes(s)) }

  method ExtractLocalAliasPart(s: string) returns (aliasPart: string)
    ensures aliasPart == Extracted(s)
  {
    aliasPart := s;
    while aliasPart != "" && aliasPart[0] == '#'
      invariant StripHashes(aliasPart) == StripHashes(s)
      decreases |aliasPart|
    {
      aliasPart := aliasPart[1..];
    }
    var index := FirstIndex(aliasPart, (c: char) => c == ':');
    if index < |aliasPart| {
      aliasPart := aliasPart[..index];
    } else {
      assert aliasPart[..index] == aliasPart;
    }
  }

  // The first n characters are hashes.
  predicate HashesUpTo(s: string, n: nat) {
    n <= |s| && forall i | 0 <= i < n :: s[i] == '#'
  }

  lemma StripHashesStops(s: string) returns (n: nat)
    ensures StripHashes(s) == "" || StripHashes(s)[0] != '#'
    ensures HashesUpTo(s, n) && StripHashes(s) == s[n..]
  {
    if s != "" && s[0] == '#' {
      var m := StripHashesStops(s[1..]);
      n := m + 1;
      assert s[n..] == s[1..][m..];
      forall i | 0 <= i < n ensures s[i] == '#' { assert i > 0 ==> s[i] == s[1..][i-1]; }
    } else {
      n := 0;
    }
  }

  // `part` stands between n leading hashes and the colon at m, or the end.
  predicate StandsBetween(part: string, s: string, n: nat, m: nat) {
    n <= m <= |s| && HashesUpTo(s, n) && part == s[n..m] && (m < |s| ==> s[m] == ':')
  }

  // What is extracted is what stands between the leading hashes and the first colon after them.
  lemma ExtractedShape(s: string)
    ensures ':' !in Extracted(s)
    ensures Extracted(s) == "" || Extracted(s)[0] != '#'
    ensures exists n, m :: StandsBetween(Extracted(s), s, n, m)
  {
    var n := StripHashesStops(s);
    var k := FirstIndex(s[n..], (c: char) => c == ':');
    assert Extracted(s) == s[n..][..k];
    assert s[n..][..k] == s[n..n + k];
    assert n + k < |s| ==> s[n + k] == s[n..][k];
    assert StandsBetween(Extracted(s), s, n, n + k);
  }

  // Extraction is idempotent.
  lemma ExtractedTwice(s: string)
    ensures Extracted(Extracted(s)) == Extracted(s)
  {
    ExtractedShape(s);
    NoColonKept(Extracted(s));
  }

  lemma NoColonKept(s: string)
    requires ':' !in s && (s == "" || s[0] != '#')
    ensures Extracted(s) == s
  {
  }

  // Round trip, for every string and user: the local part comes back iff it has no colon and does not begin
  // with a hash.
  lemma AliasRoundTrip(localPart: string, userId: string)
    ensures Extracted(FullLocalAlias(localPart, NodeSuffix(userId))) == localPart <==>
            ':' !in localPart && (localPart == "" || localPart[0] != '#')
    ensures Accepted(localPart) ==> Extracted(FullLocalAlias(localPart, NodeSuffix(userId))) == localPart
  {
    var nodeSuffix := NodeSuffix(userId);
    var full := FullLocalAlias(localPart, nodeSuffix);
    ExtractedShape(full);
    if ':' !in localPart && (localPart == "" || localPart[0] != '#') {
      if nodeSuffix.None? {
        NoColonKept(localPart);
      } else {
        var rest := localPart + nodeSuffix.value;
        assert full[1..] == rest;
        assert rest[0] != '#';
        assert StripHashes(full) == rest;
        assert forall j | 0 <= j < |localPart| :: rest[j] in localPart;
        assert rest[|localPart|] == ':';
        assert FirstIndex(rest, (c: char) => c == ':') == |localPart|;
        assert rest[..|localPart|] == localPart;
      }
    }
    if Accepted(localPart) {
      assert forall i | 0 <= i < |localPart| :: localPart[i] != ':' && localPart[i] != '#';
    }
  }

  // ---------- A valid local part ----------

  // ASCII lower-casing.
  function Lower(c: char): char { if IsUpper(c) then c - 'A' + 'a' else c }

  function Lowercased(s: string): string { seq(|s|, i requires 0 <= i < |s| => Lower(s[i])) }

  function SpacesToDashes(s: string): string { seq(|s|, i requires 0 <= i < |s| => if s[i] == ' ' then '-' else s[i]) }

  function ValidAliasLocalPart(s: string): string {
    Keep(SpacesToDashes(Lowercased(s)), (c: char) => ValidCharacter(c))
  }

  // Character by character: capitals become small, spaces become dashes, accepted ones stay, others go.
  lemma ValidPartOfChar(c: char)
    ensures ValidAliasLocalPart([c]) ==
      if IsUpper(c) then [c - 'A' + 'a'] else if c == ' ' then "-" else if ValidCharacter(c) then [c] else ""
  {
  }

  lemma ValidPartOfConcat(a: string, b: string)
    ensures ValidAliasLocalPart(a + b) == ValidAliasLocalPart(a) + ValidAliasLocalPart(b)
  {
    assert SpacesToDashes(Lowercased(a + b)) == SpacesToDashes(Lowercased(a)) + SpacesToDashes(Lowercased(b));
    KeepDistributes(SpacesToDashes(Lowercased(a)), SpacesToDashes(Lowercased(b)), (c: char) => ValidCharacter(c));
  }

  // For every string the result has accepted characters only and no capitals, and a second pass changes nothing.
  lemma ValidPartIsValid(s: string)
    ensures AllValid(ValidAliasLocalPart(s))
    ensures forall c | c in ValidAliasLocalPart(s) :: !IsUpper(c)
    ensures ValidAliasLocalPart(ValidAliasLocalPart(s)) == ValidAliasLocalPart(s)
    ensures ValidAliasLocalPart(s) != "" ==> Accepted(ValidAliasLocalPart(s))
  {
    var dashed, valid := SpacesToDashes(Lowercased(s)), ValidAliasLocalPart(s);
    forall c | c in valid ensures ValidCharacter(c) && !IsUpper(c) {
      var i :| 0 <= i < |dashed| && dashed[i] == c;
    }
    forall i | 0 <= i < |valid| ensures ValidCharacter(valid[i]) && !IsUpper(valid[i]) { assert valid[i] in valid; }
    assert SpacesToDashes(Lowercased(valid)) == valid;
    KeepAll(valid, (c: char) => ValidCharacter(c));
  }

  // What the checker builds from a valid part can be taken apart again.
  lemma ValidPartRoundTrip(s: string, userId: string)
    ensures Extracted(FullLocalAlias(ValidAliasLocalPart(s), NodeSuffix(userId))) == ValidAliasLocalPart(s)
  {
    var valid := ValidAliasLocalPart(s);
    ValidPartIsValid(s);
    forall c | c in valid ensures c != ':' && c != '#' { var i :| 0 <= i < |valid| && valid[i] == c; }
    assert valid != "" ==> valid[0] in valid;
    AliasRoundTrip(valid, userId);
  }

  datatype Availability = Available | Invalid | NotAvailable | ServerError

  // The server's answer for an alias: success, or a failure with an HTTP status, if the server answered at all.
  type Resolver = string -> Response<(), Option<int>>

  function Validate(localPart: string, nodeSuffix: Option<string>, resolve: Resolver): Availability {
    if localPart == "" || Keep(localPart, (c: char) => !ValidCharacter(c)) != "" then Invalid
    else match resolve(FullLocalAlias(localPart, nodeSuffix))
      case Success(_) => NotAvailable
      case Failure(status) => if status == Some(404) then Available else ServerError
  }

  lemma NoneBad(s: string)
    ensures Keep(s, (c: char) => !ValidCharacter(c)) == "" ==> AllValid(s)
  {
    var bad := Keep(s, (c: char) => !ValidCharacter(c));
    forall i | 0 <= i < |s| && !ValidCharacter(s[i]) ensures bad != "" { assert s[i] in bad; }
  }

  // The server is asked about accepted parts alone, and its answer for the full alias decides: one that resolves is
  // taken, one that is not found is available, and anything else is an error.
  lemma AvailabilityIff(localPart: string, nodeSuffix: Option<string>, resolve: Resolver)
    ensures
      var full := if nodeSuffix.None? then localPart else "#" + localPart + nodeSuffix.value;
      var accepted := localPart != "" && forall i | 0 <= i < |localPart| ::
        || '0' <= localPart[i] <= '9' || 'a' <= localPart[i] <= 'z' || 'A' <= localPart[i] <= 'Z'
        || localPart[i] == '-' || localPart[i] == '_';
      var result := Validate(localPart, nodeSuffix, resolve);
      && (result.Invalid? <==> !accepted)
      && (result.Available? <==> accepted && resolve(full) == Failure(Some(404)))
      && (result.NotAvailable? <==> accepted && resolve(full).Success?)
      && (result.ServerError? <==> accepted && resolve(full).Failure? && resolve(full).error != Some(404))
  {
    InvalidIff(localPart, nodeSuffix, resolve);
  }

  lemma InvalidIff(localPart: string, nodeSuffix: Option<string>, resolve: Resolver)
    ensures Validate(localPart, nodeSuffix, resolve).Invalid? <==> !Accepted(localPart)
  {
    var bad := Keep(localPart, (c: char) => !ValidCharacter(c));
    assert localPart != "" && bad == "" ==> AllValid(localPart) by { NoneBad(localPart); }
    if bad != "" {
      assert bad[0] in bad;
      var i :| 0 <= i < |localPart| && localPart[i] == bad[0];
      assert !AllValid(localPart);
    }
  }
}
