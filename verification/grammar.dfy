/**
  The direct-message command grammar
      ^(?P<cmd>\w+)\s+<#(?P<channel>C\w+)>(?P<people>(\s+<@U\w+>)*)$
  followed by `re.findall('<@(\w+)>', people)`, as a deterministic parser. The pattern is
  compiled without the UNICODE flag, so `\w` and `\s` are the ASCII classes. Every part of it
  is delimited by a character the previous part cannot contain, so backtracking never changes
  the outcome and a longest-match parser accepts exactly the matching texts: CommandText below
  renders every matching text, and the two round-trip lemmas connect the two in both directions.
*/
module CommandGrammar {
  import opened Options
  import opened PyText

  predicate IsWord(s: string) {
    s != [] && All(IsWordChar, s)
  }

  /** A run of `\s` characters, as `\s+` matches. */
  predicate IsGap(s: string) {
    s != [] && All(IsAsciiSpace, s)
  }

  /** `C\w+`: the channel part of a `<#...>` token. */
  predicate IsChannelToken(s: string) {
    |s| >= 2 && s[0] == 'C' && All(IsWordChar, s)
  }

  /** `U\w+`: the user part of a `<@...>` token. */
  predicate IsUserToken(s: string) {
    |s| >= 2 && s[0] == 'U' && All(IsWordChar, s)
  }

  /** A parsed command: the `cmd` group, the `channel` group and the ids `findall` returns. */
  datatype Command = Command(verb: string, channel: string, mentions: seq<string>)

  /** One `\s+<@U\w+>` repetition of the `people` group: the gap before it and the user id. */
  datatype Mention = Mention(gap: string, user: string)

  function MentionsText(ms: seq<Mention>): string {
    if ms == [] then [] else ms[0].gap + "<@" + ms[0].user + ">" + MentionsText(ms[1..])
  }

  function Users(ms: seq<Mention>): seq<string> {
    if ms == [] then [] else [ms[0].user] + Users(ms[1..])
  }

  predicate WellFormedMentions(ms: seq<Mention>) {
    forall i :: 0 <= i < |ms| ==> IsGap(ms[i].gap) && IsUserToken(ms[i].user)
  }

  /** Every text the pattern matches has this shape, with `IsWord(verb)`, `IsGap(gap)`,
      `IsChannelToken(channel)` and `WellFormedMentions(ms)`. */
  function CommandText(verb: string, gap: string, channel: string, ms: seq<Mention>): string {
    verb + gap + "<#" + channel + ">" + MentionsText(ms)
  }

  /** The set the interpreter builds from the mentioned ids. */
  function People(c: Command): (r: set<string>)
    ensures forall u :: u in r <==> u in c.mentions
    ensures |r| <= |c.mentions|
  {
    DistinctAtMost(c.mentions);
    set u | u in c.mentions
  }

  /** A sequence names at most as many distinct ids as it is long. */
  lemma {:induction false} DistinctAtMost(s: seq<string>)
    ensures |set u | u in s| <= |s|
  {
    if s != [] {
      DistinctAtMost(s[1..]);
      assert (set u | u in s) == {s[0]} + (set u | u in s[1..]);
    }
  }

  /** Matches one `\s+<@U\w+>` repetition at the start of `t`: the mention and the rest. */
  function ParseMention(t: string): (r: Option<(Mention, string)>)
    ensures r.Some? ==> var (m, rest) := r.value;
      IsGap(m.gap) && IsUserToken(m.user) && t == m.gap + "<@" + m.user + ">" + rest
  {
    var (gap, r1) := TakeWhile(IsAsciiSpace, t);
    if gap == [] || |r1| < 2 || r1[..2] != "<@" then None
    else
      var (user, r2) := TakeWhile(IsWordChar, r1[2..]);
      if !IsUserToken(user) || r2 == [] || r2[0] != '>' then None
      else
        assert r1 == "<@" + r1[2..];
        assert r2 == ">" + r2[1..];
        Some((Mention(gap, user), r2[1..]))
  }

  /** Matches `(\s+<@U\w+>)*$` against `t`, returning the ids in order. */
  function ParseMentions(t: string): (r: Option<seq<string>>)
    ensures r.Some? ==> forall i :: 0 <= i < |r.value| ==> IsUserToken(r.value[i])
    decreases |t|
  {
    if t == [] then Some([])
    else
      match ParseMention(t)
      case None => None
      case Some((m, rest)) =>
        match ParseMentions(rest)
        case None => None
        case Some(users) => Some([m.user] + users)
  }

  /** Matches the `\w+\s+<#C\w+>` head of the pattern at the start of `s`: the verb, the gap,
      the channel id and the rest. */
  function ParseHead(s: string): (r: Option<(string, string, string, string)>)
    ensures r.Some? ==> var (verb, gap, channel, rest) := r.value;
      IsWord(verb) && IsGap(gap) && IsChannelToken(channel) && s == verb + gap + "<#" + channel + ">" + rest
  {
    var (verb, r1) := TakeWhile(IsWordChar, s);
    var (gap, r2) := TakeWhile(IsAsciiSpace, r1);
    if verb == [] || gap == [] || |r2| < 2 || r2[..2] != "<#" then None
    else
      var (channel, r3) := TakeWhile(IsWordChar, r2[2..]);
      if !IsChannelToken(channel) || r3 == [] || r3[0] != '>' then None
      else
        HeadJoins(s, verb, gap, r2, channel, r3);
        Some((verb, gap, channel, r3[1..]))
  }

  lemma HeadJoins(s: string, verb: string, gap: string, r2: string, channel: string, r3: string)
    requires s == verb + (gap + r2) && |r2| >= 2 && r2[..2] == "<#"
    requires r2[2..] == channel + r3 && r3 != [] && r3[0] == '>'
    ensures s == verb + gap + "<#" + channel + ">" + r3[1..]
  {
    assert r2 == "<#" + (channel + (">" + r3[1..]));
  }

  /** Matches the whole command pattern against `s`. */
  function ParseCommand(s: string): (r: Option<Command>)
    ensures r.Some? ==> IsWord(r.value.verb) && IsChannelToken(r.value.channel)
    ensures r.Some? ==> forall i :: 0 <= i < |r.value.mentions| ==> IsUserToken(r.value.mentions[i])
  {
    match ParseHead(s)
    case None => None
    case Some((verb, _, channel, rest)) =>
      match ParseMentions(rest)
      case None => None
      case Some(users) => Some(Command(verb, channel, users))
  }

  /** Every well-formed mention list is accepted, with its ids in order. */
  lemma {:induction false} ParseMentionsText(ms: seq<Mention>)
    requires WellFormedMentions(ms)
    ensures ParseMentions(MentionsText(ms)) == Some(Users(ms))
  {
    if ms != [] {
      WellFormedRest(ms);
      ParseMentionsText(ms[1..]);
      ParseMentionsCons(ms[0].gap, ms[0].user, MentionsText(ms[1..]));
    }
  }

  /** A gap and one `<@U...>` token in front of a text are read as that mention, which puts its
      id in front of the ids of the text. */
  lemma ParseMentionsCons(gap: string, user: string, rest: string)
    requires IsGap(gap) && IsUserToken(user)
    ensures ParseMention(gap + "<@" + user + ">" + rest) == Some((Mention(gap, user), rest))
    ensures ParseMentions(gap + "<@" + user + ">" + rest)
         == match ParseMentions(rest) case None => None case Some(users) => Some([user] + users)
  {
    var r1 := "<@" + user + ">" + rest;
    assert gap + "<@" + user + ">" + rest == gap + r1;
    TakeWhileSplits(IsAsciiSpace, gap, r1);
    assert r1[..2] == "<@";
    assert r1[2..] == user + (">" + rest);
    TakeWhileSplits(IsWordChar, user, ">" + rest);
    assert (">" + rest)[1..] == rest;
  }

  lemma WellFormedCons(m: Mention, rest: seq<Mention>)
    requires IsGap(m.gap) && IsUserToken(m.user) && WellFormedMentions(rest)
    ensures WellFormedMentions([m] + rest)
    ensures MentionsText([m] + rest) == m.gap + "<@" + m.user + ">" + MentionsText(rest)
    ensures Users([m] + rest) == [m.user] + Users(rest)
  {
    var ms := [m] + rest;
    assert ms[0] == m && ms[1..] == rest;
    forall i | 0 <= i < |ms| ensures IsGap(ms[i].gap) && IsUserToken(ms[i].user) {
      if i > 0 {
        assert ms[i] == rest[i - 1];
      }
    }
  }

  lemma WellFormedRest(ms: seq<Mention>)
    requires ms != [] && WellFormedMentions(ms)
    ensures IsGap(ms[0].gap) && IsUserToken(ms[0].user) && WellFormedMentions(ms[1..])
  {
    forall i | 0 <= i < |ms[1..]| ensures IsGap(ms[1..][i].gap) && IsUserToken(ms[1..][i].user) {
      assert ms[1..][i] == ms[i + 1];
    }
  }

  /** One step of an accepted mention list: a gap, a `<@U...>` token and an accepted rest. */
  lemma ParseMentionsStep(t: string) returns (gap: string, user: string, rest: string)
    requires t != [] && ParseMentions(t).Some?
    ensures IsGap(gap) && IsUserToken(user) && ParseMentions(rest).Some?
    ensures t == gap + "<@" + user + ">" + rest
    ensures ParseMentions(t).value == [user] + ParseMentions(rest).value
  {
    var (m, r) := ParseMention(t).value;
    gap, user, rest := m.gap, m.user, r;
  }

  /** Every accepted mention list is a well-formed one. */
  lemma {:induction false} ParseMentionsSound(t: string) returns (ms: seq<Mention>)
    requires ParseMentions(t).Some?
    ensures WellFormedMentions(ms) && MentionsText(ms) == t && Users(ms) == ParseMentions(t).value
    decreases |t|
  {
    if t == [] {
      ms := [];
    } else {
      var gap, user, restText := ParseMentionsStep(t);
      var rest := ParseMentionsSound(restText);
      ms := [Mention(gap, user)] + rest;
      WellFormedCons(Mention(gap, user), rest);
    }
  }

  /** Every text of the command shape is accepted, with its parts. */
  lemma ParseCommandText(verb: string, gap: string, channel: string, ms: seq<Mention>)
    requires IsWord(verb) && IsGap(gap) && IsChannelToken(channel) && WellFormedMentions(ms)
    ensures ParseCommand(CommandText(verb, gap, channel, ms)) == Some(Command(verb, channel, Users(ms)))
  {
    ParseHeadText(verb, gap, channel, MentionsText(ms));
    ParseMentionsText(ms);
  }

  /** A head of the pattern in front of a text is read as exactly its parts. */
  lemma ParseHeadText(verb: string, gap: string, channel: string, rest: string)
    requires IsWord(verb) && IsGap(gap) && IsChannelToken(channel)
    ensures ParseHead(verb + gap + "<#" + channel + ">" + rest) == Some((verb, gap, channel, rest))
  {
    var r2 := "<#" + channel + ">" + rest;
    assert verb + gap + "<#" + channel + ">" + rest == verb + (gap + r2);
    TakeWhileSplits(IsWordChar, verb, gap + r2);
    TakeWhileSplits(IsAsciiSpace, gap, r2);
    assert r2[..2] == "<#";
    assert r2[2..] == channel + (">" + rest);
    TakeWhileSplits(IsWordChar, channel, ">" + rest);
    assert (">" + rest)[1..] == rest;
  }



  /** Every accepted text has the command shape. */
  lemma ParseCommandSound(s: string) returns (gap: string, ms: seq<Mention>)
    requires ParseCommand(s).Some?
    ensures IsGap(gap) && WellFormedMentions(ms)
    ensures var c := ParseCommand(s).value;
      s == CommandText(c.verb, gap, c.channel, ms) && c.mentions == Users(ms)
  {
    var (verb, g, channel, rest) := ParseHead(s).value;
    ms := ParseMentionsSound(rest);
    gap := g;
  }

}
