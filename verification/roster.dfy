/**
  The roster directory and what the seven verbs do to it, shared by both interpreter
  variants: `Run` is the decision a parsed command leads to (the new directory and the
  reply), and `Renders` says which output messages carry a reply. The reply texts that
  list members or channels depend on the iteration order of a Python set or shelf, which the
  model leaves open: they are specified as some enumeration of the set.
*/
module Roster {
  import opened Options
  import opened PyText
  import opened CommandGrammar

  /** Channel id to the set of member user ids (the shelf). */
  type Directory = map<string, set<string>>

  /** One queued reply: (channel id, text). */
  type OutputMessage = (string, string)

  datatype Verb = Info | Create | Add | Join | Remove | Leave | Drop | Unknown

  /** The command word each verb answers to; none for `Unknown`. */
  function VerbWord(v: Verb): string {
    match v
    case Info => "info"
    case Create => "create"
    case Add => "add"
    case Join => "join"
    case Remove => "remove"
    case Leave => "leave"
    case Drop => "drop"
    case Unknown => ""
  }

  /** The `cmd == ...` dispatch: the verb whose command word is `word`, or `Unknown`. */
  function VerbOf(word: string): (r: Verb)
    ensures r != Unknown ==> VerbWord(r) == word
  {
    if word == "info" then Info
    else if word == "create" then Create
    else if word == "add" then Add
    else if word == "join" then Join
    else if word == "remove" then Remove
    else if word == "leave" then Leave
    else if word == "drop" then Drop
    else Unknown
  }

  /** Every verb's command word is recognised as that verb, so together with `VerbOf`'s
      contract the seven command words and the seven verbs correspond one to one. */
  lemma VerbWordRecognised(v: Verb)
    ensures VerbOf(VerbWord(v)) == v
  {
  }

  datatype Ack = Created | Updated | Deleted

  /** What the bot answers, before it is formatted into output messages. */
  datatype Reply =
    | HelpReply
    | StatsReply(users: nat, teams: nat)
    | FullListing(rosters: Directory)
    | TeamList(keys: set<string>)
    | NotRecognized
    | Members(channel: string, members: set<string>)
    | NoRecord(channel: string)
    | Invite(channel: string)
    | AlreadyExists
    | Acknowledged(channel: string, ack: Ack)
    | PingTeam(members: set<string>)
    | NoTeamNotice
    | Silent

  /** The directory after handling a message, and the reply. */
  datatype Response = Response(after: Directory, reply: Reply)

  /**
    A parsed command on `channel` with the mentioned `people`, sent by `sender`; `botIn`
    is the answer of the membership query, which only the verbs other than `info` consult.
  */
  function Run(d: Directory, verb: Verb, channel: string, people: set<string>, sender: string, botIn: bool): (r: Response)
    ensures !r.reply.Acknowledged? ==> r.after == d
    ensures r.after - {channel} == d - {channel}
    ensures r.reply.Acknowledged? ==> botIn && verb != Info && verb != Unknown && r.reply.channel == channel
  {
    if verb != Info && !botIn then Response(d, Invite(channel))
    else
      match verb
      case Info => Response(d, if channel in d then Members(channel, d[channel]) else NoRecord(channel))
      case Create =>
        if channel in d then Response(d, AlreadyExists)
        else Response(d[channel := people], Acknowledged(channel, Created))
      case Add =>
        if channel !in d then Response(d, NoRecord(channel))
        else Response(d[channel := d[channel] + people], Acknowledged(channel, Updated))
      case Join =>
        if channel !in d then Response(d, NoRecord(channel))
        else Response(d[channel := d[channel] + {sender}], Acknowledged(channel, Updated))
      case Remove =>
        if channel !in d then Response(d, NoRecord(channel))
        else Response(d[channel := d[channel] - people], Acknowledged(channel, Updated))
      case Leave =>
        if channel !in d then Response(d, NoRecord(channel))
        else Response(d[channel := d[channel] - {sender}], Acknowledged(channel, Updated))
      case Drop =>
        if channel !in d then Response(d, NoRecord(channel))
        else Response(d - {channel}, Acknowledged(channel, Deleted))
      case Unknown => Response(d, NotRecognized)
  }

  // ---------------------------------------------------------------------------------------
  // Properties of the verbs

  /** A verb that succeeds on an existing roster changes its membership as a set operation. */
  lemma AckedMembership(d: Directory, verb: Verb, channel: string, people: set<string>, sender: string, u: string)
    requires channel in d
    requires verb in {Add, Join, Remove, Leave}
    ensures var r := Run(d, verb, channel, people, sender, true);
      && r.reply == Acknowledged(channel, Updated)
      && channel in r.after
      && (u in r.after[channel] <==>
            match verb
            case Add => u in d[channel] || u in people
            case Join => u in d[channel] || u == sender
            case Remove => u in d[channel] && u !in people
            case _ => u in d[channel] && u != sender)
  {
  }

  /** `create` on a new channel adds exactly that key, bound to the mentioned people. */
  lemma CreateAddsKey(d: Directory, channel: string, people: set<string>, sender: string)
    requires channel !in d
    ensures var r := Run(d, Create, channel, people, sender, true);
      && r.reply == Acknowledged(channel, Created)
      && r.after.Keys == d.Keys + {channel} && r.after[channel] == people
  {
  }

  /** `drop` on an existing roster removes exactly that key, whoever is mentioned, and leaves
      every other roster as it was. */
  lemma DropRemovesKey(d: Directory, channel: string, people: set<string>, sender: string)
    requires channel in d
    ensures var r := Run(d, Drop, channel, people, sender, true);
      && r.reply == Acknowledged(channel, Deleted) && r.after == d - {channel}
      && r.after.Keys == d.Keys - {channel}
  {
  }

  /** Without the bot in the channel every verb but `info` is refused and nothing changes;
      this includes verbs the bot does not know. */
  lemma UninvitedRejected(d: Directory, verb: Verb, channel: string, people: set<string>, sender: string)
    requires verb != Info
    ensures Run(d, verb, channel, people, sender, false) == Response(d, Invite(channel))
  {
  }

  /** `info` is answered the same whether or not the bot is in the channel, which is why the
      interpreter does not ask. */
  lemma InfoIgnoresPresence(d: Directory, channel: string, people: set<string>, sender: string, botIn: bool)
    ensures Run(d, Info, channel, people, sender, botIn) == Run(d, Info, channel, people, sender, false)
    ensures Run(d, Info, channel, people, sender, botIn).after == d
  {
  }

  /** With the bot in the channel, a command word that is none of the seven verbs gets the
      unrecognised-command reply and changes nothing. */
  lemma UnknownNotRecognized(d: Directory, channel: string, people: set<string>, sender: string)
    ensures Run(d, Unknown, channel, people, sender, true) == Response(d, NotRecognized)
  {
  }

  /** `create` on a channel that already has a roster is refused and changes nothing, whoever
      is mentioned. */
  lemma CreateOnExisting(d: Directory, channel: string, people: set<string>, sender: string)
    requires channel in d
    ensures Run(d, Create, channel, people, sender, true) == Response(d, AlreadyExists)
  {
  }

  /** No verb but `create` brings a roster into existence. */
  lemma MissingRosterNeverCreated(d: Directory, verb: Verb, channel: string, people: set<string>, sender: string, botIn: bool)
    requires channel !in d && verb != Create
    ensures var r := Run(d, verb, channel, people, sender, botIn);
      && r.after == d
      && (verb != Unknown && (verb == Info || botIn) ==> r.reply == NoRecord(channel))
  {
  }

  /** Repeating `info`, `add`, `join`, `remove`, `leave` or an unknown verb has the same
      outcome as doing it once, reply included. */
  lemma RepeatIsNoOp(d: Directory, verb: Verb, channel: string, people: set<string>, sender: string, botIn: bool)
    requires verb !in {Create, Drop}
    ensures var r := Run(d, verb, channel, people, sender, botIn);
      Run(r.after, verb, channel, people, sender, botIn) == r
  {
    var r := Run(d, verb, channel, people, sender, botIn);
    if botIn && channel in d && verb in {Add, Join, Remove, Leave} {
      var m := r.after[channel];
      assert r.after == d[channel := m];
      match verb
      case Add => assert m + people == m;
      case Join => assert m + {sender} == m;
      case Remove => assert m - people == m;
      case Leave => assert m - {sender} == m;
    }
  }

  /** A second `create` or `drop` is refused and changes nothing. */
  lemma RepeatCreateOrDrop(d: Directory, verb: Verb, channel: string, people: set<string>, sender: string)
    requires verb in {Create, Drop}
    requires Run(d, verb, channel, people, sender, true).reply.Acknowledged?
    ensures var r := Run(d, verb, channel, people, sender, true);
      Run(r.after, verb, channel, people, sender, true)
        == Response(r.after, if verb == Create then AlreadyExists else NoRecord(channel))
  {
  }

  /** `add C A` then `add C B` gives the union of the old roster with A and B. */
  lemma AddThenAdd(d: Directory, channel: string, a: set<string>, b: set<string>, sender: string)
    requires channel in d
    ensures var r1 := Run(d, Add, channel, a, sender, true);
      Run(r1.after, Add, channel, b, sender, true).after == d[channel := d[channel] + a + b]
  {
    var r1 := Run(d, Add, channel, a, sender, true);
    assert r1.after[channel := r1.after[channel] + b] == d[channel := d[channel] + a + b];
  }

  /** `create C people` then `info C` shows exactly `people`. */
  lemma CreateThenInfo(d: Directory, channel: string, people: set<string>, sender: string, asker: string, botIn: bool)
    requires channel !in d
    ensures var r1 := Run(d, Create, channel, people, sender, true);
      Run(r1.after, Info, channel, {}, asker, botIn).reply == Members(channel, people)
  {
  }

  /** `leave` undoes `join` for a user who was not a member. */
  lemma JoinThenLeave(d: Directory, channel: string, sender: string)
    requires channel in d && sender !in d[channel]
    ensures var r1 := Run(d, Join, channel, {}, sender, true);
      Run(r1.after, Leave, channel, {}, sender, true).after == d
  {
    var r1 := Run(d, Join, channel, {}, sender, true);
    assert (d[channel] + {sender}) - {sender} == d[channel];
    assert d[channel := d[channel]] == d;
  }

  /** `create C` with nobody, `join C` and `leave C` by one user, then `info C`: an empty team. */
  lemma EmptyTeamScenario(d: Directory, channel: string, creator: string, user: string)
    requires channel !in d
    ensures var r1 := Run(d, Create, channel, {}, creator, true);
      var r2 := Run(r1.after, Join, channel, {}, user, true);
      var r3 := Run(r2.after, Leave, channel, {}, user, true);
      Run(r3.after, Info, channel, {}, user, true).reply == Members(channel, {})
  {
    var r1 := Run(d, Create, channel, {}, creator, true);
    JoinThenLeave(r1.after, channel, user);
  }

  // ---------------------------------------------------------------------------------------
  // Statistics

  /** Every user id that belongs to some roster. */
  function DistinctUsers(d: Directory): (users: set<string>)
    ensures forall k :: k in d ==> d[k] <= users
    ensures forall u :: u in users ==> exists k :: k in d && u in d[k]
  {
    set k, u | k in d && u in d[k] :: u
  }

  /** The distinct-user count is zero exactly when every roster is empty. */
  lemma NoUsersIffEmptyRosters(d: Directory)
    ensures |DistinctUsers(d)| == 0 <==> forall k :: k in d ==> d[k] == {}
  {
    var users := DistinctUsers(d);
    if |users| != 0 {
      var u :| u in users;
      var k :| k in d && u in d[k];
      assert d[k] != {};
    }
  }

  // ---------------------------------------------------------------------------------------
  // Reply texts

  const NotRecognizedText := "I didn't recognize that command."
  const AlreadyExistsText := "That team already exists."

  function NoRecordText(channel: string): string {
    "No team record for <#" + channel + ">"
  }

  function InviteText(botId: string, channel: string): string {
    "You must invite <@" + botId + "> to <#" + channel + "> before you can manage team records."
  }

  function AckText(channel: string, ack: Ack): string {
    "Team <#" + channel + "> " + (match ack case Created => "created." case Updated => "updated." case Deleted => "deleted.")
  }

  function NoTeamText(botId: string): string {
    "There is no team record for this channel.\nPM `help` to <@" + botId + "> for more information."
  }

  function StatsText(users: nat, teams: nat): string {
    Decimal(users) + " distinct users in " + Decimal(teams) + " teams"
  }

  function MembersPrefix(channel: string): string {
    "Team members for <#" + channel + ">:"
  }

  /** `(' <@{}>' * len(members)).format(*members)` for members in the given order. */
  function MemberList(order: seq<string>): string {
    if order == [] then [] else " <@" + order[0] + ">" + MemberList(order[1..])
  }

  /** `(' <#{}>' * len(keys)).format(*keys)` for keys in the given order. */
  function ChannelList(order: seq<string>): string {
    if order == [] then [] else " <#" + order[0] + ">" + ChannelList(order[1..])
  }

  /** `order` lists every element of `s` exactly once. */
  ghost predicate IsEnumeration(order: seq<string>, s: set<string>) {
    && (forall i, j :: 0 <= i < j < |order| ==> order[i] != order[j])
    && (forall x :: x in order <==> x in s)
  }

  /** An enumeration is as long as the set it enumerates. */
  lemma {:induction false} EnumerationLength(order: seq<string>, s: set<string>)
    requires IsEnumeration(order, s)
    ensures |order| == |s|
  {
    if order != [] {
      var x := order[0];
      assert IsEnumeration(order[1..], s - {x}) by {
        forall y ensures y in order[1..] <==> y in s - {x} {
          if y in order[1..] {
            var k :| 0 <= k < |order[1..]| && order[1..][k] == y;
            assert order[k + 1] == y;
          }
          if y in order && y != x {
            var k :| 0 <= k < |order| && order[k] == y;
            assert k != 0 && order[1..][k - 1] == y;
          }
        }
      }
      EnumerationLength(order[1..], s - {x});
    } else {
      assert forall y :: y !in s;
      assert s == {};
    }
  }

  /** Picks the elements of `s` one at a time, in an order the model leaves open. */
  method Enumerate(s: set<string>) returns (order: seq<string>)
    ensures IsEnumeration(order, s)
  {
    order := [];
    var rest := s;
    while rest != {}
      invariant rest <= s
      invariant forall x :: x in order <==> x in s && x !in rest
      invariant forall i, j :: 0 <= i < j < |order| ==> order[i] != order[j]
      decreases rest
    {
      var x :| x in rest;
      order := order + [x];
      rest := rest - {x};
    }
  }

  /** `text` is `prefix` followed by one ` <@u>` per member of `members`, in some order. */
  ghost predicate IsMemberListing(text: string, prefix: string, members: set<string>) {
    exists order :: IsEnumeration(order, members) && text == prefix + MemberList(order)
  }

  /** `text` is `Teams:` followed by one ` <#k>` per key, in some order. */
  ghost predicate IsTeamList(text: string, keys: set<string>) {
    exists order :: IsEnumeration(order, keys) && text == "Teams:" + ChannelList(order)
  }

  /** One line of `list-all`: `<#C>: ` and the members. */
  function ListingLine(entry: (string, seq<string>)): string {
    "<#" + entry.0 + ">: " + MemberList(entry.1)
  }

  /** The lines joined by newlines. */
  function Listing(entries: seq<(string, seq<string>)>): string {
    if entries == [] then []
    else if |entries| == 1 then ListingLine(entries[0])
    else Listing(entries[..|entries| - 1]) + "\n" + ListingLine(entries[|entries| - 1])
  }

  function EntryKeys(entries: seq<(string, seq<string>)>): seq<string> {
    seq(|entries|, i requires 0 <= i < |entries| => entries[i].0)
  }

  /** `entries` lists every roster once, each with an enumeration of its members. */
  ghost predicate IsDirectoryEnumeration(entries: seq<(string, seq<string>)>, d: Directory) {
    && IsEnumeration(EntryKeys(entries), d.Keys)
    && forall i :: 0 <= i < |entries| ==> entries[i].0 in d && IsEnumeration(entries[i].1, d[entries[i].0])
  }

  ghost predicate IsListing(text: string, d: Directory) {
    exists entries :: IsDirectoryEnumeration(entries, d) && text == Listing(entries)
  }

  lemma ExtendEntries(prev: seq<(string, seq<string>)>, entry: (string, seq<string>))
    ensures EntryKeys(prev + [entry]) == EntryKeys(prev) + [entry.0]
    ensures Listing(prev + [entry]) == if prev == [] then ListingLine(entry) else Listing(prev) + "\n" + ListingLine(entry)
  {
    assert (prev + [entry])[..|prev|] == prev;
  }

  /** `entries` lists, each with an enumeration of its roster, exactly the keys of `d` not in `rest`. */
  ghost predicate ListedExcept(entries: seq<(string, seq<string>)>, d: Directory, rest: set<string>) {
    && rest <= d.Keys
    && IsEnumeration(EntryKeys(entries), d.Keys - rest)
    && forall i :: 0 <= i < |entries| ==> entries[i].0 in d && IsEnumeration(entries[i].1, d[entries[i].0])
  }

  lemma ListedStep(entries: seq<(string, seq<string>)>, d: Directory, rest: set<string>, k: string, order: seq<string>)
    requires ListedExcept(entries, d, rest) && k in rest && IsEnumeration(order, d[k])
    ensures ListedExcept(entries + [(k, order)], d, rest - {k})
  {
    var next := entries + [(k, order)];
    ExtendEntries(entries, (k, order));
    var keys := EntryKeys(entries);
    assert k !in keys;
    assert IsEnumeration(keys + [k], d.Keys - (rest - {k})) by {
      forall i, j | 0 <= i < j < |keys + [k]| ensures (keys + [k])[i] != (keys + [k])[j] {
        if j == |keys| {
          assert (keys + [k])[i] == keys[i];
        }
      }
    }
    forall i | 0 <= i < |next| ensures next[i].0 in d && IsEnumeration(next[i].1, d[next[i].0]) {
      if i < |entries| {
        assert next[i] == entries[i];
      }
    }
  }

  /** The `list-all` text of the current version: one line per roster with its members. */
  method FormatListing(d: Directory) returns (text: string)
    ensures IsListing(text, d)
  {
    text := [];
    var first := true;
    var rest := d.Keys;
    ghost var entries: seq<(string, seq<string>)> := [];
    assert d.Keys - rest == {};
    while rest != {}
      invariant ListedExcept(entries, d, rest)
      invariant first <==> entries == []
      invariant text == Listing(entries)
      decreases rest
    {
      var k :| k in rest;
      var order := Enumerate(d[k]);
      var line := ListingLine((k, order));
      text := if first then line else text + "\n" + line;
      ListedStep(entries, d, rest, k, order);
      ExtendEntries(entries, (k, order));
      entries := entries + [(k, order)];
      first := false;
      rest := rest - {k};
    }
    assert d.Keys - rest == d.Keys;
    assert IsDirectoryEnumeration(entries, d);
  }

  /** Renders `reply` as the messages queued for channel `dest`; `help` is the variant's help text. */
  ghost predicate Renders(reply: Reply, dest: string, botId: string, help: string, msgs: seq<OutputMessage>) {
    match reply
    case HelpReply => msgs == [(dest, help)]
    case StatsReply(users, teams) => msgs == [(dest, StatsText(users, teams))]
    case FullListing(d) => |msgs| == 1 && msgs[0].0 == dest && IsListing(msgs[0].1, d)
    case TeamList(keys) => |msgs| == 1 && msgs[0].0 == dest && IsTeamList(msgs[0].1, keys)
    case NotRecognized => msgs == [(dest, NotRecognizedText), (dest, help)]
    case Members(channel, members) =>
      |msgs| == 1 && msgs[0].0 == dest && IsMemberListing(msgs[0].1, MembersPrefix(channel), members)
    case NoRecord(channel) => msgs == [(dest, NoRecordText(channel))]
    case Invite(channel) => msgs == [(dest, InviteText(botId, channel))]
    case AlreadyExists => msgs == [(dest, AlreadyExistsText)]
    case Acknowledged(channel, ack) => msgs == [(dest, AckText(channel, ack))]
    case PingTeam(members) => |msgs| == 1 && msgs[0].0 == dest && IsMemberListing(msgs[0].1, "^", members)
    case NoTeamNotice => msgs == [(dest, NoTeamText(botId))]
    case Silent => msgs == []
  }

  // ---------------------------------------------------------------------------------------
  // Member lists read back with the command grammar

  lemma {:induction false} MemberListAsMentions(order: seq<string>) returns (ms: seq<Mention>)
    requires forall i :: 0 <= i < |order| ==> IsUserToken(order[i])
    ensures WellFormedMentions(ms) && MentionsText(ms) == MemberList(order) && Users(ms) == order
  {
    if order == [] {
      ms := [];
    } else {
      var rest := MemberListAsMentions(order[1..]);
      var m := Mention(" ", order[0]);
      assert IsGap(m.gap);
      WellFormedCons(m, rest);
      ms := [m] + rest;
      assert m.gap + "<@" + m.user + ">" == " <@" + order[0] + ">";
    }
  }

  /** A member list of user ids is a valid `people` part of a command, naming the same ids. */
  lemma MemberListParses(order: seq<string>)
    requires forall i :: 0 <= i < |order| ==> IsUserToken(order[i])
    ensures ParseMentions(MemberList(order)) == Some(order)
  {
    var ms := MemberListAsMentions(order);
    ParseMentionsText(ms);
  }

  /** A listing of user ids names each member exactly once and nobody else. */
  lemma MemberListingReadsBack(text: string, prefix: string, members: set<string>)
    requires IsMemberListing(text, prefix, members)
    requires forall u :: u in members ==> IsUserToken(u)
    ensures |prefix| <= |text| && text[..|prefix|] == prefix
    ensures var r := ParseMentions(text[|prefix|..]);
      r.Some? && IsEnumeration(r.value, members) && |r.value| == |members|
  {
    var order :| IsEnumeration(order, members) && text == prefix + MemberList(order);
    assert text[|prefix|..] == MemberList(order);
    MemberListParses(order);
    EnumerationLength(order, members);
  }
}
