/**
  The roster command interpreter of teambot.py (the version the host loads). Its state is
  the shelf `directory`, the copy of it last committed by `sync()` (`durable`), and the
  `outputs` queue the host drains; `journal` records, in order, every commit and every queued
  reply, so that "committed before acknowledged" can be stated. The Slack membership query
  `in_channel` is the oracle `inChannel`.
*/
module TeamBot {
  import opened Options
  import opened PyText
  import opened CommandGrammar
  import opened Roster
  import opened Events

  /** HELP_TEXT: the usage text sent after `help` and after an unrecognised command. */
  const HelpText :=
    "Here are the commands I understand:\n"
    + "```\n"
    + "info #channel                           - get team info about #channel\n"
    + "create #channel @person1 @person2...    - create a team for #channel and add @person1 and @person2\n"
    + "add #channel @person3 @person4...       - add @person3 and @person4 to the team for #channel\n"
    + "remove #channel @person1 @person2...    - remove @person1 and @person2 from the team for #channel\n"
    + "join #channel                           - add yourself to the team for #channel\n"
    + "leave #channel                          - remove yourself from the team for #channel\n"
    + "drop #channel                           - drop the team record for #channel\n"
    + "list-all                                - list all registered teams\n"
    + "stats                                   - get slackbot team statistics\n"
    + "help                                    - this help```"

  /** A commit of the whole directory to storage, or a reply appended to `outputs`. */
  datatype Effect = Committed(snapshot: Directory) | Sent(message: OutputMessage)

  function SentAll(msgs: seq<OutputMessage>): seq<Effect> {
    if msgs == [] then [] else [Sent(msgs[0])] + SentAll(msgs[1..])
  }

  lemma SentAllOne(m: OutputMessage)
    ensures SentAll([m]) == [Sent(m)]
  {
  }

  /** The queue grew by exactly `m`. */
  lemma AppendedOne(o0: seq<OutputMessage>, o1: seq<OutputMessage>, m: OutputMessage)
    requires o1 == o0 + [m]
    ensures |o0| <= |o1| && o1[..|o0|] == o0 && o1[|o0|..] == [m]
    ensures SentAll(o1[|o0|..]) == [Sent(m)]
  {
    assert o1[|o0|..] == [m];
  }

  lemma SentAllTwo(m1: OutputMessage, m2: OutputMessage)
    ensures SentAll([m1, m2]) == [Sent(m1), Sent(m2)]
  {
    assert [m1, m2][1..] == [m2];
    assert SentAll([m1, m2]) == [Sent(m1)] + SentAll([m2]);
  }

  /** `mentions_me`: the raw `<@id>` token or the `<@id|name>` token occurs in the text. */
  function MentionsMe(text: string, botId: string, botName: string): (b: bool)
    ensures b <==> (exists i :: OccursAt(text, "<@" + botId + ">", i))
                   || (exists i :: OccursAt(text, "<@" + botId + "|" + botName + ">", i))
  {
    Contains(text, "<@" + botId + ">") || Contains(text, "<@" + botId + "|" + botName + ">")
  }

  /** What `handle_channel_message` answers. */
  function ChannelReply(d: Directory, channel: string, text: string, sender: string, botId: string, botName: string): (r: Reply)
    ensures r != Silent <==> MentionsMe(text, botId, botName)
    ensures r.PingTeam? <==> MentionsMe(text, botId, botName) && channel in d
    ensures r.NoTeamNotice? <==> MentionsMe(text, botId, botName) && channel !in d
    ensures r.PingTeam? ==> forall u :: u in r.members <==> u in d[channel] && u != sender
  {
    if MentionsMe(text, botId, botName) then
      if channel in d then PingTeam(d[channel] - {sender}) else NoTeamNotice
    else Silent
  }

  /** What `handle_direct_message` does with the text of a direct message. */
  function DirectResponse(d: Directory, text: string, sender: string, inChannel: string -> bool): (r: Response)
    ensures !r.reply.Acknowledged? ==> r.after == d
  {
    StrippedResponse(d, Strip(IsUnicodeSpace, text), sender, inChannel)
  }

  /** The same, once the text has been stripped. */
  function StrippedResponse(d: Directory, t: string, sender: string, inChannel: string -> bool): (r: Response)
    ensures !r.reply.Acknowledged? ==> r.after == d
    ensures r.reply.Acknowledged? ==>
      && ParseCommand(t).Some? && r.reply.channel == ParseCommand(t).value.channel && inChannel(r.reply.channel)
      && r.after - {r.reply.channel} == d - {r.reply.channel}
  {
    if t == "help" then Response(d, HelpReply)
    else if t == "stats" then Response(d, StatsReply(|DistinctUsers(d)|, |d|))
    else if t == "list-all" then Response(d, FullListing(d))
    else
      match ParseCommand(t)
      case None => Response(d, NotRecognized)
      case Some(c) => Run(d, VerbOf(c.verb), c.channel, People(c), sender, inChannel(c.channel))
  }

  /**
    The state went from (d0, o0, j0) to (d1, o1, j1) by carrying out `r` towards `dest`: the
    directory is `r.after`, the queue grew by the messages rendering `r.reply`, and the journal
    grew by a commit of the new directory, when the reply acknowledges a change, followed by
    those messages. `help` is the usage text the interpreter sends.
  */
  ghost predicate Performs(d0: Directory, o0: seq<OutputMessage>, j0: seq<Effect>,
                           d1: Directory, o1: seq<OutputMessage>, j1: seq<Effect>,
                           r: Response, dest: string, botId: string, help: string)
  {
    && d1 == r.after
    && |o0| <= |o1| && o1[..|o0|] == o0
    && Renders(r.reply, dest, botId, help, o1[|o0|..])
    && j1 == j0 + (if r.reply.Acknowledged? then [Committed(r.after)] else []) + SentAll(o1[|o0|..])
  }

  /** Queueing `msgs`, which render `r.reply`, after committing the directory when the reply
      acknowledges a change, performs `r`. */
  lemma Performed(d0: Directory, o0: seq<OutputMessage>, j0: seq<Effect>, o1: seq<OutputMessage>, j1: seq<Effect>,
                  r: Response, dest: string, botId: string, help: string, msgs: seq<OutputMessage>)
    requires o1 == o0 + msgs
    requires Renders(r.reply, dest, botId, help, msgs)
    requires j1 == j0 + (if r.reply.Acknowledged? then [Committed(r.after)] else []) + SentAll(msgs)
    ensures Performs(d0, o0, j0, r.after, o1, j1, r, dest, botId, help)
  {
    assert o1[..|o0|] == o0 && o1[|o0|..] == msgs;
  }

  /** In a performed response, an acknowledgement is queued right after the commit of the
      directory it acknowledges. */
  lemma AckFollowsCommit(d0: Directory, o0: seq<OutputMessage>, j0: seq<Effect>,
                         d1: Directory, o1: seq<OutputMessage>, j1: seq<Effect>,
                         r: Response, dest: string, botId: string, help: string)
    requires Performs(d0, o0, j0, d1, o1, j1, r, dest, botId, help)
    requires r.reply.Acknowledged?
    ensures j1 == j0 + [Committed(d1), Sent((dest, AckText(r.reply.channel, r.reply.ack)))]
  {
    assert o1[|o0|..] == [(dest, AckText(r.reply.channel, r.reply.ack))];
    SentAllOne((dest, AckText(r.reply.channel, r.reply.ack)));
  }

  /** The interpreter's mutable state: the shelf, its committed copy, the queue, the journal. */
  datatype Snapshot = Snapshot(directory: Directory, durable: Directory, outputs: seq<OutputMessage>, journal: seq<Effect>)

  class Interpreter {
    var directory: Directory
    var durable: Directory
    var outputs: seq<OutputMessage>
    ghost var journal: seq<Effect>
    const myUserId: string
    const myName: string
    /** The module's HELP_TEXT. */
    const helpText: string

    /** Between events the directory never differs from its committed copy. */
    ghost predicate Valid()
      reads this`durable, this`directory
    {
      durable == directory
    }

    /** `setup(bot)`, with the shelf opened on storage that holds `stored`. */
    constructor (userId: string, name: string, stored: Directory)
      ensures Valid()
      ensures directory == stored && outputs == [] && journal == []
      ensures myUserId == userId && myName == name && helpText == HelpText
    {
      myUserId, myName, helpText := userId, name, HelpText;
      directory, durable := stored, stored;
      outputs, journal := [], [];
    }

    method Send(channel: string, message: string)
      modifies this`outputs, this`journal
      ensures outputs == old(outputs) + [(channel, message)]
      ensures journal == old(journal) + [Sent((channel, message))]
    {
      outputs := outputs + [(channel, message)];
      journal := journal + [Sent((channel, message))];
    }

    method SendHelpText(channel: string)
      modifies this`outputs, this`journal
      ensures outputs == old(outputs) + [(channel, helpText)]
      ensures journal == old(journal) + [Sent((channel, helpText))]
    {
      Send(channel, helpText);
    }

    /** `directory.sync()`: commits the whole directory. */
    method Sync()
      modifies this`durable, this`journal
      ensures durable == directory
      ensures journal == old(journal) + [Committed(directory)]
    {
      durable := directory;
      journal := journal + [Committed(directory)];
    }

    /** The mutable part of the interpreter. */
    ghost function State(): Snapshot
      reads this
    {
      Snapshot(directory, durable, outputs, journal)
    }

    /** What `process_message` does with `data`: the interpreter went from `s0` to `s1`. */
    ghost predicate Processed(s0: Snapshot, s1: Snapshot, data: Event, inChannel: string -> bool, status: Status) {
      match Route(data, myUserId)
      case ToChannel(c, u) =>
        if data.text.None? then status == Raised(MissingKey("text")) && s1 == s0
        else
          && status == Handled
          && Performs(s0.directory, s0.outputs, s0.journal, s1.directory, s1.outputs, s1.journal,
                      Response(s0.directory, ChannelReply(s0.directory, c, data.text.value, u, myUserId, myName)),
                      c, myUserId, helpText)
      case ToDirect(c, u) =>
        if data.text.None? then status == Raised(MissingKey("text")) && s1 == s0
        else
          && status == Handled
          && Performs(s0.directory, s0.outputs, s0.journal, s1.directory, s1.outputs, s1.journal,
                      DirectResponse(s0.directory, data.text.value, u, inChannel), c, myUserId, helpText)
      case Crash(f) => status == Raised(f) && s1 == s0
      case _ => status == Handled && s1 == s0
    }

    method ProcessMessage(data: Event, inChannel: string -> bool) returns (status: Status)
      requires Valid()
      modifies this
      ensures Valid()
      ensures Processed(old(State()), State(), data, inChannel, status)
    {
      if data.hasSubtype {
        return Handled;
      }
      if data.user.None? {
        return Raised(MissingKey("user"));
      }
      if data.user.value == myUserId {
        return Handled;
      }
      if data.channel.None? {
        return Raised(MissingKey("channel"));
      }
      var channelId := data.channel.value;
      if channelId == [] {
        return Raised(EmptyChannelId);
      }
      var channelTag := channelId[0];
      if channelTag == 'C' {
        status := HandleChannelMessage(channelId, data.text, data.user.value);
      } else if channelTag == 'D' {
        status := HandleDirectMessage(channelId, data.text, data.user.value, inChannel);
      } else {
        status := Handled;
      }
    }

    method HandleDirectMessage(dm: string, text: Option<string>, sender: string, inChannel: string -> bool)
      returns (status: Status)
      requires Valid()
      modifies this
      ensures Valid()
      ensures text.None? ==> status == Raised(MissingKey("text")) && unchanged(this)
      ensures text.Some? ==>
        && status == Handled
        && Performs(old(directory), old(outputs), old(journal), directory, outputs, journal,
                    DirectResponse(old(directory), text.value, sender, inChannel), dm, myUserId, helpText)
    {
      if text.None? {
        return Raised(MissingKey("text"));
      }
      status := Handled;
      var t := Strip(IsUnicodeSpace, text.value);
      Answer(dm, t, sender, inChannel);
    }

    /** `handle_direct_message` once the text has been stripped. */
    method Answer(dm: string, t: string, sender: string, inChannel: string -> bool)
      requires Valid()
      modifies this
      ensures Valid()
      ensures Performs(old(directory), old(outputs), old(journal), directory, outputs, journal,
                       StrippedResponse(old(directory), t, sender, inChannel), dm, myUserId, helpText)
    {
      ghost var d0, o0, j0 := directory, outputs, journal;
      ghost var r := StrippedResponse(d0, t, sender, inChannel);
      if t == "help" {
        assert r == Response(d0, HelpReply);
        SendHelpText(dm);
        SentAllOne((dm, helpText));
        Performed(d0, o0, j0, outputs, journal, r, dm, myUserId, helpText, [(dm, helpText)]);
      } else if t == "stats" {
        assert r == Response(d0, StatsReply(|DistinctUsers(d0)|, |d0|));
        var userCount := |DistinctUsers(directory)|;
        var message := StatsText(userCount, |directory|);
        Send(dm, message);
        SentAllOne((dm, message));
        Performed(d0, o0, j0, outputs, journal, r, dm, myUserId, helpText, [(dm, message)]);
      } else if t == "list-all" {
        assert r == Response(d0, FullListing(d0));
        var listing := FormatListing(directory);
        Send(dm, listing);
        SentAllOne((dm, listing));
        Performed(d0, o0, j0, outputs, journal, r, dm, myUserId, helpText, [(dm, listing)]);
      } else {
        Interpret(dm, t, sender, inChannel);
      }
    }

    /** `handle_direct_message` on a text that is not one of the keywords: parse it as a command. */
    method Interpret(dm: string, t: string, sender: string, inChannel: string -> bool)
      requires Valid() && t != "help" && t != "stats" && t != "list-all"
      modifies this
      ensures Valid()
      ensures Performs(old(directory), old(outputs), old(journal), directory, outputs, journal,
                       StrippedResponse(old(directory), t, sender, inChannel), dm, myUserId, helpText)
    {
      ghost var d0, o0, j0 := directory, outputs, journal;
      ghost var r := StrippedResponse(d0, t, sender, inChannel);
      var parsed := ParseCommand(t);
      if parsed.None? {
        assert r == Response(d0, NotRecognized);
        Send(dm, NotRecognizedText);
        SendHelpText(dm);
        SentAllTwo((dm, NotRecognizedText), (dm, helpText));
        Performed(d0, o0, j0, outputs, journal, r, dm, myUserId, helpText, [(dm, NotRecognizedText), (dm, helpText)]);
      } else {
        var c := parsed.value;
        assert r == Run(d0, VerbOf(c.verb), c.channel, People(c), sender, inChannel(c.channel));
        Execute(dm, c, sender, inChannel);
      }
    }

    /** The part of `handle_direct_message` after a successful parse. */
    method Execute(dm: string, cmd: Command, sender: string, inChannel: string -> bool)
      requires Valid()
      modifies this
      ensures Valid()
      ensures Performs(old(directory), old(outputs), old(journal), directory, outputs, journal,
                       Run(old(directory), VerbOf(cmd.verb), cmd.channel, People(cmd), sender, inChannel(cmd.channel)),
                       dm, myUserId, helpText)
    {
      ghost var d0, o0, j0 := directory, outputs, journal;
      ghost var r := Run(d0, VerbOf(cmd.verb), cmd.channel, People(cmd), sender, inChannel(cmd.channel));
      var channel := cmd.channel;
      var people := People(cmd);
      if cmd.verb == "info" {
        assert VerbOf(cmd.verb) == Info;
        InfoIgnoresPresence(d0, channel, people, sender, inChannel(channel));
        Inform(dm, channel, people, sender);
      } else if !inChannel(channel) {
        assert r == Response(d0, Invite(channel));
        Send(dm, InviteText(myUserId, channel));
        SentAllOne((dm, InviteText(myUserId, channel)));
        Performed(d0, o0, j0, outputs, journal, r, dm, myUserId, helpText, [(dm, InviteText(myUserId, channel))]);
      } else if cmd.verb == "create" {
        assert VerbOf(cmd.verb) == Create;
        Establish(dm, channel, people, sender);
      } else if cmd.verb in {"add", "join", "remove", "leave", "drop"} {
        if channel !in directory {
          assert VerbOf(cmd.verb) in {Add, Join, Remove, Leave, Drop};
          assert r == Response(d0, NoRecord(channel));
          Send(dm, NoRecordText(channel));
          SentAllOne((dm, NoRecordText(channel)));
          Performed(d0, o0, j0, outputs, journal, r, dm, myUserId, helpText, [(dm, NoRecordText(channel))]);
        } else {
          Amend(dm, cmd.verb, channel, people, sender);
        }
      } else {
        assert VerbOf(cmd.verb) == Unknown;
        assert r == Response(d0, NotRecognized);
        Send(dm, NotRecognizedText);
        SendHelpText(dm);
        SentAllTwo((dm, NotRecognizedText), (dm, helpText));
        Performed(d0, o0, j0, outputs, journal, r, dm, myUserId, helpText, [(dm, NotRecognizedText), (dm, helpText)]);
      }
    }

    /** The `info` branch of `handle_direct_message`, which does not ask whether the bot is in
        the channel. */
    method Inform(dm: string, channel: string, people: set<string>, sender: string)
      requires Valid()
      modifies this
      ensures Valid()
      ensures Performs(old(directory), old(outputs), old(journal), directory, outputs, journal,
                       Run(old(directory), Info, channel, people, sender, false), dm, myUserId, helpText)
    {
      ghost var d0, o0, j0 := directory, outputs, journal;
      ghost var r := Run(d0, Info, channel, people, sender, false);
      var message;
      if channel !in directory {
        message := NoRecordText(channel);
        assert r.reply == NoRecord(channel);
      } else {
        var order := Enumerate(directory[channel]);
        message := MembersPrefix(channel) + MemberList(order);
        assert r.reply == Members(channel, directory[channel]);
        assert IsMemberListing(message, MembersPrefix(channel), directory[channel]);
      }
      Send(dm, message);
      SentAllOne((dm, message));
      Performed(d0, o0, j0, outputs, journal, r, dm, myUserId, helpText, [(dm, message)]);
    }

    /** The `create` branch of `handle_direct_message`, once the bot is known to be in the channel. */
    method Establish(dm: string, channel: string, people: set<string>, sender: string)
      requires Valid()
      modifies this
      ensures Valid()
      ensures Performs(old(directory), old(outputs), old(journal), directory, outputs, journal,
                       Run(old(directory), Create, channel, people, sender, true), dm, myUserId, helpText)
    {
      ghost var d0, o0, j0 := directory, outputs, journal;
      ghost var r := Run(d0, Create, channel, people, sender, true);
      if channel in directory {
        Send(dm, AlreadyExistsText);
        SentAllOne((dm, AlreadyExistsText));
        Performed(d0, o0, j0, outputs, journal, r, dm, myUserId, helpText, [(dm, AlreadyExistsText)]);
        return;
      }
      directory := directory[channel := people];
      Sync();
      Send(dm, AckText(channel, Created));
      SentAllOne((dm, AckText(channel, Created)));
      Performed(d0, o0, j0, outputs, journal, r, dm, myUserId, helpText, [(dm, AckText(channel, Created))]);
    }

    /** The branches of `handle_direct_message` that change an existing roster. */
    method Amend(dm: string, verb: string, channel: string, people: set<string>, sender: string)
      requires Valid()
      requires verb in {"add", "join", "remove", "leave", "drop"} && channel in directory
      modifies this
      ensures Valid()
      ensures Performs(old(directory), old(outputs), old(journal), directory, outputs, journal,
                       Run(old(directory), VerbOf(verb), channel, people, sender, true), dm, myUserId, helpText)
    {
      ghost var d0, o0, j0 := directory, outputs, journal;
      ghost var r := Run(d0, VerbOf(verb), channel, people, sender, true);
      var teamMembers := directory[channel];
      var ack := Updated;
      if verb == "add" {
        assert VerbOf(verb) == Add;
        directory := directory[channel := teamMembers + people];
      } else if verb == "join" {
        assert VerbOf(verb) == Join;
        directory := directory[channel := teamMembers + {sender}];
      } else if verb == "remove" {
        assert VerbOf(verb) == Remove;
        directory := directory[channel := teamMembers - people];
      } else if verb == "leave" {
        assert VerbOf(verb) == Leave;
        directory := directory[channel := teamMembers - {sender}];
      } else {
        assert VerbOf(verb) == Drop;
        directory := directory - {channel};
        ack := Deleted;
      }
      assert r == Response(directory, Acknowledged(channel, ack));
      Sync();
      var message := AckText(channel, ack);
      Send(dm, message);
      SentAllOne((dm, message));
      Performed(d0, o0, j0, outputs, journal, r, dm, myUserId, helpText, [(dm, message)]);
    }

    method HandleChannelMessage(channel: string, text: Option<string>, sender: string) returns (status: Status)
      requires Valid()
      modifies this
      ensures Valid()
      ensures text.None? ==> status == Raised(MissingKey("text")) && unchanged(this)
      ensures text.Some? ==>
        && status == Handled
        && Performs(old(directory), old(outputs), old(journal), directory, outputs, journal,
                    Response(old(directory), ChannelReply(old(directory), channel, text.value, sender, myUserId, myName)),
                    channel, myUserId, helpText)
    {
      if text.None? {
        return Raised(MissingKey("text"));
      }
      status := Handled;
      ghost var o0 := outputs;
      if MentionsMe(text.value, myUserId, myName) {
        if channel !in directory {
          Send(channel, NoTeamText(myUserId));
          AppendedOne(o0, outputs, (channel, NoTeamText(myUserId)));
          return;
        }
        var teamMembers := directory[channel] - {sender};
        var order := Enumerate(teamMembers);
        var message := "^" + MemberList(order);
        Send(channel, message);
        AppendedOne(o0, outputs, (channel, message));
      } else {
        assert outputs[|o0|..] == [];
      }
    }
  }
}
