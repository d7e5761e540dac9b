/**
  The earlier interpreter of plugins/teambot.py. It shares the grammar and the verb semantics
  (`Roster.Run`) with the current one and differs in five ways: it never calls `sync()`, it
  recognises only the raw `<@id>` mention and stays silent in a channel without a roster,
  `list-all` lists the channel keys only, `stats` is not a keyword, and its HELP_TEXT leaves out
  `list-all`, `stats` and `help`. The lemmas at the end compare the two.
*/
module LegacyTeamBot {
  import opened Options
  import opened PyText
  import opened CommandGrammar
  import opened Roster
  import opened Events
  import TeamBot

  /** This version's HELP_TEXT, which lists the seven verbs only. */
  const HelpText :=
    "Here are the commands I understand:\n"
    + "```\n"
    + "info #channel                           - get team info about #channel\n"
    + "create #channel @person1 @person2...    - create a team for #channel and add @person1 and @person2\n"
    + "add #channel @person3 @person4...       - add @person3 and @person4 to the team for #channel\n"
    + "remove #channel @person1 @person2...    - remove @person1 and @person2 from the team for #channel\n"
    + "join #channel                           - add yourself to the team for #channel\n"
    + "leave #channel                          - remove yourself from the team for #channel\n"
    + "drop #channel                           - drop the team record for #channel```"

  /** What `handle_channel_message` answers: only to the raw mention, and only with a roster. */
  function ChannelReply(d: Directory, channel: string, text: string, sender: string, mention: string): (r: Reply)
    ensures r != Silent <==> Contains(text, mention) && channel in d
    ensures r != Silent ==> r.PingTeam? && forall u :: u in r.members <==> u in d[channel] && u != sender
  {
    if Contains(text, mention) && channel in d then PingTeam(d[channel] - {sender}) else Silent
  }

  /** What `handle_direct_message` does with the text of a direct message. */
  function DirectResponse(d: Directory, text: string, sender: string, inChannel: string -> bool): (r: Response)
    ensures !r.reply.Acknowledged? ==> r.after == d
  {
    StrippedResponse(d, Strip(IsUnicodeSpace, text), sender, inChannel)
  }

  function StrippedResponse(d: Directory, t: string, sender: string, inChannel: string -> bool): (r: Response)
    ensures !r.reply.Acknowledged? ==> r.after == d
    ensures r.reply.Acknowledged? ==>
      && ParseCommand(t).Some? && r.reply.channel == ParseCommand(t).value.channel && inChannel(r.reply.channel)
      && r.after - {r.reply.channel} == d - {r.reply.channel}
  {
    if t == "help" then Response(d, HelpReply)
    else if t == "list-all" then Response(d, TeamList(d.Keys))
    else
      match ParseCommand(t)
      case None => Response(d, NotRecognized)
      case Some(c) => Run(d, VerbOf(c.verb), c.channel, People(c), sender, inChannel(c.channel))
  }

  /** The state went from (d0, o0) to (d1, o1) by carrying out `r` towards `dest`, with `help`
      as the usage text. */
  ghost predicate Performs(d0: Directory, o0: seq<OutputMessage>, d1: Directory, o1: seq<OutputMessage>,
                           r: Response, dest: string, botId: string, help: string)
  {
    && d1 == r.after
    && |o0| <= |o1| && o1[..|o0|] == o0
    && Renders(r.reply, dest, botId, help, o1[|o0|..])
  }

  /** Queueing `msgs`, which render `r.reply`, performs `r`. */
  lemma Performed(d0: Directory, o0: seq<OutputMessage>, o1: seq<OutputMessage>,
                  r: Response, dest: string, botId: string, help: string, msgs: seq<OutputMessage>)
    requires o1 == o0 + msgs
    requires Renders(r.reply, dest, botId, help, msgs)
    ensures Performs(d0, o0, r.after, o1, r, dest, botId, help)
  {
    assert o1[..|o0|] == o0 && o1[|o0|..] == msgs;
  }

  class Interpreter {
    var directory: Directory
    var outputs: seq<OutputMessage>
    const myUserId: string
    const myMention: string
    /** The module's HELP_TEXT. */
    const helpText: string

    /** `setup(bot)`, with the shelf opened on storage that holds `stored`. */
    constructor (userId: string, stored: Directory)
      ensures directory == stored && outputs == []
      ensures myUserId == userId && myMention == "<@" + userId + ">" && helpText == HelpText
    {
      myUserId := userId;
      myMention := "<@" + userId + ">";
      helpText := HelpText;
      directory, outputs := stored, [];
      new;
      var keys := directory.Keys;
      while keys != {}
        invariant directory == stored && outputs == []
        decreases keys
      {
        var channel :| channel in keys;
        JoinChannel(channel);
        keys := keys - {channel};
      }
    }

    /** `join_channel`: bots cannot join channels, so this does nothing. */
    method JoinChannel(channel: string)
      ensures directory == old(directory) && outputs == old(outputs)
    {
    }

    method Send(channel: string, message: string)
      modifies this`outputs
      ensures outputs == old(outputs) + [(channel, message)]
    {
      outputs := outputs + [(channel, message)];
    }

    method SendHelpText(channel: string)
      modifies this`outputs
      ensures outputs == old(outputs) + [(channel, helpText)]
    {
      Send(channel, helpText);
    }

    method ProcessMessage(data: Event, inChannel: string -> bool) returns (status: Status)
      modifies this
      ensures match Route(data, myUserId)
        case ToChannel(c, u) =>
          if data.text.None? then status == Raised(MissingKey("text")) && unchanged(this)
          else
            && status == Handled
            && Performs(old(directory), old(outputs), directory, outputs,
                        Response(old(directory), ChannelReply(old(directory), c, data.text.value, u, myMention)),
                        c, myUserId, helpText)
        case ToDirect(c, u) =>
          if data.text.None? then status == Raised(MissingKey("text")) && unchanged(this)
          else
            && status == Handled
            && Performs(old(directory), old(outputs), directory, outputs,
                        DirectResponse(old(directory), data.text.value, u, inChannel), c, myUserId, helpText)
        case Crash(f) => status == Raised(f) && unchanged(this)
        case _ => status == Handled && unchanged(this)
    {
      if data.hasSubtype {
        return Handled;
      }
      if data.user.None? {
        return Raised(MissingKey("user"));
      }
      if data.user.value == myUserId {
        return Handled;
      }
      if data.channel.None? {
        return Raised(MissingKey("channel"));
      }
      var channelId := data.channel.value;
      if channelId == [] {
        return Raised(EmptyChannelId);
      }
      var channelTag := channelId[0];
      if channelTag == 'C' {
        status := HandleChannelMessage(channelId, data.text, data.user.value);
      } else if channelTag == 'D' {
        status := HandleDirectMessage(channelId, data.text, data.user.value, inChannel);
      } else {
        status := Handled;
      }
    }

    method HandleDirectMessage(dm: string, text: Option<string>, sender: string, inChannel: string -> bool)
      returns (status: Status)
      modifies this
      ensures text.None? ==> status == Raised(MissingKey("text")) && unchanged(this)
      ensures text.Some? ==>
        && status == Handled
        && Performs(old(directory), old(outputs), directory, outputs,
                    DirectResponse(old(directory), text.value, sender, inChannel), dm, myUserId, helpText)
    {
      if text.None? {
        return Raised(MissingKey("text"));
      }
      status := Handled;
      var t := Strip(IsUnicodeSpace, text.value);
      Answer(dm, t, sender, inChannel);
    }

    /** `handle_direct_message` once the text has been stripped. */
    method Answer(dm: string, t: string, sender: string, inChannel: string -> bool)
      modifies this
      ensures Performs(old(directory), old(outputs), directory, outputs,
                       StrippedResponse(old(directory), t, sender, inChannel), dm, myUserId, helpText)
    {
      ghost var d0, o0 := directory, outputs;
      ghost var r := StrippedResponse(d0, t, sender, inChannel);
      if t == "help" {
        assert r == Response(d0, HelpReply);
        SendHelpText(dm);
        assert outputs[|o0|..] == [(dm, helpText)];
      } else if t == "list-all" {
        assert r == Response(d0, TeamList(d0.Keys));
        var order := Enumerate(directory.Keys);
        var message := "Teams:" + ChannelList(order);
        Send(dm, message);
        assert outputs[|o0|..] == [(dm, message)];
      } else {
        var parsed := ParseCommand(t);
        if parsed.None? {
          assert r == Response(d0, NotRecognized);
          Send(dm, NotRecognizedText);
          SendHelpText(dm);
          assert outputs[|o0|..] == [(dm, NotRecognizedText), (dm, helpText)];
        } else {
          var c := parsed.value;
          assert r == Run(d0, VerbOf(c.verb), c.channel, People(c), sender, inChannel(c.channel));
          Execute(dm, c, sender, inChannel);
        }
      }
    }

    /** The part of `handle_direct_message` after a successful parse. */
    method Execute(dm: string, cmd: Command, sender: string, inChannel: string -> bool)
      modifies this
      ensures Performs(old(directory), old(outputs), directory, outputs,
                       Run(old(directory), VerbOf(cmd.verb), cmd.channel, People(cmd), sender, inChannel(cmd.channel)),
                       dm, myUserId, helpText)
    {
      ghost var d0, o0 := directory, outputs;
      ghost var r := Run(d0, VerbOf(cmd.verb), cmd.channel, People(cmd), sender, inChannel(cmd.channel));
      var channel := cmd.channel;
      var people := People(cmd);
      if cmd.verb == "info" {
        assert VerbOf(cmd.verb) == Info;
        InfoIgnoresPresence(d0, channel, people, sender, inChannel(channel));
        Inform(dm, channel, people, sender);
      } else if !inChannel(channel) {
        assert r == Response(d0, Invite(channel));
        Send(dm, InviteText(myUserId, channel));
        Performed(d0, o0, outputs, r, dm, myUserId, helpText, [(dm, InviteText(myUserId, channel))]);
      } else if cmd.verb == "create" {
        assert VerbOf(cmd.verb) == Create;
        Establish(dm, channel, people, sender);
      } else if cmd.verb in {"add", "join", "remove", "leave", "drop"} {
        if channel !in directory {
          assert VerbOf(cmd.verb) in {Add, Join, Remove, Leave, Drop};
          assert r == Response(d0, NoRecord(channel));
          Send(dm, NoRecordText(channel));
          Performed(d0, o0, outputs, r, dm, myUserId, helpText, [(dm, NoRecordText(channel))]);
        } else {
          Amend(dm, cmd.verb, channel, people, sender);
        }
      } else {
        assert VerbOf(cmd.verb) == Unknown;
        assert r == Response(d0, NotRecognized);
        Send(dm, NotRecognizedText);
        SendHelpText(dm);
        Performed(d0, o0, outputs, r, dm, myUserId, helpText, [(dm, NotRecognizedText), (dm, helpText)]);
      }
    }

    /** The `info` branch of `handle_direct_message`, which does not ask whether the bot is in
        the channel. */
    method Inform(dm: string, channel: string, people: set<string>, sender: string)
      modifies this
      ensures Performs(old(directory), old(outputs), directory, outputs,
                       Run(old(directory), Info, channel, people, sender, false), dm, myUserId, helpText)
    {
      ghost var d0, o0 := directory, outputs;
      ghost var r := Run(d0, Info, channel, people, sender, false);
      var message;
      if channel !in directory {
        message := NoRecordText(channel);
        assert r.reply == NoRecord(channel);
      } else {
        var order := Enumerate(directory[channel]);
        message := MembersPrefix(channel) + MemberList(order);
        assert r.reply == Members(channel, directory[channel]);
        assert IsMemberListing(message, MembersPrefix(channel), directory[channel]);
      }
      Send(dm, message);
      Performed(d0, o0, outputs, r, dm, myUserId, helpText, [(dm, message)]);
    }

    /** The `create` branch of `handle_direct_message`, once the bot is known to be in the channel. */
    method Establish(dm: string, channel: string, people: set<string>, sender: string)
      modifies this
      ensures Performs(old(directory), old(outputs), directory, outputs,
                       Run(old(directory), Create, channel, people, sender, true), dm, myUserId, helpText)
    {
      ghost var d0, o0 := directory, outputs;
      ghost var r := Run(d0, Create, channel, people, sender, true);
      if channel in directory {
        Send(dm, AlreadyExistsText);
        Performed(d0, o0, outputs, r, dm, myUserId, helpText, [(dm, AlreadyExistsText)]);
        return;
      }
      directory := directory[channel := people];
      JoinChannel(channel);
      Send(dm, AckText(channel, Created));
      Performed(d0, o0, outputs, r, dm, myUserId, helpText, [(dm, AckText(channel, Created))]);
    }

    /** The branches of `handle_direct_message` that change an existing roster. */
    method Amend(dm: string, verb: string, channel: string, people: set<string>, sender: string)
      requires verb in {"add", "join", "remove", "leave", "drop"} && channel in directory
      modifies this
      ensures Performs(old(directory), old(outputs), directory, outputs,
                       Run(old(directory), VerbOf(verb), channel, people, sender, true), dm, myUserId, helpText)
    {
      ghost var d0, o0 := directory, outputs;
      ghost var r := Run(d0, VerbOf(verb), channel, people, sender, true);
      var teamMembers := directory[channel];
      var ack := Updated;
      if verb == "add" {
        assert VerbOf(verb) == Add;
        directory := directory[channel := teamMembers + people];
      } else if verb == "join" {
        assert VerbOf(verb) == Join;
        directory := directory[channel := teamMembers + {sender}];
      } else if verb == "remove" {
        assert VerbOf(verb) == Remove;
        directory := directory[channel := teamMembers - people];
      } else if verb == "leave" {
        assert VerbOf(verb) == Leave;
        directory := directory[channel := teamMembers - {sender}];
      } else {
        assert VerbOf(verb) == Drop;
        directory := directory - {channel};
        ack := Deleted;
      }
      assert r == Response(directory, Acknowledged(channel, ack));
      var message := AckText(channel, ack);
      Send(dm, message);
      Performed(d0, o0, outputs, r, dm, myUserId, helpText, [(dm, message)]);
    }

    method HandleChannelMessage(channel: string, text: Option<string>, sender: string) returns (status: Status)
      modifies this
      ensures text.None? ==> status == Raised(MissingKey("text")) && unchanged(this)
      ensures text.Some? ==>
        && status == Handled
        && Performs(old(directory), old(outputs), directory, outputs,
                    Response(old(directory), ChannelReply(old(directory), channel, text.value, sender, myMention)),
                    channel, myUserId, helpText)
    {
      if text.None? {
        return Raised(MissingKey("text"));
      }
      status := Handled;
      ghost var o0 := outputs;
      if Contains(text.value, myMention) && channel in directory {
        var teamMembers := directory[channel] - {sender};
        var order := Enumerate(teamMembers);
        var message := "^" + MemberList(order);
        Send(channel, message);
        assert outputs[|o0|..] == [(channel, message)];
      } else {
        assert outputs[|o0|..] == [];
      }
    }
  }

  // ---------------------------------------------------------------------------------------
  // The two versions compared

  /** Whenever the earlier version answers a channel message, the current one gives the same
      answer; the current one also answers a mention without a roster, and a mention written
      only as `<@id|name>`. */
  lemma ChannelRepliesCompared(d: Directory, channel: string, text: string, sender: string, botId: string, botName: string)
    ensures var earlier := ChannelReply(d, channel, text, sender, "<@" + botId + ">");
      var current := TeamBot.ChannelReply(d, channel, text, sender, botId, botName);
      && (earlier != Silent ==> current == earlier)
      && (current.NoTeamNotice? ==> earlier == Silent)
      && (current.PingTeam? && earlier == Silent ==>
            !Contains(text, "<@" + botId + ">") && Contains(text, "<@" + botId + "|" + botName + ">"))
  {
  }

  /** The stripped text "stats" does not match the command pattern. */
  lemma StatsIsNotACommand()
    ensures ParseCommand("stats") == None
  {
    TakeWhileSplits(IsWordChar, "stats", []);
    assert "stats" + [] == "stats";
    assert TakeWhile(IsAsciiSpace, []) == ([], []);
  }

  /** `stats` is answered with statistics by the current version and with the
      unrecognised-command pair by the earlier one; neither changes the directory. */
  lemma StatsCompared(d: Directory, sender: string, inChannel: string -> bool)
    ensures TeamBot.StrippedResponse(d, "stats", sender, inChannel) == Response(d, StatsReply(|DistinctUsers(d)|, |d|))
    ensures StrippedResponse(d, "stats", sender, inChannel) == Response(d, NotRecognized)
  {
    StatsIsNotACommand();
  }

  /** `list-all` lists rosters with their members in the current version and channel keys
      only in the earlier one. */
  lemma ListAllCompared(d: Directory, sender: string, inChannel: string -> bool)
    ensures TeamBot.StrippedResponse(d, "list-all", sender, inChannel) == Response(d, FullListing(d))
    ensures StrippedResponse(d, "list-all", sender, inChannel) == Response(d, TeamList(d.Keys))
  {
  }

  /** Every other direct message, commands included, gets the same reply and new directory from
      both; `HelpReply` and `NotRecognized` are then rendered with each version's HELP_TEXT. */
  lemma CommandsCompared(d: Directory, t: string, sender: string, inChannel: string -> bool)
    requires t != "stats" && t != "list-all"
    ensures StrippedResponse(d, t, sender, inChannel) == TeamBot.StrippedResponse(d, t, sender, inChannel)
  {
  }

  /** The two usage texts differ: the current one also lists `list-all`, `stats` and `help`, so
      every reply that ends in HELP_TEXT reads differently in the two versions. */
  lemma HelpTextsDiffer()
    ensures |HelpText| < |TeamBot.HelpText|
    ensures TeamBot.HelpText != HelpText
  {
  }
}
