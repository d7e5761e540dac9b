# teambot, modelled in Dafny

teambot is a Slack bot that keeps team rosters. A roster maps a channel id to a set of user ids. Users
manage the rosters by direct message, and mentioning the bot in a team channel pings everyone on that
channel's roster. This project models three parts of the system:

- **The current roster command interpreter** (teambot.py) is the class `TeamBot.Interpreter`. Its state
  is the shelf `directory`, the copy committed by the last `sync()` (`durable`), the `outputs` queue and a
  ghost `journal`. The journal records every commit and every queued reply in order, so that "committed
  before acknowledged" can be stated. Between events the directory equals its committed copy
  (`Interpreter.Valid`), and every handler preserves that.
  - `process_message`, `handle_direct_message`, `handle_channel_message`, `send` and `send_help_text` are
    methods.
  - Each method is proved against pure specification functions:
    - `Events.Route` for the filter and the `C`/`D` routing;
    - `TeamBot.StrippedResponse` for the keywords and the parse;
    - `Roster.Run` for the seven verbs;
    - `TeamBot.ChannelReply` for the mention reply.
  - `Roster.Renders` says which queued messages carry which reply.
  - The lemmas about `Roster.Run` state the verb semantics: set union and difference on one key, refusal
    without the bot in the channel, no key ever created by a verb other than `create`, and idempotence.
- **The earlier interpreter** (plugins/teambot.py) is `LegacyTeamBot.Interpreter`, modelled the same way.
  It never syncs, recognises only the raw `<@id>` mention, stays silent in a channel without a roster,
  lists only channel keys for `list-all`, has no `stats`, and its HELP_TEXT leaves out the `list-all`,
  `stats` and `help` lines. The lemmas at the end of legacy.dfy compare the two versions response by
  response: they agree on the abstract `Response`, but every reply ending in HELP_TEXT is rendered with
  each version's own text.
- **The deterministic parts of the plugin host** (rtmbot.py):
  - `flag_is_true`;
  - the `Plugin` wrapper, with handler dispatch and fault isolation (`do`) and the FIFO drain of the
    module's queue (`do_output`);
  - the `RtmBot` steps `input`, `output`, `autoping` and `load_plugins`.

  Python's `import teambot` gives one module object. Every plugin created by `load_plugins` wraps that
  same object, so `RtmBot.Bot` holds it as `teambot` and `Bot.Valid` says every plugin wraps it.

Python 2 behaviour that matters is written out in `PyText`:

- The command pattern is compiled without the UNICODE flag, so `\w` and `\s` are the ASCII classes.
- `unicode.strip()` removes the Unicode whitespace set. `str.strip().lower()` on a flag is ASCII.
- `in` on strings is a substring test.
- `encode('ascii', 'ignore')` drops the non-ASCII characters.
- `'{}'.format(n)` is decimal notation.

The regular expression `^(?P<cmd>\w+)\s+<#(?P<channel>C\w+)>(?P<people>(\s+<@U\w+>)*)$`, followed by
`findall('<@(\w+)>')`, becomes the longest-match parser `CommandGrammar.ParseCommand`. Each part of the
pattern is delimited by a character the previous part cannot contain, so backtracking cannot change the
outcome. Two round-trip lemmas prove that the parser accepts exactly the texts of the command shape. The
pattern's `$` would also match before a final newline, but the parser only ever sees stripped text, which
has none.

Two behaviours of the code worth noting:

- An unknown command word gets the invitation reply, not the "didn't recognize" pair, when the bot is not
  in the named channel. The membership check at teambot.py:84 runs before the verb is looked at
  (`Roster.UninvitedRejected`). With the bot in the channel it gets the "didn't recognize" pair
  (`Roster.UnknownNotRecognized`).
- In debug mode a handler's fault is not isolated: `Plugin.do` calls the handler outside any `try` at rtmbot.py:111 and lets the fault propagate. So a fault
  on one event does stop `input` for the plugins after it (`RtmBot.Isolate`, `RtmBot.Bot.Input`).

## Model

| member | source | states |
|---|---|---|
| PyText.StripParts | teambot.py:40 | `strip()` splits a text into leading whitespace, the stripped text and trailing whitespace; the stripped text neither starts nor ends with whitespace |
| PyText.Strip | teambot.py:40 | the definition of `strip()`: leading and then trailing characters of the class are removed; StripParts and StripUnique characterise it |
| PyText.StripUnique | teambot.py:40 | conversely, any such split is the one `strip()` finds, so the stripped text is uniquely determined |
| PyText.Lower | rtmbot.py:166 | `lower()` keeps the length and lower-cases each ASCII letter in place, leaving every other character alone |
| PyText.Contains | teambot.py:180-181 | `pat in text` holds exactly when `pat` occurs in `text` at some index |
| PyText.AsciiOnly | rtmbot.py:85 | the encoded text is pure ASCII and no longer than the original; AsciiOnlyChar and AsciiOnlyConcat give its value |
| PyText.AsciiOnlyChar | rtmbot.py:85 | an ASCII character is kept and any other character is dropped, not replaced; with AsciiOnlyConcat this fixes the encoding of every text |
| PyText.AsciiOnlyConcat | rtmbot.py:85 | encoding works piece by piece, so the kept characters keep their order |
| PyText.AsciiOnlyIdentity | rtmbot.py:85 | a text passes the encoding unchanged if and only if it is already ASCII |
| PyText.AsciiOnlyIdempotent | rtmbot.py:85 | encoding twice is encoding once |
| PyText.Decimal | teambot.py:45 | the formatted count is a non-empty string of digits without a leading zero, except for 0 itself |
| PyText.DecimalRoundTrip | teambot.py:45 | reading the formatted count back as a decimal numeral gives the count |
| CommandGrammar.ParseMention | teambot.py:57 | one accepted `\s+<@U\w+>` repetition is a whitespace gap and a `U\w+` id that, with the rest, rebuild the text |
| CommandGrammar.ParseHead | teambot.py:57 | an accepted `\w+\s+<#C\w+>` head is a command word, a whitespace gap and a `C\w+` channel that, with the rest, rebuild the text |
| CommandGrammar.ParseMentions | teambot.py:57-69 | the `(\s+<@U\w+>)*$` tail yields only `U\w+` user ids |
| CommandGrammar.People | teambot.py:67-69 | `set(re.findall(...))`: exactly the mentioned ids, duplicates collapsed, so never more people than mentions |
| CommandGrammar.ParseCommand | teambot.py:57-69 | an accepted text yields a `\w+` command word, a `C\w+` channel and `U\w+` user ids |
| CommandGrammar.ParseMentionsText | teambot.py:57-69 | every well-formed mention tail is accepted, and yields its user ids in order |
| CommandGrammar.ParseMentionsCons | teambot.py:57-69 | a gap and one `<@U...>` token in front of a text are read as that mention, which puts its id in front of the text's ids |
| CommandGrammar.ParseHeadText | teambot.py:57 | a well-formed head in front of a text is read as exactly its command word, gap, channel and rest |
| CommandGrammar.ParseMentionsStep | teambot.py:57-69 | an accepted non-empty tail starts with a whitespace gap and one `<@U...>` token, followed by an accepted rest |
| CommandGrammar.ParseMentionsSound | teambot.py:57-69 | every accepted tail is a well-formed mention tail whose ids are the ones returned |
| CommandGrammar.ParseCommandText | teambot.py:57-69 | every text of the shape `cmd gap <#C...> mentions` is accepted, with exactly those parts |
| CommandGrammar.ParseCommandSound | teambot.py:57-69 | every accepted text has that shape, with the returned command word, channel and ids |
| Events.Route | teambot.py:27-37 | an event is ignored exactly when it has a subtype or comes from the bot; otherwise a `C` channel goes to channel handling and a `D` channel to direct handling, with the sender; any other tag does nothing; a missing `user` or `channel` key, or an empty channel id, raises |
| Roster.VerbOf | teambot.py:73-141 | the `cmd == ...` dispatch: a recognised verb is the one whose command word was given |
| Roster.VerbWordRecognised | teambot.py:73-141 | each of the seven command words is recognised as its own verb, so words and verbs correspond one to one |
| Roster.Run | teambot.py:71-152 | a verb changes at most its target key; anything but an acknowledgement leaves the directory unchanged; an acknowledgement needs the bot in the channel and a known verb other than `info` |
| Roster.AckedMembership | teambot.py:103-139 | on an existing roster `add`, `join`, `remove` and `leave` are acknowledged, and the new members are old ∪ people, old ∪ {sender}, old \ people and old \ {sender} respectively |
| Roster.CreateAddsKey | teambot.py:94-101 | `create` on a new channel adds exactly that key, bound to the mentioned people (possibly none) |
| Roster.DropRemovesKey | teambot.py:141-148 | `drop` on an existing roster, with or without mentioned people, acknowledges the deletion and removes exactly that key, leaving every other roster as it was |
| Roster.UnknownNotRecognized | teambot.py:150-152 | with the bot in the channel, a command word outside the seven verbs gets the "didn't recognize" reply and HELP_TEXT, and changes nothing |
| Roster.CreateOnExisting | teambot.py:95-96 | `create` on a channel that has a roster is refused with "That team already exists." and changes nothing, whoever is mentioned |
| Roster.InfoIgnoresPresence | teambot.py:73-84 | `info` is answered before the membership check, so its response is the same whether or not the bot is in the channel, and it leaves the directory as it was |
| Roster.UninvitedRejected | teambot.py:83-152 | without the bot in the channel, every verb except `info` gets the invitation reply and changes nothing; unknown verbs are refused too |
| Roster.MissingRosterNeverCreated | teambot.py:71-148 | on a channel without a roster, no verb except `create` creates the key; `info`, and the other known verbs when the bot is in the channel, reply "No team record" |
| Roster.RepeatIsNoOp | teambot.py:103-139 | repeating `info`, `add`, `join`, `remove`, `leave` or an unknown verb gives the same directory and reply as doing it once |
| Roster.RepeatCreateOrDrop | teambot.py:94-148 | after a successful `create` or `drop`, repeating it is refused: `create` with "That team already exists." and `drop` with "No team record"; neither repeat changes anything |
| Roster.AddThenAdd | teambot.py:103-110 | `add C A` then `add C B` gives the old roster ∪ A ∪ B |
| Roster.CreateThenInfo | teambot.py:73-101 | `create C people` then `info C` shows exactly `people` |
| Roster.JoinThenLeave | teambot.py:112-139 | `leave` undoes `join` for a user who was not a member |
| Roster.EmptyTeamScenario | teambot.py:73-139 | `create C` with nobody, then `join C` and `leave C` by one user, then `info C` shows an empty team |
| Roster.DistinctUsers | teambot.py:44 | the users counted by `stats` are exactly those on some roster |
| Roster.NoUsersIffEmptyRosters | teambot.py:44-45 | the distinct-user count is zero if and only if every roster is empty |
| Roster.EnumerationLength | teambot.py:80 | a listing that names each member once names as many users as the roster has |
| Roster.Enumerate | teambot.py:80 | the members are listed each exactly once, in an order the model leaves open |
| Roster.ExtendEntries | teambot.py:47-54 | one more roster adds its channel to the listed keys and one more line, after a newline unless it is the first |
| Roster.FormatListing | teambot.py:47-54 | the `list-all` text has one line per roster, each naming the channel and every member once |
| Roster.MemberListAsMentions | teambot.py:80 | a member list of user ids is a well-formed mention tail with the same ids in the same order |
| Roster.MemberListParses | teambot.py:80 | the command grammar reads a member list back as the same ids in order |
| Roster.MemberListingReadsBack | teambot.py:77-81 | an `info` or ping text of user ids starts with its prefix, and its tail parses back to each member exactly once |
| Roster.NoRecordText | teambot.py:75 | the reply `No team record for <#C>` to a verb on a channel without a roster |
| Roster.InviteText | teambot.py:86-92 | the reply asking the user to invite `<@bot>` to `<#C>` before managing team records |
| Roster.AckText | teambot.py:101-148 | the acknowledgement `Team <#C> created.`, `updated.` or `deleted.` |
| Roster.NoTeamText | teambot.py:160-163 | the two-line notice that the channel has no team record, pointing to `help` by direct message to `<@bot>` |
| Roster.StatsText | teambot.py:45 | `<users> distinct users in <teams> teams`, both in decimal |
| Roster.MembersPrefix | teambot.py:79 | the `info` heading `Team members for <#C>:` |
| Roster.MemberList | teambot.py:80 | one ` <@u>` per user, in the given order; MemberListParses reads it back |
| Roster.ChannelList | plugins/teambot.py:43 | one ` <#C>` per channel, in the given order |
| Roster.ListingLine | teambot.py:50 | one `list-all` line: `<#C>: ` followed by the members |
| Roster.Listing | teambot.py:47-54 | the `list-all` lines joined by newlines; FormatListing builds it |
| Roster.Renders | teambot.py:41-170 | which queued messages carry each reply: the destination and text of every `send`, with some order of the members or keys where the source iterates a set or the shelf |
| TeamBot.MentionsMe | teambot.py:176-182 | holds exactly when the raw `<@id>` token, or the token that adds the bot's name after the id, occurs in the text |
| TeamBot.ChannelReply | teambot.py:154-170 | a reply is sent exactly when the bot is mentioned; it pings the roster when one exists and explains that there is none otherwise; the ping names every member except the sender |
| TeamBot.DirectResponse | teambot.py:39-69 | a direct message that is not acknowledged leaves the directory unchanged; the text is answered once stripped |
| TeamBot.StrippedResponse | teambot.py:41-69 | only a parsed command for a channel the bot is in can change the directory, and then only that channel's entry; `help`, `stats`, `list-all`, unparsed texts and refusals change nothing |
| TeamBot.Performed | teambot.py:184-188 | queueing the messages that render a reply, after committing when the reply acknowledges a change, carries the response out |
| TeamBot.AckFollowsCommit | teambot.py:94-148 | when a handled message changes a roster, the journal grows by the commit of the new directory and then, immediately, the acknowledgement |
| TeamBot.Interpreter.constructor | teambot.py:18-25 | `setup` records the bot's id and name; the directory is the stored shelf and the queue is empty |
| TeamBot.Interpreter.Send | teambot.py:184-185 | `send` appends exactly one message to the end of the queue |
| TeamBot.HelpText | teambot.py:192-204 | HELP_TEXT of this version, listing all ten commands including `list-all`, `stats` and `help` |
| TeamBot.Interpreter.SendHelpText | teambot.py:187-188 | `send_help_text` appends exactly HELP_TEXT to the given channel |
| TeamBot.Interpreter.Sync | teambot.py:99 | `sync()` commits the whole current directory |
| TeamBot.Interpreter.ProcessMessage | teambot.py:27-37 | the interpreter stays consistent, and the event is handled as `Events.Route` directs: ignored events, other tags and faults leave every part of the state as it was; channel and direct messages are carried out as `ChannelReply` and `DirectResponse` decide |
| TeamBot.Interpreter.HandleDirectMessage | teambot.py:39-152 | a message without text raises and changes nothing; otherwise the stripped text is answered as `DirectResponse` decides |
| TeamBot.Interpreter.Answer | teambot.py:40-61 | `help`, `stats` and `list-all` get their reply and change nothing; any other text is parsed and carried out |
| TeamBot.Interpreter.Interpret | teambot.py:56-69 | a text that fails the pattern gets exactly "I didn't recognize that command." and then HELP_TEXT, and nothing changes; a parsed command is run |
| TeamBot.Interpreter.Execute | teambot.py:71-152 | a parsed command has exactly the effect `Roster.Run` gives it, with `in_channel` consulted for every verb but `info` |
| TeamBot.Interpreter.Inform | teambot.py:73-81 | `info` lists every member once, or replies "No team record", and changes nothing; it does not ask whether the bot is in the channel |
| TeamBot.Interpreter.Establish | teambot.py:94-101 | `create` adds the key, commits, then acknowledges; on an existing key it only replies "That team already exists." |
| TeamBot.Interpreter.Amend | teambot.py:103-148 | `add`, `join`, `remove`, `leave` and `drop` on an existing roster apply their set operation to that key only, commit, then acknowledge |
| TeamBot.Interpreter.HandleChannelMessage | teambot.py:154-170 | a message without text raises and changes nothing; otherwise the reply `ChannelReply` decides is queued on the channel and the directory is unchanged |
| LegacyTeamBot.ChannelReply | plugins/teambot.py:138-146 | a reply is sent exactly when the raw `<@id>` mention occurs and the channel has a roster; it names every member except the sender |
| LegacyTeamBot.DirectResponse | plugins/teambot.py:37-58 | a direct message that is not acknowledged leaves the directory unchanged; the text is answered once stripped |
| LegacyTeamBot.StrippedResponse | plugins/teambot.py:39-58 | only a parsed command for a channel the bot is in can change the directory, and then only that channel's entry; `help`, `list-all`, unparsed texts and refusals change nothing |
| LegacyTeamBot.Performed | plugins/teambot.py:155-156 | queueing the messages that render a reply carries the response out |
| LegacyTeamBot.Interpreter.constructor | plugins/teambot.py:13-23 | `setup` records the bot's id and its `<@id>` mention; `join_channel` on every stored key changes nothing |
| LegacyTeamBot.Interpreter.Send | plugins/teambot.py:155-156 | `send` appends exactly one message to the end of the queue |
| LegacyTeamBot.HelpText | plugins/teambot.py:161-170 | HELP_TEXT of the earlier version, listing only the seven roster commands |
| LegacyTeamBot.Interpreter.JoinChannel | plugins/teambot.py:152-153 | `join_channel` does nothing: it has no `modifies` clause, and its contract states that the directory and the output queue are unchanged |
| LegacyTeamBot.Interpreter.SendHelpText | plugins/teambot.py:158-159 | `send_help_text` appends exactly this version's HELP_TEXT |
| LegacyTeamBot.Interpreter.ProcessMessage | plugins/teambot.py:25-35 | the same filter and routing as the current version; ignored events, other tags and faults change nothing |
| LegacyTeamBot.Interpreter.HandleDirectMessage | plugins/teambot.py:37-136 | a message without text raises and changes nothing; otherwise the stripped text is answered as this version's `DirectResponse` decides |
| LegacyTeamBot.Interpreter.Answer | plugins/teambot.py:38-50 | `help` and `list-all` get their reply; a text that fails the pattern gets the unrecognised-command pair; a parsed command is run |
| LegacyTeamBot.Interpreter.Execute | plugins/teambot.py:60-136 | a parsed command has exactly the effect `Roster.Run` gives it |
| LegacyTeamBot.Interpreter.Inform | plugins/teambot.py:62-70 | `info` lists every member once, or replies "No team record", and changes nothing; it does not ask whether the bot is in the channel |
| LegacyTeamBot.Interpreter.Establish | plugins/teambot.py:83-90 | `create` adds the key, calls the no-op `join_channel`, and acknowledges; on an existing key it only replies "That team already exists." |
| LegacyTeamBot.Interpreter.Amend | plugins/teambot.py:92-132 | the five changing verbs apply their set operation to the target key only and acknowledge |
| LegacyTeamBot.Interpreter.HandleChannelMessage | plugins/teambot.py:138-146 | a message without text raises; otherwise the reply `ChannelReply` decides is queued and the directory is unchanged |
| LegacyTeamBot.ChannelRepliesCompared | plugins/teambot.py:138-146 | whenever the earlier version answers a mention, the current one gives the same answer; the current one also answers a mention without a roster, and a mention written only in the form with the bot's name |
| LegacyTeamBot.StatsIsNotACommand | plugins/teambot.py:46 | the text `stats` does not match the command pattern |
| LegacyTeamBot.StatsCompared | plugins/teambot.py:39-50 | `stats` gets statistics from the current version and the unrecognised-command pair from the earlier one, and neither changes the directory |
| LegacyTeamBot.ListAllCompared | plugins/teambot.py:41-43 | `list-all` lists rosters with their members in the current version and only the channel keys in the earlier one |
| LegacyTeamBot.CommandsCompared | plugins/teambot.py:37-136 | every other direct message, commands included, gets the same reply and new directory (`Response`) from both versions; `HelpReply` and `NotRecognized` are then rendered with each version's own HELP_TEXT |
| LegacyTeamBot.HelpTextsDiffer | plugins/teambot.py:161-170 | this version's HELP_TEXT is shorter than the current one, which adds the `list-all`, `stats` and `help` lines (teambot.py:192-204), so the two differ |
| RtmBot.FlagIsTrue | rtmbot.py:164-167 | the definition of `flag_is_true`: stripped of ASCII whitespace and lower-cased, the flag is `true` or `1`; FlagTrueForms and FlagTrueShape characterise it |
| RtmBot.FlagTrueForms | rtmbot.py:164-167 | any capitalisation of `true`, or `1`, with whitespace around it, is a true flag |
| RtmBot.FlagTrueShape | rtmbot.py:164-167 | every true flag is such a spelling with whitespace around it, so the two lemmas characterise `flag_is_true` exactly |
| RtmBot.Queue | rtmbot.py:79-81 | the host reads each queued reply of the module as a channel and a present text, in queue order |
| RtmBot.Sendable | rtmbot.py:80-86 | one queue entry is sent, ASCII-encoded, exactly when its channel is known and its text present |
| RtmBot.Deliverable | rtmbot.py:79-86 | what `output` sends is no longer than the queue, goes only to known channels, and is pure ASCII |
| RtmBot.DeliverableStep | rtmbot.py:80-86 | one more queue entry adds its encoded text when its channel is known and its text present, and nothing otherwise |
| RtmBot.DeliverableConcat | rtmbot.py:79-87 | filtering works entry by entry, so the sends keep queue order |
| RtmBot.DeliverableKeepsAll | rtmbot.py:80-86 | replies for known channels with ASCII texts are all sent, unchanged and in order |
| RtmBot.DeliverableDropsRest | rtmbot.py:80-81 | entries for unknown channels and entries without text are never sent |
| RtmBot.Paced | rtmbot.py:82-87 | the sends of one batch with a pause before every send but the first; PacedShape gives its shape |
| RtmBot.PacedShape | rtmbot.py:78-87 | sends alternate with pauses: exactly one pause between consecutive sends, none before the first or after the last |
| RtmBot.PacedStep | rtmbot.py:82-87 | one more send adds a pause before it unless it is the first |
| RtmBot.Isolate | rtmbot.py:102-117 | `do` never raises outside debug mode; in debug mode it raises exactly the handler's fault; a `catch_all` fault never escapes, so it takes no part |
| RtmBot.PingsApart | rtmbot.py:62-67 | any two recorded heartbeats are more than three seconds apart for each heartbeat between them |
| RtmBot.Plugin.constructor | rtmbot.py:93-100 | the plugin wraps the given module under its name `teambot` |
| RtmBot.Plugin.Do | rtmbot.py:102-117 | `process_message` runs exactly when the handler name is `process_message`, and the module changes as `Processed` says; any other name leaves it unchanged; the result is the isolated status |
| RtmBot.Plugin.DoOutput | rtmbot.py:119-130 | returns every queued reply, oldest first, and leaves the module's queue empty |
| RtmBot.Bot.constructor | rtmbot.py:41-45 | a new bot has `last_ping` 0, no plugins and no actions |
| RtmBot.Bot.LoadPlugins | rtmbot.py:89-90 | appends one new plugin wrapping the `teambot` module and keeps the earlier ones |
| RtmBot.Bot.Autoping | rtmbot.py:62-67 | pings, and sets `last_ping` to `now`, if and only if `now > last_ping + 3`; otherwise nothing changes |
| RtmBot.Bot.Input | rtmbot.py:69-74 | an event without a type reaches no plugin; otherwise `process_<type>` runs on the plugins in load order, and the module goes through one recorded state per plugin; only a fault let through in debug mode stops the dispatch early; outside debug mode `input` never raises and reaches every plugin |
| RtmBot.Bot.Output | rtmbot.py:76-87 | the module's queue is drained, and its deliverable replies are sent once, oldest first, paced; with no plugins nothing happens |
| RtmBot.Bot.Relay | rtmbot.py:77-79 | one plugin's turn takes the module's whole queue and sends its deliverable part, paced |
| RtmBot.Bot.Deliver | rtmbot.py:78-87 | the sends of one batch are exactly its deliverable entries, in order, with one pause between consecutive sends |

## Left out

- The Slack connection is not modelled: `connect`, the endless `start` loop, `rtm_read`, `server.ping()` and `channel.send_message()`. Pings, the 0.1 s pauses and sends are recorded as `RtmBot.Action`s instead.
- `server.channels.find` is the set of channel ids the server knows (`RtmBot.Bot.channels`).
- The `in_channel` API call (teambot.py:172-174, plugins/teambot.py:148-150) and its JSON decoding are the oracle `inChannel`.
- `shelve`, `atexit` and the on-disk format are not modelled. The shelf is an in-memory map, and `sync()` copies it to `durable` and records a commit in the journal.
- `time.time()` is the parameter `now` of `Autoping`, and `time.sleep` is the `Pause` action.
- `main_loop`, `invoke`, `parse_args`, YAML and environment configuration, `daemon.DaemonContext`, logging and `dbg` are process start-up and I/O.
- The reflective dispatch in `Plugin.do` (`dir` and `eval`) becomes a comparison with the one handler the module defines, `process_message`. The module defines no `catch_all`, so that branch is not exercised. Its faults are always caught, so `RtmBot.Isolate` depends only on the handler's outcome.
- RtmBot.Plugin.DoOutput: the branch that installs an empty `outputs` list when the module has none is not modelled. The wrapped module always defines `outputs`.
- RtmBot.Plugin.constructor: does not call `setup`. rtmbot.py:100 calls `setup(bot, config)` with two arguments, but teambot.py:18 takes one, so in Python the constructor would raise `TypeError`. The model instead treats `setup` as having run once, in `TeamBot.Interpreter.constructor`, with the bot's id and name. Running it again for another plugin would only reassign the same identity.
- TeamBot.Interpreter.constructor: the bot's id and name are parameters, not read from the login data of the Slack client.
- Roster.Enumerate: the iteration order of Python sets and shelves is left open. Every listing reply is specified as some order naming each element exactly once, not a particular order.
- Non-ASCII ids are not modelled: the model assumes the transport delivers ASCII channel and user ids. On other ids, Python 2 raises `UnicodeEncodeError` in two places. One is `str(channel_id)` on the raw event field, before any pattern check (teambot.py:159 and 166, plugins/teambot.py:141-142). The other is `str.format` of a roster's user ids (teambot.py:50, 80 and 169, plugins/teambot.py:69 and 145). Outside debug mode `Plugin.do` swallows the error and the reply is lost.
- The in-place `.add`/`.discard` on the set read from the shelf is modelled as building the new set. A shelf without write-back hands out a copy, so no other value is aliased.
- Unicode normalisation and encodings other than the ASCII filter are not modelled. A text is a sequence of code points.
