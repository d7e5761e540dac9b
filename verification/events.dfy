/**
  Inbound events and the filter and routing step that both interpreter variants share
  (`process_message`). An event is the decoded JSON object the transport delivers; the model
  keeps the keys the bot reads. Reading an absent key or the first character of an empty
  channel id raises in the source; here that is a `Raised` status.
*/
module Events {
  import opened Options

  datatype Event = Event(
    kind: Option<string>,     // "type"
    hasSubtype: bool,         // whether "subtype" is present, whatever its value
    user: Option<string>,     // "user"
    channel: Option<string>,  // "channel"
    text: Option<string>)     // "text"

  datatype Fault = MissingKey(key: string) | EmptyChannelId

  /** How a handler call ended: normally, or with an exception. */
  datatype Status = Handled | Raised(fault: Fault)

  /** Where `process_message` sends an event. */
  datatype Routing =
    | Ignored                                   // a subtype, or the bot's own message
    | ToChannel(channel: string, sender: string) // channel id tagged 'C'
    | ToDirect(channel: string, sender: string)  // channel id tagged 'D'
    | Unrouted                                   // any other tag
    | Crash(fault: Fault)

  function Route(e: Event, botId: string): (r: Routing)
    ensures r.Ignored? <==> e.hasSubtype || e.user == Some(botId)
    ensures r.ToChannel? ==> e.channel == Some(r.channel) && |r.channel| > 0 && r.channel[0] == 'C'
    ensures r.ToDirect? ==> e.channel == Some(r.channel) && |r.channel| > 0 && r.channel[0] == 'D'
    ensures r.ToChannel? || r.ToDirect? ==> e.user == Some(r.sender) && r.sender != botId
    ensures r.Unrouted? ==> e.channel.Some? && |e.channel.value| > 0
                            && e.channel.value[0] != 'C' && e.channel.value[0] != 'D'
    ensures r.Crash? ==> !e.hasSubtype && (e.user.None? || e.channel.None? || e.channel == Some([]))
    ensures !e.hasSubtype && e.user.None? ==> r == Crash(MissingKey("user"))
    ensures !e.hasSubtype && e.user.Some? && e.user.value != botId && e.channel.None?
            ==> r == Crash(MissingKey("channel"))
    ensures !e.hasSubtype && e.user.Some? && e.user.value != botId && e.channel == Some([])
            ==> r == Crash(EmptyChannelId)
  {
    if e.hasSubtype then Ignored
    else
      match e.user
      case None => Crash(MissingKey("user"))
      case Some(u) =>
        if u == botId then Ignored
        else
          match e.channel
          case None => Crash(MissingKey("channel"))
          case Some(c) =>
            if c == [] then Crash(EmptyChannelId)
            else if c[0] == 'C' then ToChannel(c, u)
            else if c[0] == 'D' then ToDirect(c, u)
            else Unrouted
  }
}
