/**
  The deterministic parts of the plugin host in rtmbot.py: parsing of boolean configuration
  flags, the plugin wrapper (handler dispatch with fault isolation, draining of the module's
  `outputs` queue) and the bot's input, output and heartbeat steps. The socket, the clock and
  the Slack channel lookup are parameters: the current time is `now`, the channels the server
  knows are `channels`, and what the bot would do on the socket is recorded as a sequence of
  `Action`s.
*/
module RtmBot {
  import opened Options
  import opened PyText
  import opened Events
  import opened Roster
  import TeamBot

  // ---------------------------------------------------------------------------------------
  // Configuration flags

  /** `flag_is_true`: the value, stripped of ASCII whitespace and lower-cased, is `true` or `1`. */
  predicate FlagIsTrue(flag: string) {
    var f := Lower(Strip(IsAsciiSpace, flag));
    f == "true" || f == "1"
  }

  /** Any spelling of `true` or `1`, with any whitespace around it, is a true flag. */
  lemma FlagTrueForms(pre: string, core: string, post: string)
    requires All(IsAsciiSpace, pre) && All(IsAsciiSpace, post)
    requires Lower(core) == "true" || core == "1"
    ensures FlagIsTrue(pre + core + post)
  {
    assert !IsAsciiSpace(Lower(core)[0]) && !IsAsciiSpace(Lower(core)[|core| - 1]);
    StripUnique(IsAsciiSpace, pre, core, post);
  }

  /** A true flag is a spelling of `true` or `1` with whitespace around it, and nothing else. */
  lemma FlagTrueShape(flag: string) returns (pre: string, core: string, post: string)
    requires FlagIsTrue(flag)
    ensures flag == pre + core + post
    ensures All(IsAsciiSpace, pre) && All(IsAsciiSpace, post)
    ensures Lower(core) == "true" || core == "1"
  {
    pre, post := StripParts(IsAsciiSpace, flag);
    core := Strip(IsAsciiSpace, flag);
    if Lower(core) == "1" {
      assert LowerChar(core[0]) == '1';
      assert core == "1";
    }
  }

  // ---------------------------------------------------------------------------------------
  // Delivery of queued replies

  /** What the bot does on the socket: a heartbeat ping, a 0.1 s pause, or a sent message. */
  datatype Action = Ping(at: int) | Pause | Transmit(channel: string, text: string)

  /** An entry of a module's queue as the host reads it: a channel id and a text that may be None. */
  type Queued = (string, Option<string>)

  /** The queue of an interpreter module, whose texts are always present. */
  function Queue(msgs: seq<OutputMessage>): (q: seq<Queued>)
    ensures |q| == |msgs|
    ensures forall i :: 0 <= i < |msgs| ==> q[i] == (msgs[i].0, Some(msgs[i].1))
  {
    if msgs == [] then [] else Queue(msgs[..|msgs| - 1]) + [(msgs[|msgs| - 1].0, Some(msgs[|msgs| - 1].1))]
  }

  /** The entry `q` as sent: kept when its channel is known and its text present, with the text
      encoded to ASCII ignoring what does not fit. */
  function Sendable(q: Queued, known: set<string>): seq<OutputMessage> {
    if q.0 in known && q.1.Some? then [(q.0, AsciiOnly(q.1.value))] else []
  }

  /** The entries of `batch` that `output` sends, in queue order. */
  function Deliverable(batch: seq<Queued>, known: set<string>): (r: seq<OutputMessage>)
    ensures |r| <= |batch|
    ensures forall i :: 0 <= i < |r| ==> r[i].0 in known && All(IsAscii, r[i].1)
  {
    if batch == [] then []
    else Deliverable(batch[..|batch| - 1], known) + Sendable(batch[|batch| - 1], known)
  }

  /** One more entry of the batch adds what that entry sends. */
  lemma DeliverableStep(batch: seq<Queued>, k: nat, known: set<string>)
    requires k < |batch|
    ensures Deliverable(batch[..k + 1], known)
         == if batch[k].0 in known && batch[k].1.Some?
            then Deliverable(batch[..k], known) + [(batch[k].0, AsciiOnly(batch[k].1.value))]
            else Deliverable(batch[..k], known)
  {
    assert batch[..k + 1][..k] == batch[..k];
  }

  lemma {:induction false} DeliverableConcat(a: seq<Queued>, b: seq<Queued>, known: set<string>)
    ensures Deliverable(a + b, known) == Deliverable(a, known) + Deliverable(b, known)
    decreases |b|
  {
    if b == [] {
      assert a + b == a;
    } else {
      assert (a + b)[..|a + b| - 1] == a + b[..|b| - 1];
      DeliverableConcat(a, b[..|b| - 1], known);
    }
  }

  /** Entries for known channels with ASCII texts are sent unchanged and in order. */
  lemma {:induction false} DeliverableKeepsAll(msgs: seq<OutputMessage>, known: set<string>)
    requires forall i :: 0 <= i < |msgs| ==> msgs[i].0 in known && All(IsAscii, msgs[i].1)
    ensures Deliverable(Queue(msgs), known) == msgs
    decreases |msgs|
  {
    if msgs != [] {
      var init := msgs[..|msgs| - 1];
      var last := msgs[|msgs| - 1];
      assert Queue(msgs)[..|msgs| - 1] == Queue(init);
      DeliverableKeepsAll(init, known);
      AsciiOnlyIdentity(last.1);
      assert init + [last] == msgs;
    }
  }

  /** Entries for unknown channels and entries without text are never sent. */
  lemma {:induction false} DeliverableDropsRest(batch: seq<Queued>, known: set<string>)
    requires forall i :: 0 <= i < |batch| ==> batch[i].0 !in known || batch[i].1.None?
    ensures Deliverable(batch, known) == []
    decreases |batch|
  {
    if batch != [] {
      DeliverableDropsRest(batch[..|batch| - 1], known);
    }
  }

  /** The sends of one plugin's batch, with one pause between consecutive sends. */
  function Paced(msgs: seq<OutputMessage>): seq<Action> {
    if msgs == [] then []
    else if |msgs| == 1 then [Transmit(msgs[0].0, msgs[0].1)]
    else Paced(msgs[..|msgs| - 1]) + [Pause, Transmit(msgs[|msgs| - 1].0, msgs[|msgs| - 1].1)]
  }

  /** Sends sit at the even positions, in order, and pauses at the odd ones: exactly one pause
      between two consecutive sends, none before the first or after the last. */
  lemma {:induction false} PacedShape(msgs: seq<OutputMessage>)
    ensures |Paced(msgs)| == if msgs == [] then 0 else 2 * |msgs| - 1
    ensures forall i :: 0 <= i < |Paced(msgs)| ==>
      Paced(msgs)[i] == if i % 2 == 0 then Transmit(msgs[i / 2].0, msgs[i / 2].1) else Pause
    decreases |msgs|
  {
    if |msgs| > 1 {
      var init := msgs[..|msgs| - 1];
      PacedShape(init);
      forall i | 0 <= i < |Paced(msgs)|
        ensures Paced(msgs)[i] == if i % 2 == 0 then Transmit(msgs[i / 2].0, msgs[i / 2].1) else Pause
      {
        if i < |Paced(init)| {
          assert Paced(msgs)[i] == Paced(init)[i];
          assert i / 2 < |init| && init[i / 2] == msgs[i / 2];
        }
      }
    }
  }

  /** What one more send adds after the sends so far: a pause first unless it is the first. */
  lemma PacedStep(before: seq<Action>, msgs: seq<OutputMessage>, m: OutputMessage)
    ensures msgs == [] ==> before + Paced(msgs + [m]) == (before + Paced(msgs)) + [Transmit(m.0, m.1)]
    ensures msgs != [] ==> before + Paced(msgs + [m]) == (before + Paced(msgs)) + [Pause] + [Transmit(m.0, m.1)]
  {
    assert (msgs + [m])[..|msgs|] == msgs;
  }

  // ---------------------------------------------------------------------------------------
  // Fault isolation

  /** How `Plugin.do` ends, given how the named handler ended (None when the module does not
      define it): a handler fault reaches the caller in debug mode only. A `catch_all` fault is
      always caught, so how `catch_all` ends never enters the result. */
  function Isolate(debug: bool, handler: Option<Status>): (r: Status)
    ensures !debug ==> r == Handled
    ensures r.Raised? <==> debug && handler.Some? && handler.value.Raised?
    ensures r.Raised? ==> r == handler.value
  {
    if debug && handler.Some? then handler.value else Handled
  }

  /** The only `process_` handler either interpreter module defines. */
  const MessageHandler := "process_message"

  class Plugin {
    /** The wrapped module (`self.module`). */
    const interpreter: TeamBot.Interpreter
    const name: string

    /** `Plugin(teambot, bot)`: wraps the module, whose `setup` has given it the bot's identity. */
    constructor (wrapped: TeamBot.Interpreter)
      ensures interpreter == wrapped && name == "teambot"
    {
      interpreter := wrapped;
      name := "teambot";
    }

    /** The module went from state `s0` to state `s1` by the handler named `functionName` ending
        as `handler`, or was left alone when it has no such handler (`handler` None). */
    ghost predicate Ran(functionName: string, s0: TeamBot.Snapshot, s1: TeamBot.Snapshot, data: Event, inChannel: string -> bool,
                        handler: Option<Status>)
    {
      && (handler.Some? <==> functionName == MessageHandler)
      && (handler.Some? ==> interpreter.Processed(s0, s1, data, inChannel, handler.value))
      && (handler.None? ==> s1 == s0)
    }

    /** `do`: calls the handler named `functionName` when the module defines it, and isolates its
        fault unless in debug mode; `handler` is how the handler ended, when it ran. The module
        defines no `catch_all`. */
    method Do(functionName: string, data: Event, debug: bool, inChannel: string -> bool)
      returns (status: Status, handler: Option<Status>)
      requires interpreter.Valid()
      modifies interpreter
      ensures interpreter.Valid()
      ensures Ran(functionName, old(interpreter.State()), interpreter.State(), data, inChannel, handler)
      ensures status == Isolate(debug, handler)
    {
      handler := None;
      if functionName == MessageHandler {
        var s := interpreter.ProcessMessage(data, inChannel);
        handler := Some(s);
      }
      status := Isolate(debug, handler);
    }

    /** `do_output`: takes every queued reply off the module, oldest first. */
    method DoOutput() returns (output: seq<OutputMessage>)
      modifies interpreter`outputs
      ensures output == old(interpreter.outputs) && interpreter.outputs == []
    {
      output := [];
      while true
        invariant output + interpreter.outputs == old(interpreter.outputs)
        decreases |interpreter.outputs|
      {
        if |interpreter.outputs| > 0 {
          output := output + [interpreter.outputs[0]];
          interpreter.outputs := interpreter.outputs[1..];
        } else {
          break;
        }
      }
    }
  }

  /** The heartbeat times recorded so far are more than three seconds apart, in clock order,
      and the last one is `lastPing` (initially 0). */
  predicate PingsSpaced(pings: seq<int>, lastPing: int) {
    && (pings == [] ==> lastPing == 0)
    && (pings != [] ==> pings[|pings| - 1] == lastPing && pings[0] > 3)
    && forall i :: 0 < i < |pings| ==> pings[i] > pings[i - 1] + 3
  }

  /** Any two heartbeats are more than three seconds apart for each heartbeat between them. */
  lemma {:induction false} PingsApart(pings: seq<int>, lastPing: int, i: int, j: int)
    requires PingsSpaced(pings, lastPing)
    requires 0 <= i < j < |pings|
    ensures pings[j] >= pings[i] + 4 * (j - i)
    decreases j - i
  {
    if j > i + 1 {
      PingsApart(pings, lastPing, i, j - 1);
    }
  }

  class Bot {
    var lastPing: int
    var plugins: seq<Plugin>
    var actions: seq<Action>
    ghost var pings: seq<int>
    const channels: set<string>
    /** The imported `teambot` module: a single module object, whichever plugins wrap it. */
    const teambot: TeamBot.Interpreter

    ghost predicate Valid()
      reads this`pings, this`lastPing, this`plugins, teambot`durable, teambot`directory
    {
      && PingsSpaced(pings, lastPing)
      && teambot.Valid()
      && forall i :: 0 <= i < |plugins| ==> plugins[i].interpreter == teambot
    }

    /** `RtmBot(token)`, connected to a server that knows the channels `known`, next to the
        `teambot` module set up with the bot's identity. */
    constructor (known: set<string>, imported: TeamBot.Interpreter)
      requires imported.Valid()
      ensures Valid()
      ensures lastPing == 0 && plugins == [] && actions == [] && pings == []
      ensures channels == known && teambot == imported
    {
      lastPing, plugins, actions, pings := 0, [], [], [];
      channels, teambot := known, imported;
    }

    /** `load_plugins`: wraps the `teambot` module in one more plugin. */
    method LoadPlugins()
      requires Valid()
      modifies this`plugins
      ensures Valid()
      ensures |plugins| == |old(plugins)| + 1 && plugins[..|old(plugins)|] == old(plugins)
      ensures fresh(plugins[|plugins| - 1]) && plugins[|plugins| - 1].name == "teambot"
    {
      var plugin := new Plugin(teambot);
      plugins := plugins + [plugin];
      assert plugins[..|plugins| - 1] == old(plugins);
    }

    /** `autoping`: pings when more than three seconds have passed since the last ping. */
    method Autoping(now: int)
      requires Valid()
      modifies this`lastPing, this`actions, this`pings
      ensures Valid()
      ensures now > old(lastPing) + 3 ==> lastPing == now && actions == old(actions) + [Ping(now)] && pings == old(pings) + [now]
      ensures now <= old(lastPing) + 3 ==> lastPing == old(lastPing) && actions == old(actions) && pings == old(pings)
    {
      if now > lastPing + 3 {
        actions := actions + [Ping(now)];
        pings := pings + [now];
        lastPing := now;
      }
    }

    /** `input`: an event with a type goes to handler `process_<type>` of every plugin, in load
        order; a fault that a plugin lets through ends the dispatch and reaches the caller.
        `handled` holds, per plugin reached, how its handler ended (None: no such handler), and
        `states` the module's state before the first plugin and after each plugin reached. */
    method Input(data: Event, debug: bool, inChannel: string -> bool)
      returns (status: Status, ghost handled: seq<Option<Status>>, ghost states: seq<TeamBot.Snapshot>)
      requires Valid()
      modifies teambot
      ensures Valid()
      ensures |handled| <= |plugins| && |states| == |handled| + 1
      ensures states[0] == old(teambot.State()) && states[|handled|] == teambot.State()
      ensures data.kind.None? ==> status == Handled && handled == []
      ensures data.kind.Some? ==> forall i :: 0 <= i < |handled| ==>
        plugins[i].Ran("process_" + data.kind.value, states[i], states[i + 1], data, inChannel, handled[i])
      ensures forall i :: 0 <= i < |handled| - 1 ==> Isolate(debug, handled[i]) == Handled
      ensures status == if handled == [] then Handled else Isolate(debug, handled[|handled| - 1])
      ensures status == Handled && data.kind.Some? ==> |handled| == |plugins|
      ensures !debug ==> status == Handled
    {
      status, handled, states := Handled, [], [teambot.State()];
      if data.kind.None? {
        return;
      }
      var functionName := "process_" + data.kind.value;
      var i := 0;
      while i < |plugins| && status == Handled
        invariant 0 <= i <= |plugins| && |handled| == i && |states| == i + 1
        invariant Valid()
        invariant states[0] == old(teambot.State()) && states[i] == teambot.State()
        invariant forall k :: 0 <= k < i ==> plugins[k].Ran(functionName, states[k], states[k + 1], data, inChannel, handled[k])
        invariant forall k :: 0 <= k < i - 1 ==> Isolate(debug, handled[k]) == Handled
        invariant status == if i == 0 then Handled else Isolate(debug, handled[i - 1])
      {
        var h;
        status, h := plugins[i].Do(functionName, data, debug, inChannel);
        handled := handled + [h];
        states := states + [teambot.State()];
        i := i + 1;
      }
    }

    /** `output`: every plugin in turn drains the module's queue, oldest reply first, and sends
        what can be sent, pausing between consecutive sends of one plugin. The first plugin takes
        the whole queue, so the module's replies go out once, however many plugins wrap it. */
    method Output()
      requires Valid()
      modifies this`actions, teambot`outputs
      ensures Valid()
      ensures plugins == [] ==> actions == old(actions) && teambot.outputs == old(teambot.outputs)
      ensures plugins != [] ==>
        && teambot.outputs == []
        && actions == old(actions) + Paced(Deliverable(Queue(old(teambot.outputs)), channels))
    {
      var i := 0;
      while i < |plugins|
        invariant 0 <= i <= |plugins|
        invariant Valid()
        invariant i == 0 ==> actions == old(actions) && teambot.outputs == old(teambot.outputs)
        invariant i > 0 ==>
          && teambot.outputs == []
          && actions == old(actions) + Paced(Deliverable(Queue(old(teambot.outputs)), channels))
      {
        var batch := Relay(plugins[i]);
        if i > 0 {
          assert batch == [];
        }
        i := i + 1;
      }
    }

    /** One plugin's turn in `output`: the module's queue drained and delivered. */
    method Relay(plugin: Plugin) returns (batch: seq<OutputMessage>)
      modifies this`actions, plugin.interpreter`outputs
      ensures batch == old(plugin.interpreter.outputs) && plugin.interpreter.outputs == []
      ensures actions == old(actions) + Paced(Deliverable(Queue(batch), channels))
    {
      batch := plugin.DoOutput();
      Deliver(Queue(batch));
    }

    /** The inner loop of `output` for one plugin's batch, with its `limiter` flag. */
    method Deliver(batch: seq<Queued>)
      modifies this`actions
      ensures actions == old(actions) + Paced(Deliverable(batch, channels))
    {
      var limiter := false;
      var k := 0;
      var log := actions;
      ghost var sent: seq<OutputMessage> := [];
      while k < |batch|
        invariant 0 <= k <= |batch|
        invariant sent == Deliverable(batch[..k], channels)
        invariant log == old(actions) + Paced(sent)
        invariant limiter <==> sent != []
      {
        var (channel, text) := batch[k];
        DeliverableStep(batch, k, channels);
        if channel in channels && text.Some? {
          var message := AsciiOnly(text.value);
          PacedStep(old(actions), sent, (channel, message));
          if limiter {
            log := log + [Pause];
            limiter := false;
          }
          log := log + [Transmit(channel, message)];
          limiter := true;
          sent := sent + [(channel, message)];
        }
        k := k + 1;
      }
      assert batch[..k] == batch;
      actions := log;
    }
  }
}
