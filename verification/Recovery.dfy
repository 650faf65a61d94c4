/**
 * tools/laptop-display.py: physical outputs go off while the headset streams and come back afterwards. The
 * saved file is a write-ahead log: a call may die at any point, and the desktop changes on its own.
 */
module Recovery {
  import opened Bytes
  import opened DisplayLayout

  datatype Output = Output(connected: bool, enabled: bool)

  /** What the user, the hardware or the compositor does. */
  datatype Event = SetEnabled(name: Name, enabled: bool) | Plug(name: Name, output: Output) | Unplug(name: Name)

  /** Where a call dies: before it has changed anything, before its command, or after its command. */
  datatype Death = Survives | BeforeWrite | BeforeCommand | AfterCommand

  /** How a display command goes: the outputs it would reach if they are plugged in, and its exit code. */
  datatype Command = Command(reached: set<Name>, code: int)

  /**
   * History: off has found these outputs on and put them on file; its command has switched these off, none
   * if it died before; the command of on has switched these on and given this exit code; on has removed the
   * file; an event.
   */
  datatype Entry =
    | Filed(names: set<Name>)
    | SwitchedOff(names: set<Name>)
    | SwitchedOn(names: set<Name>, code: int)
    | Unlinked
    | Happened(event: Event)

  /** The desktop, the saved file and the history of both. */
  datatype Desk = Desk(file: Option<set<Name>>, outputs: map<Name, Output>, log: seq<Entry>)

  function Saved(file: Option<set<Name>>): (names: set<Name>) {
    if file.Some? then file.value else {}
  }

  /** The physical outputs that are on. */
  function Physical(outputs: map<Name, Output>): (names: set<Name>) {
    set n | n in outputs && !IsQuest(n) && outputs[n].connected && outputs[n].enabled
  }

  predicate QuestEnabled(outputs: map<Name, Output>) {
    exists n :: n in outputs && IsQuest(n) && outputs[n].enabled
  }

  function Switched(outputs: map<Name, Output>, names: set<Name>, enabled: bool): (after: map<Name, Output>) {
    map n | n in outputs :: if n in names then outputs[n].(enabled := enabled) else outputs[n]
  }

  // ---------------------------------------------------------------------------------------------
  // What calls and events do
  // ---------------------------------------------------------------------------------------------

  /** Only an output that is plugged in can be switched. */
  function Happens(d: Desk, event: Event): (after: Desk) {
    match event
    case SetEnabled(name, enabled) =>
      if name !in d.outputs then d
      else d.(outputs := d.outputs[name := d.outputs[name].(enabled := enabled)], log := d.log + [Happened(event)])
    case Plug(name, output) => d.(outputs := d.outputs[name := output], log := d.log + [Happened(event)])
    case Unplug(name) => d.(outputs := d.outputs - {name}, log := d.log + [Happened(event)])
  }

  function HappensAll(d: Desk, events: seq<Event>): (after: Desk)
    decreases events
  {
    if events == [] then d else HappensAll(Happens(d, events[0]), events[1..])
  }

  function Files(d: Desk, names: set<Name>): (after: Desk) {
    d.(file := Some(Saved(d.file) + names), log := d.log + [Filed(names)])
  }

  function SwitchesOff(d: Desk, names: set<Name>): (after: Desk) {
    d.(outputs := Switched(d.outputs, names, false), log := d.log + [SwitchedOff(names)])
  }

  function SwitchesOn(d: Desk, names: set<Name>, code: int): (after: Desk) {
    d.(outputs := Switched(d.outputs, names, true), log := d.log + [SwitchedOn(names, code)])
  }

  function Unlinks(d: Desk): (after: Desk) {
    d.(file := None, log := d.log + [Unlinked])
  }

  function Exit(death: Death, code: int): (exit: Option<int>) {
    if death == Survives then Some(code) else None
  }

  /** off, with the outputs listed or not: the names go on file before the command is given. */
  function OffDone(d: Desk, readable: bool, command: Command, death: Death, beforeCommand: seq<Event>)
    : (r: (Desk, Option<int>))
  {
    var physical := Physical(d.outputs);
    if death == BeforeWrite then (d, None)
    else if !readable || !QuestEnabled(d.outputs) then (d, Exit(death, 1))
    else if physical == {} then (d, Exit(death, 0))
    else if death == BeforeCommand then (SwitchesOff(Files(d, physical), {}), None)
    else
      var asked := HappensAll(Files(d, physical), beforeCommand);
      (SwitchesOff(asked, command.reached * physical * asked.outputs.Keys), Exit(death, command.code))
  }

  /** on: the file goes only after a command that succeeds. */
  function OnDone(d: Desk, command: Command, death: Death, beforeCommand: seq<Event>, beforeUnlink: seq<Event>)
    : (r: (Desk, Option<int>))
  {
    var names := Saved(d.file);
    if names == {} then (d, Exit(death, 0))
    else if death == BeforeWrite || death == BeforeCommand then (d, None)
    else
      var asked := HappensAll(d, beforeCommand);
      var reached := SwitchesOn(asked, command.reached * names * asked.outputs.Keys, command.code);
      if death == AfterCommand then (reached, None)
      else
        var end := HappensAll(reached, beforeUnlink);
        (if command.code == 0 then Unlinks(end) else end, Some(command.code))
  }

  datatype Call =
    | OffCall(readable: bool, command: Command, death: Death, beforeCommand: seq<Event>)
    | OnCall(command: Command, death: Death, beforeCommand: seq<Event>, beforeUnlink: seq<Event>)
    | Between(event: Event)

  function CallDone(d: Desk, call: Call): (after: Desk) {
    match call
    case OffCall(readable, command, death, beforeCommand) => OffDone(d, readable, command, death, beforeCommand).0
    case OnCall(command, death, beforeCommand, beforeUnlink) => OnDone(d, command, death, beforeCommand, beforeUnlink).0
    case Between(event) => Happens(d, event)
  }

  /** Any run of calls, deaths and events from a desktop with no file. */
  function Ran(outputs: map<Name, Output>, calls: seq<Call>): (d: Desk) {
    if calls == [] then Desk(None, outputs, []) else CallDone(Ran(outputs, calls[..|calls| - 1]), calls[|calls| - 1])
  }

  // ---------------------------------------------------------------------------------------------
  // The object
  // ---------------------------------------------------------------------------------------------

  class Desktop {
    var file: Option<set<Name>>
    var outputs: map<Name, Output>
    ghost var log: seq<Entry>

    ghost function Abs(): (d: Desk)
      reads this
    {
      Desk(file, outputs, log)
    }

    constructor (outputs: map<Name, Output>)
      ensures Abs() == Ran(outputs, [])
    {
      file, this.outputs, log := None, outputs, [];
    }

    method Happen(event: Event)
      modifies this`outputs, this`log
      ensures Abs() == Happens(old(Abs()), event)
    {
      match event
      case SetEnabled(name, enabled) =>
        if name in outputs {
          outputs := outputs[name := outputs[name].(enabled := enabled)];
          log := log + [Happened(event)];
        }
      case Plug(name, output) =>
        outputs := outputs[name := output];
        log := log + [Happened(event)];
      case Unplug(name) =>
        outputs := outputs - {name};
        log := log + [Happened(event)];
    }

    method HappenAll(events: seq<Event>)
      modifies this`outputs, this`log
      ensures Abs() == HappensAll(old(Abs()), events)
    {
      var i := 0;
      while i < |events|
        invariant i <= |events| && HappensAll(Abs(), events[i..]) == HappensAll(old(Abs()), events)
        invariant file == old(file)
      {
        assert events[i..][1..] == events[i + 1..];
        Happen(events[i]);
        i := i + 1;
      }
    }

    /** off. It gives up without an enabled Quest output; `readable` is whether the outputs could be listed. */
    method Off(readable: bool, command: Command, death: Death, beforeCommand: seq<Event>) returns (exit: Option<int>)
      modifies this
      ensures (Abs(), exit) == OffDone(old(Abs()), readable, command, death, beforeCommand)
      ensures var goes := readable && exists q :: q in old(outputs) && IsQuest(q) && old(outputs)[q].enabled;
        var on := set n | n in old(outputs) && !IsQuest(n) && old(outputs)[n].connected && old(outputs)[n].enabled;
        && Saved(file) == Saved(old(file)) + (if goes && death != BeforeWrite then on else {})
        && exit == if death != Survives then None
                   else Some(if !goes then 1 else if on == {} then 0 else command.code)
    {
      if death == BeforeWrite {
        return None;
      }
      var current := if readable then outputs else map[];
      if !QuestEnabled(current) {
        return Exit(death, 1);
      }
      var physical := Physical(current);
      if physical == {} {
        return Exit(death, 0);
      }
      file := Some(Saved(file) + physical);
      log := log + [Filed(physical)];
      if death == BeforeCommand {
        assert Switched(outputs, {}, false) == outputs;
        log := log + [SwitchedOff({})];
        return None;
      }
      HappenAll(beforeCommand);
      var reached := command.reached * physical * outputs.Keys;
      outputs := Switched(outputs, reached, false);
      log := log + [SwitchedOff(reached)];
      return Exit(death, command.code);
    }

    method On(command: Command, death: Death, beforeCommand: seq<Event>, beforeUnlink: seq<Event>)
      returns (exit: Option<int>)
      modifies this
      ensures (Abs(), exit) == OnDone(old(Abs()), command, death, beforeCommand, beforeUnlink)
      ensures exit == if death != Survives then None
                      else Some(if Saved(old(file)) == {} then 0 else command.code)
      ensures file == if exit == Some(0) && Saved(old(file)) != {} then None else old(file)
    {
      var names := Saved(file);
      if names == {} {
        return Exit(death, 0);
      }
      if death == BeforeWrite || death == BeforeCommand {
        return None;
      }
      HappenAll(beforeCommand);
      var reached := command.reached * names * outputs.Keys;
      outputs := Switched(outputs, reached, true);
      log := log + [SwitchedOn(reached, command.code)];
      if death == AfterCommand {
        return None;
      }
      HappenAll(beforeUnlink);
      if command.code == 0 {
        file := None;
        log := log + [Unlinked];
      }
      return Some(command.code);
    }
  }

  // ---------------------------------------------------------------------------------------------
  // What the history says
  // ---------------------------------------------------------------------------------------------

  predicate SwitchesNameOn(entry: Entry, n: Name) {
    match entry
    case SwitchedOn(names, _) => n in names
    case Happened(SetEnabled(name, enabled)) => name == n && enabled
    case Happened(Plug(name, output)) => name == n && output.enabled
    case _ => false
  }

  /** The helper has switched n off, and nothing has switched it on since. */
  predicate ByHelper(log: seq<Entry>, n: Name) {
    log != [] &&
    var last, earlier := log[|log| - 1], log[..|log| - 1];
    if last.SwitchedOff? && n in last.names then true
    else if SwitchesNameOn(last, n) then false
    else ByHelper(earlier, n)
  }

  predicate OnFile(log: seq<Entry>, n: Name) {
    log != [] &&
    var last, earlier := log[|log| - 1], log[..|log| - 1];
    if last.Filed? && n in last.names then true
    else if last.Unlinked? then false
    else OnFile(earlier, n)
  }

  /** The names put on file by an off whose command has not been given yet. */
  function Asked(log: seq<Entry>): (names: Option<set<Name>>) {
    if log == [] then None
    else
      match log[|log| - 1]
      case Filed(names) => Some(names)
      case Happened(_) => Asked(log[..|log| - 1])
      case _ => None
  }

  /** The last command given is that of an on, and it has succeeded. */
  predicate Succeeded(log: seq<Entry>) {
    log != [] &&
    match log[|log| - 1]
    case SwitchedOn(_, code) => code == 0
    case Happened(_) => Succeeded(log[..|log| - 1])
    case _ => false
  }

  /** Calls are serial, and each of their steps is one the helper can take. */
  ghost predicate History(log: seq<Entry>) {
    log == [] ||
    var earlier := log[..|log| - 1];
    && History(earlier)
    && match log[|log| - 1]
       case Filed(names) => Asked(earlier) == None && forall n :: n in names ==> !ByHelper(earlier, n) && !IsQuest(n)
       case SwitchedOff(names) => Asked(earlier).Some? && names <= Asked(earlier).value
       case SwitchedOn(names, _) => Asked(earlier) == None && forall n :: n in names ==> OnFile(earlier, n)
       case Unlinked => Succeeded(earlier)
       case Happened(_) => true
  }

  /** The file holds what history says, and what the helper has switched off is off. */
  ghost predicate Sound(d: Desk) {
    && History(d.log)
    && (forall n :: n in Saved(d.file) <==> OnFile(d.log, n))
    && (forall n :: n in d.outputs && ByHelper(d.log, n) ==> !d.outputs[n].enabled)
  }

  lemma Recent(log: seq<Entry>, entry: Entry)
    ensures (log + [entry])[..|log + [entry]| - 1] == log && (log + [entry])[|log + [entry]| - 1] == entry
  {
  }

  lemma HappensKeeps(d: Desk, event: Event)
    requires Sound(d)
    ensures Sound(Happens(d, event)) && Asked(Happens(d, event).log) == Asked(d.log)
    ensures Succeeded(Happens(d, event).log) <==> Succeeded(d.log)
  {
    Recent(d.log, Happened(event));
  }

  lemma {:induction false} HappensAllKeeps(d: Desk, events: seq<Event>)
    requires Sound(d)
    ensures Sound(HappensAll(d, events)) && Asked(HappensAll(d, events).log) == Asked(d.log)
    ensures Succeeded(HappensAll(d, events).log) <==> Succeeded(d.log)
    decreases events
  {
    hide Sound, Happens, Asked, Succeeded;
    if events != [] {
      HappensKeeps(d, events[0]);
      HappensAllKeeps(Happens(d, events[0]), events[1..]);
    }
  }

  /** No event touches the file. */
  lemma {:induction false} EventsKeepFile(d: Desk, events: seq<Event>)
    ensures HappensAll(d, events).file == d.file
    decreases events
  {
    if events != [] {
      EventsKeepFile(Happens(d, events[0]), events[1..]);
    }
  }

  lemma FilesKeeps(d: Desk)
    requires Sound(d) && Asked(d.log) == None
    ensures Sound(Files(d, Physical(d.outputs)))
        && Asked(Files(d, Physical(d.outputs)).log) == Some(Physical(d.outputs))
  {
    Recent(d.log, Filed(Physical(d.outputs)));
  }

  lemma SwitchesOffKeeps(d: Desk, names: set<Name>)
    requires Sound(d) && Asked(d.log).Some? && names <= Asked(d.log).value
    ensures Sound(SwitchesOff(d, names)) && Asked(SwitchesOff(d, names).log) == None
  {
    Recent(d.log, SwitchedOff(names));
  }

  lemma SwitchesOnKeeps(d: Desk, names: set<Name>, code: int)
    requires Sound(d) && Asked(d.log) == None && names <= Saved(d.file)
    ensures Sound(SwitchesOn(d, names, code)) && Asked(SwitchesOn(d, names, code).log) == None
    ensures Succeeded(SwitchesOn(d, names, code).log) <==> code == 0
  {
    Recent(d.log, SwitchedOn(names, code));
  }

  lemma UnlinksKeeps(d: Desk)
    requires Sound(d) && Succeeded(d.log)
    ensures Sound(Unlinks(d)) && Asked(Unlinks(d).log) == None
  {
    Recent(d.log, Unlinked);
  }

  lemma CallKeeps(d: Desk, call: Call)
    requires Sound(d) && Asked(d.log) == None
    ensures Sound(CallDone(d, call)) && Asked(CallDone(d, call).log) == None
  {
    hide Sound, Asked, Succeeded, Happens, HappensAll, Files, SwitchesOff, SwitchesOn, Unlinks, Physical, QuestEnabled;
    match call
    case OffCall(readable, command, death, beforeCommand) =>
      var filed := Files(d, Physical(d.outputs));
      FilesKeeps(d);
      SwitchesOffKeeps(filed, {});
      HappensAllKeeps(filed, beforeCommand);
      var asked := HappensAll(filed, beforeCommand);
      SwitchesOffKeeps(asked, command.reached * Physical(d.outputs) * asked.outputs.Keys);
    case OnCall(command, death, beforeCommand, beforeUnlink) =>
      HappensAllKeeps(d, beforeCommand);
      EventsKeepFile(d, beforeCommand);
      var asked := HappensAll(d, beforeCommand);
      var names := command.reached * Saved(d.file) * asked.outputs.Keys;
      SwitchesOnKeeps(asked, names, command.code);
      HappensAllKeeps(SwitchesOn(asked, names, command.code), beforeUnlink);
      if command.code == 0 {
        UnlinksKeeps(HappensAll(SwitchesOn(asked, names, command.code), beforeUnlink));
      }
    case Between(event) => HappensKeeps(d, event);
  }

  /** Whatever happens, the file and the outputs stay as history says. */
  lemma {:induction false} RunIsSound(outputs: map<Name, Output>, calls: seq<Call>)
    ensures Sound(Ran(outputs, calls)) && Asked(Ran(outputs, calls).log) == None
  {
    hide CallDone;
    if calls != [] {
      RunIsSound(outputs, calls[..|calls| - 1]);
      CallKeeps(Ran(outputs, calls[..|calls| - 1]), calls[|calls| - 1]);
    }
  }
}
