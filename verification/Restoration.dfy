/**
 * What tools/laptop-display.py promises, and when it keeps its word: off leaves a screen on if a Quest output
 * stays until its command; on brings back what the helper has switched off and has not forgotten, and nothing
 * else if every saved output that is off was left so by the helper.
 */
module Restoration {
  import opened Bytes
  import opened DisplayLayout
  import opened Recovery

  // ---------------------------------------------------------------------------------------------
  // A screen is kept
  // ---------------------------------------------------------------------------------------------

  predicate SomeOn(outputs: map<Name, Output>) {
    exists n :: n in outputs && outputs[n].enabled
  }

  /** off gets as far as its command. */
  predicate GivesCommand(d: Desk, readable: bool, death: Death) {
    && death != BeforeWrite && death != BeforeCommand
    && readable && QuestEnabled(d.outputs) && Physical(d.outputs) != {}
  }

  /** The outputs when the command of off runs. */
  function AtCommand(d: Desk, beforeCommand: seq<Event>): (outputs: map<Name, Output>) {
    HappensAll(Files(d, Physical(d.outputs)), beforeCommand).outputs
  }

  /** off switches nothing, unless it lists an enabled Quest output; and it never switches a Quest output. */
  lemma OffSwitches(d: Desk, readable: bool, command: Command, death: Death, beforeCommand: seq<Event>, n: Name)
    ensures var r := OffDone(d, readable, command, death, beforeCommand).0;
      if GivesCommand(d, readable, death) then
        var at := AtCommand(d, beforeCommand);
        && r.outputs.Keys == at.Keys
        && (n in at ==>
              var off := n in command.reached && n in Physical(d.outputs);
              r.outputs[n] == if off then at[n].(enabled := false) else at[n])
        && (n in at && IsQuest(n) ==> r.outputs[n] == at[n])
      else r.outputs == d.outputs
  {
    hide HappensAll, QuestEnabled;
    assert Switched(d.outputs, {}, false) == d.outputs;
  }

  /** off keeps a screen if a Quest output is still enabled when its command runs. */
  lemma OffKeepsAScreen(d: Desk, readable: bool, command: Command, death: Death, beforeCommand: seq<Event>)
    requires GivesCommand(d, readable, death) && QuestEnabled(AtCommand(d, beforeCommand))
    ensures SomeOn(OffDone(d, readable, command, death, beforeCommand).0.outputs)
  {
    hide OffDone, AtCommand, GivesCommand;
    var at := AtCommand(d, beforeCommand);
    var n :| n in at && IsQuest(n) && at[n].enabled;
    OffSwitches(d, readable, command, death, beforeCommand, n);
  }

  /**
   * When the command of off reaches all it names, a screen is kept if and only if some output is enabled when
   * it runs that is a Quest output, or was not on when the outputs were listed.
   */
  lemma OffKeepsAScreenExactly(d: Desk, readable: bool, command: Command, death: Death, beforeCommand: seq<Event>)
    requires GivesCommand(d, readable, death) && Physical(d.outputs) <= command.reached
    ensures var at := AtCommand(d, beforeCommand);
      SomeOn(OffDone(d, readable, command, death, beforeCommand).0.outputs)
      <==> exists n :: n in at && at[n].enabled && n !in Physical(d.outputs)
  {
    hide OffDone, AtCommand, GivesCommand;
    var at := AtCommand(d, beforeCommand);
    var after := OffDone(d, readable, command, death, beforeCommand).0.outputs;
    forall n
      ensures n in after <==> n in at
      ensures n in at ==> (after[n].enabled <==> at[n].enabled && n !in Physical(d.outputs))
    {
      OffSwitches(d, readable, command, death, beforeCommand, n);
    }
  }

  /** With no event between the listing and the command, off never takes the last screen. */
  lemma OffAloneKeepsAScreen(d: Desk, readable: bool, command: Command, death: Death)
    requires SomeOn(d.outputs)
    ensures SomeOn(OffDone(d, readable, command, death, []).0.outputs)
  {
    hide OffDone;
    if GivesCommand(d, readable, death) {
      assert AtCommand(d, []) == d.outputs;
      OffKeepsAScreen(d, readable, command, death, []);
    } else {
      OffSwitches(d, readable, command, death, [], "");
    }
  }

  /** The Quest output goes between the listing and the command: off takes the only screen that is left. */
  lemma OffCanTakeTheLastScreen() returns (after: map<Name, Output>)
    ensures var d := Ran(map["eDP-1" := Output(true, true), "QUEST-1" := Output(true, true)], []);
      after == OffDone(d, true, Command({"eDP-1"}, 0), Survives, [Unplug("QUEST-1")]).0.outputs
    ensures "eDP-1" in after && !SomeOn(after)
  {
    var start: map<Name, Output> := map["eDP-1" := Output(true, true), "QUEST-1" := Output(true, true)];
    var d := Desk(None, start, []);
    assert IsQuest("QUEST-1") && !IsQuest("eDP-1");
    assert QuestEnabled(start);
    assert Physical(start) == {"eDP-1"};
    var filed := Files(d, {"eDP-1"});
    var gone := Happens(filed, Unplug("QUEST-1"));
    assert gone.outputs == map["eDP-1" := Output(true, true)];
    assert [Unplug("QUEST-1")][1..] == [];
    assert HappensAll(filed, [Unplug("QUEST-1")]) == gone;
    assert {"eDP-1"} * {"eDP-1"} * gone.outputs.Keys == {"eDP-1"};
    after := Switched(gone.outputs, {"eDP-1"}, false);
  }

  // ---------------------------------------------------------------------------------------------
  // Who switched an output off
  // ---------------------------------------------------------------------------------------------

  /** Entry k is where an off has last found n on. */
  ghost predicate LastFound(log: seq<Entry>, n: Name, k: nat) {
    && k < |log| && log[k].Filed? && n in log[k].names
    && forall j :: k < j < |log| && log[j].Filed? ==> n !in log[j].names
  }

  /** Entry c is the command of the off that filed entry k. */
  ghost predicate CommandOf(log: seq<Entry>, k: nat, c: nat) {
    && k < c < |log| && log[c].SwitchedOff?
    && forall j :: k < j < c ==> log[j].Happened?
  }

  ghost predicate SwitchedOnSince(log: seq<Entry>, n: Name, c: nat) {
    exists j :: c < j < |log| && SwitchesNameOn(log[j], n)
  }

  lemma {:induction false} HistoryTake(log: seq<Entry>, k: nat)
    requires History(log) && k <= |log|
    ensures History(log[..k])
    decreases |log| - k
  {
    if k < |log| {
      HistoryTake(log, k + 1);
      assert log[..k + 1][..k] == log[..k];
    } else {
      assert log[..k] == log;
    }
  }

  /** What is asked was filed last. */
  lemma {:induction false} AskedWhere(log: seq<Entry>) returns (k: nat)
    requires Asked(log).Some?
    ensures k < |log| && log[k] == Filed(Asked(log).value) && forall j :: k < j < |log| ==> log[j].Happened?
  {
    k := |log| - 1;
    if log[k].Happened? {
      k := AskedWhere(log[..k]);
    }
  }

  /** Events in between do not let the helper switch n off. */
  lemma {:induction false} EventsDoNotSwitchOff(log: seq<Entry>, n: Name, k: nat, c: nat)
    requires k <= c <= |log| && !ByHelper(log[..k], n) && forall j :: k <= j < c ==> !log[j].SwitchedOff?
    ensures !ByHelper(log[..c], n)
    decreases c
  {
    if k < c {
      EventsDoNotSwitchOff(log, n, k, c - 1);
      assert log[..c][..c - 1] == log[..c - 1] && log[..c][c - 1] == log[c - 1];
    }
  }

  /** The command that switched n off belongs to an off that found it on. */
  lemma SwitchedOffWasFound(log: seq<Entry>, n: Name, i: nat, c: nat)
    requires History(log) && c < i < |log| && log[c].SwitchedOff? && log[i].SwitchedOff? && n in log[i].names
    ensures exists j :: c < j < i && log[j].Filed? && n in log[j].names
  {
    HistoryTake(log, i + 1);
    assert log[..i + 1][..i] == log[..i];
    var j := AskedWhere(log[..i]);
    assert log[..i][j] == log[j];
    assert log[..i][c] == log[c];
  }

  /**
   * An output on file was switched off by the helper, and is off because of that, if and only if the command
   * of the off that last found it on reached it, and nothing has switched it on since.
   */
  lemma {:induction false} WhoSwitchedItOff(log: seq<Entry>, n: Name, k: nat, c: nat)
    requires History(log) && LastFound(log, n, k) && CommandOf(log, k, c)
    ensures ByHelper(log, n) <==> n in log[c].names && !SwitchedOnSince(log, n, c)
    decreases |log|
  {
    hide History;
    var last := |log| - 1;
    var earlier := log[..last];
    HistoryTake(log, last);
    if c == last {
      HistoryTake(log, k + 1);
      FoundOn(log, n, k);
      EventsDoNotSwitchOff(log, n, k, c);
    } else {
      WhoSwitchedItOff(earlier, n, k, c);
      assert forall j :: c < j < last ==> earlier[j] == log[j];
      if log[last].SwitchedOff? && n in log[last].names {
        SwitchedOffWasFound(log, n, last, c);
      }
    }
  }

  /** What off finds on, the helper has not switched off. */
  lemma FoundOn(log: seq<Entry>, n: Name, k: nat)
    requires k < |log| && log[k].Filed? && n in log[k].names && History(log[..k + 1])
    ensures !ByHelper(log[..k], n)
  {
    assert log[..k + 1][..k] == log[..k];
  }

  /** Between calls every output on file has an off that last found it on, and the command of that off. */
  lemma {:induction false} FoundWhere(log: seq<Entry>, n: Name) returns (k: nat, c: nat)
    requires History(log) && OnFile(log, n)
    ensures LastFound(log, n, k) && (CommandOf(log, k, c) || (Asked(log).Some? && n in Asked(log).value))
    decreases |log|
  {
    var last := |log| - 1;
    if log[last].Filed? && n in log[last].names {
      k, c := last, 0;
    } else {
      k, c := FoundWhere(log[..last], n);
      if !CommandOf(log[..last], k, c) && log[last].SwitchedOff? {
        c := last;
        FiledLast(log[..last], n, k);
      }
    }
  }

  /** While a command is outstanding, the off that last found n on is the one that asks for it. */
  lemma FiledLast(log: seq<Entry>, n: Name, k: nat)
    requires Asked(log).Some? && n in Asked(log).value && LastFound(log, n, k)
    ensures forall j :: k < j < |log| ==> log[j].Happened?
  {
    var j := AskedWhere(log);
  }

  // ---------------------------------------------------------------------------------------------
  // Everything comes back
  // ---------------------------------------------------------------------------------------------

  /** An on has removed the file while n, switched off by the helper, stayed off; and it has stayed off since. */
  ghost predicate Forgotten(log: seq<Entry>, n: Name) {
    exists k :: 0 <= k < |log| && ForgottenAt(log, n, k)
  }

  ghost predicate ForgottenAt(log: seq<Entry>, n: Name, k: nat)
    requires k < |log|
  {
    log[k].Unlinked? && ByHelper(log[..k], n) && !SwitchedOnSince(log, n, k)
  }

  /** The write-ahead law: what the helper has switched off is on file, unless it was forgotten by an on. */
  lemma {:induction false} OnFileUnlessForgotten(log: seq<Entry>, n: Name)
    requires History(log) && ByHelper(log, n)
    ensures !OnFile(log, n) <==> Forgotten(log, n)
    decreases |log|
  {
    var last := |log| - 1;
    var earlier := log[..last];
    if log[last].SwitchedOff? && n in log[last].names {
      AskedIsOnFile(earlier, n);
      forall k | 0 <= k < |log| && log[k].Unlinked? && ByHelper(log[..k], n)
        ensures SwitchedOnSince(log, n, k)
      {
        NotStillOff(log, n, k);
      }
    } else {
      OnFileUnlessForgotten(earlier, n);
      ForgottenStep(log, n);
    }
  }

  lemma {:induction false} AskedIsOnFile(log: seq<Entry>, n: Name)
    requires Asked(log).Some? && n in Asked(log).value
    ensures OnFile(log, n)
  {
    if log[|log| - 1].Happened? {
      AskedIsOnFile(log[..|log| - 1], n);
    }
  }

  /** An output that is switched off again must have been switched on in between. */
  lemma NotStillOff(log: seq<Entry>, n: Name, k: nat)
    requires History(log) && k < |log| - 1 && log[k].Unlinked? && ByHelper(log[..k], n)
    requires log[|log| - 1].SwitchedOff? && n in log[|log| - 1].names
    ensures SwitchedOnSince(log, n, k)
  {
    var last := |log| - 1;
    var f := AskedWhere(log[..last]);
    assert log[..last][f] == log[f];
    assert log[..last][k] == log[k];
    HistoryTake(log, f + 1);
    FoundOn(log, n, f);
    SomethingSwitchedOn(log, n, k, f);
  }

  lemma {:induction false} SomethingSwitchedOn(log: seq<Entry>, n: Name, k: nat, f: nat)
    requires k <= f <= |log| && ByHelper(log[..k], n) && !ByHelper(log[..f], n)
    ensures exists j :: k <= j < f && SwitchesNameOn(log[j], n)
    decreases f
  {
    assert k < f;
    assert log[..f][..f - 1] == log[..f - 1] && log[..f][f - 1] == log[f - 1];
    if !SwitchesNameOn(log[f - 1], n) {
      SomethingSwitchedOn(log, n, k, f - 1);
    }
  }

  /** One more entry that does not switch n: it is forgotten now if it was, or if the file goes now. */
  lemma ForgottenStep(log: seq<Entry>, n: Name)
    requires log != [] && ByHelper(log, n) && !(log[|log| - 1].SwitchedOff? && n in log[|log| - 1].names)
    ensures Forgotten(log, n) <==> log[|log| - 1].Unlinked? || Forgotten(log[..|log| - 1], n)
  {
    var last := |log| - 1;
    var earlier := log[..last];
    assert ByHelper(earlier, n) && !SwitchesNameOn(log[last], n);
    if log[last].Unlinked? {
      assert ForgottenAt(log, n, last);
    }
    forall k | 0 <= k < last
      ensures ForgottenAt(log, n, k) <==> ForgottenAt(earlier, n, k)
    {
      assert log[..k] == earlier[..k];
      assert forall j :: k < j < last ==> log[j] == earlier[j];
      if SwitchedOnSince(earlier, n, k) {
        var j :| k < j < |earlier| && SwitchesNameOn(earlier[j], n);
        assert SwitchesNameOn(log[j], n);
      }
    }
    if Forgotten(earlier, n) {
      var k :| 0 <= k < |earlier| && ForgottenAt(earlier, n, k);
      assert ForgottenAt(log, n, k);
    }
    if Forgotten(log, n) && !log[last].Unlinked? {
      var k :| 0 <= k < |log| && ForgottenAt(log, n, k);
      assert ForgottenAt(earlier, n, k);
    }
  }

  // ---------------------------------------------------------------------------------------------
  // A failed on costs nothing
  // ---------------------------------------------------------------------------------------------

  /**
   * What an on does to the file, whatever happens meanwhile: it is removed if and only if there was something
   * to restore, the command succeeded and the call lived; an on that fails or dies leaves it as it was.
   */
  lemma FailedOnKeepsFile(d: Desk, command: Command, death: Death, beforeCommand: seq<Event>,
      beforeUnlink: seq<Event>)
    ensures var r := OnDone(d, command, death, beforeCommand, beforeUnlink);
      && r.1 == (if death != Survives then None else Some(if Saved(d.file) == {} then 0 else command.code))
      && (r.1 != Some(0) ==> r.0.file == d.file)
      && (r.0.file != d.file <==> Saved(d.file) != {} && death == Survives && command.code == 0)
      && (r.0.file != d.file ==> r.0.file == None)
  {
    hide HappensAll;
    EventsKeepFile(d, beforeCommand);
    var asked := HappensAll(d, beforeCommand);
    var reached := SwitchesOn(asked, command.reached * Saved(d.file) * asked.outputs.Keys, command.code);
    EventsKeepFile(reached, beforeUnlink);
  }

  /** After any run: wherever the file was removed, the command before that was of an on, and exited with 0. */
  lemma RemovedOnlyAfterSuccess(outputs: map<Name, Output>, calls: seq<Call>, k: nat)
    requires k < |Ran(outputs, calls).log| && Ran(outputs, calls).log[k] == Unlinked
    ensures var log := Ran(outputs, calls).log;
      exists j: nat :: j < k && log[j].SwitchedOn? && log[j].code == 0 && forall i :: j < i < k ==> log[i].Happened?
  {
    hide History, Ran;
    RunIsSound(outputs, calls);
    UnlinkedAfterSuccess(Ran(outputs, calls).log, k);
  }

  lemma UnlinkedAfterSuccess(log: seq<Entry>, k: nat)
    requires History(log) && k < |log| && log[k] == Unlinked
    ensures exists j: nat ::
              j < k && log[j].SwitchedOn? && log[j].code == 0 && forall i :: j < i < k ==> log[i].Happened?
  {
    hide Succeeded;
    HistoryTake(log, k + 1);
    assert log[..k + 1][..k] == log[..k];
    var j := SucceededWhere(log[..k]);
    assert log[j] == log[..k][j];
    assert forall i :: j < i < k ==> log[i] == log[..k][i];
  }

  lemma {:induction false} SucceededWhere(log: seq<Entry>) returns (j: nat)
    requires Succeeded(log)
    ensures j < |log| && log[j].SwitchedOn? && log[j].code == 0 && forall i :: j < i < |log| ==> log[i].Happened?
  {
    j := |log| - 1;
    if log[j].Happened? {
      j := SucceededWhere(log[..j]);
    }
  }

  /** Calls of on one after the other, each with its command and its death, and no event. */
  function Ons(d: Desk, ons: seq<(Command, Death)>): (after: Desk)
    decreases ons
  {
    if ons == [] then d else Ons(OnDone(d, ons[0].0, ons[0].1, [], []).0, ons[1..])
  }

  /**
   * Any number of ons that fail or die, then one whose command succeeds: the outputs, the file and the exit
   * code are those of the successful one alone.
   */
  lemma {:induction false} FailedOnsCostNothing(d: Desk, failed: seq<(Command, Death)>, command: Command)
    requires forall f :: f in failed ==> f.0.code != 0 || f.1 != Survives
    requires Succeeds(command, Saved(d.file), d.outputs)
    ensures var late := OnDone(Ons(d, failed), command, Survives, [], []);
      var once := OnDone(d, command, Survives, [], []);
      late.1 == once.1 && late.0.file == once.0.file && late.0.outputs == once.0.outputs
    decreases failed
  {
    hide OnDone, HappensAll;
    if failed != [] {
      var next := OnDone(d, failed[0].0, failed[0].1, [], []).0;
      assert failed[0] in failed;
      OneFailedOn(d, failed[0].0, failed[0].1, command);
      assert forall f :: f in failed[1..] ==> f in failed;
      FailedOnsCostNothing(next, failed[1..], command);
    }
  }

  lemma OneFailedOn(d: Desk, bad: Command, death: Death, command: Command)
    requires (bad.code != 0 || death != Survives) && Succeeds(command, Saved(d.file), d.outputs)
    ensures var next := OnDone(d, bad, death, [], []).0;
      && next.file == d.file && Succeeds(command, Saved(next.file), next.outputs)
      && var late, once := OnDone(next, command, Survives, [], []), OnDone(d, command, Survives, [], []);
      late.1 == once.1 && late.0.file == once.0.file && late.0.outputs == once.0.outputs
  {
    var names := Saved(d.file);
    var next := OnDone(d, bad, death, [], []).0;
    var all := names * d.outputs.Keys;
    assert command.reached * names * d.outputs.Keys == all;
    assert next.outputs == d.outputs || next.outputs == Switched(d.outputs, bad.reached * names * d.outputs.Keys, true);
    assert command.reached * names * next.outputs.Keys == all;
    assert Switched(next.outputs, all, true) == Switched(d.outputs, all, true);
  }

  /** A command that succeeds has reached every output it names that is plugged in. */
  predicate Succeeds(command: Command, names: set<Name>, outputs: map<Name, Output>) {
    command.code == 0 && names * outputs.Keys <= command.reached
  }

  /**
   * After any run of calls, deaths and events, one on whose command succeeds: an output the helper had
   * switched off is enabled again, if and only if it is plugged in and no earlier on has forgotten it; the
   * others stay switched off, and every output that was not on file is left alone.
   */
  lemma OneSuccessfulOnRestores(outputs: map<Name, Output>, calls: seq<Call>, command: Command, n: Name)
    requires var d := Ran(outputs, calls); Succeeds(command, Saved(d.file), d.outputs)
    ensures var d := Ran(outputs, calls);
      var r := OnDone(d, command, Survives, [], []);
      && r.1 == Some(0) && Saved(r.0.file) == {} && r.0.outputs.Keys == d.outputs.Keys
      && (ByHelper(d.log, n) ==>
            && (n in r.0.outputs && r.0.outputs[n].enabled <==> n in d.outputs && !Forgotten(d.log, n))
            && (ByHelper(r.0.log, n) <==> !(n in d.outputs && !Forgotten(d.log, n))))
      && (n in d.outputs && n !in Saved(d.file) ==> r.0.outputs[n] == d.outputs[n])
  {
    var d := Ran(outputs, calls);
    RunIsSound(outputs, calls);
    if ByHelper(d.log, n) {
      OnFileUnlessForgotten(d.log, n);
    }
    hide Forgotten, History;
    OnEffect(d, command, n);
  }

  lemma OnEffect(d: Desk, command: Command, n: Name)
    requires Sound(d) && Succeeds(command, Saved(d.file), d.outputs)
    ensures var r := OnDone(d, command, Survives, [], []);
      var hit := n in d.outputs && n in Saved(d.file);
      && r.1 == Some(0) && Saved(r.0.file) == {} && r.0.outputs.Keys == d.outputs.Keys
      && (n in d.outputs ==> r.0.outputs[n] == if hit then d.outputs[n].(enabled := true) else d.outputs[n])
      && (ByHelper(r.0.log, n) <==> ByHelper(d.log, n) && !hit)
  {
    hide History;
    var names := Saved(d.file);
    if names != {} {
      var reached := SwitchesOn(d, command.reached * names * d.outputs.Keys, 0);
      assert command.reached * names * d.outputs.Keys == names * d.outputs.Keys;
      Recent(d.log, SwitchedOn(names * d.outputs.Keys, 0));
      Recent(reached.log, Unlinked);
      assert OnDone(d, command, Survives, [], []) == (Unlinks(reached), Some(0));
    }
  }

  lemma RanSnoc(outputs: map<Name, Output>, calls: seq<Call>, call: Call)
    ensures Ran(outputs, calls + [call]) == CallDone(Ran(outputs, calls), call)
  {
    assert (calls + [call])[..|calls|] == calls;
  }

  /**
   * An output that is unplugged during a successful on is forgotten: plugged in again it is still off, and
   * it is not on file for a later on.
   */
  lemma UnpluggedOutputIsForgotten() returns (d: Desk)
    ensures var calls := [
        OffCall(true, Command({"DP-1"}, 0), Survives, []), Between(Unplug("DP-1")),
        OnCall(Command({}, 0), Survives, [], []), Between(Plug("DP-1", Output(true, false)))];
      d == Ran(map["DP-1" := Output(true, true), "QUEST-1" := Output(true, true)], calls)
    ensures ByHelper(d.log, "DP-1") && Forgotten(d.log, "DP-1")
    ensures "DP-1" in d.outputs && !d.outputs["DP-1"].enabled && Saved(d.file) == {}
  {
    hide ByHelper, Forgotten, Ran;
    var on := Output(true, true);
    var start: map<Name, Output> := map["DP-1" := on, "QUEST-1" := on];
    var off := OffCall(true, Command({"DP-1"}, 0), Survives, []);
    var unplug, back := Between(Unplug("DP-1")), Between(Plug("DP-1", Output(true, false)));
    var restore := OnCall(Command({}, 0), Survives, [], []);
    NothingRan(start);
    var d1 := OneSwitchedOff(start);
    RanSnoc(start, [], off);
    var d2 := Happens(d1, Unplug("DP-1"));
    RanSnoc(start, [off], unplug);
    var d3 := CallDone(d2, restore);
    RanSnoc(start, [off, unplug], restore);
    d := Happens(d3, back.event);
    RanSnoc(start, [off, unplug, restore], back);
    assert [] + [off] == [off] && [off] + [unplug] == [off, unplug];
    assert [off, unplug] + [restore] == [off, unplug, restore];
    assert [off, unplug, restore] + [back] == [off, unplug, restore, back];
    NothingReached(d2);
    StillOff(d1.log, d.log);
  }

  lemma NothingReached(d: Desk)
    requires Saved(d.file) != {}
    ensures var after := CallDone(d, OnCall(Command({}, 0), Survives, [], []));
      after.log == d.log + [SwitchedOn({}, 0), Unlinked] && after.outputs == d.outputs && after.file == None
  {
    assert {} * Saved(d.file) * d.outputs.Keys == {};
    assert Switched(d.outputs, {}, true) == d.outputs;
    assert HappensAll(d, []) == d;
  }

  lemma NothingRan(outputs: map<Name, Output>)
    ensures Ran(outputs, []) == Desk(None, outputs, [])
  {
  }

  lemma FiledFirst(outputs: map<Name, Output>, names: set<Name>)
    ensures Files(Desk(None, outputs, []), names) == Desk(Some(names), outputs, [Filed(names)])
  {
    assert Saved(None) + names == names;
    assert [] + [Filed(names)] == [Filed(names)];
  }

  lemma OneSwitchedOff(outputs: map<Name, Output>) returns (d: Desk)
    requires outputs == map["DP-1" := Output(true, true), "QUEST-1" := Output(true, true)]
    ensures d == CallDone(Desk(None, outputs, []), OffCall(true, Command({"DP-1"}, 0), Survives, []))
    ensures d.file == Some({"DP-1"}) && d.log == [Filed({"DP-1"}), SwitchedOff({"DP-1"})]
    ensures d.outputs == map["DP-1" := Output(true, false), "QUEST-1" := Output(true, true)]
  {
    assert IsQuest("QUEST-1") && !IsQuest("DP-1");
    assert QuestEnabled(outputs);
    assert Physical(outputs) == {"DP-1"};
    var filed := Files(Desk(None, outputs, []), {"DP-1"});
    FiledFirst(outputs, {"DP-1"});
    assert {"DP-1"} * {"DP-1"} * outputs.Keys == {"DP-1"};
    d := SwitchesOff(filed, {"DP-1"});
    assert d.log == [Filed({"DP-1"}), SwitchedOff({"DP-1"})];
    assert HappensAll(filed, []) == filed;
  }

  lemma StillOff(before: seq<Entry>, log: seq<Entry>)
    requires before == [Filed({"DP-1"}), SwitchedOff({"DP-1"})]
    requires log == before + [Happened(Unplug("DP-1"))] + [SwitchedOn({}, 0), Unlinked]
                    + [Happened(Plug("DP-1", Output(true, false)))]
    ensures ByHelper(log, "DP-1") && Forgotten(log, "DP-1")
  {
    assert ByHelper(before, "DP-1");
    assert log[..2] == before;
    StaysOff(log, 3);
    StaysOff(log, 4);
    StaysOff(log, 5);
    StaysOff(log, 6);
    assert log[..6] == log;
    assert ForgottenAt(log, "DP-1", 4);
  }

  lemma StaysOff(log: seq<Entry>, k: nat)
    requires 0 < k <= |log| && ByHelper(log[..k - 1], "DP-1") && !SwitchesNameOn(log[k - 1], "DP-1")
    ensures ByHelper(log[..k], "DP-1")
  {
    assert log[..k][..k - 1] == log[..k - 1] && log[..k][k - 1] == log[k - 1];
  }

  // ---------------------------------------------------------------------------------------------
  // Nothing else comes back
  // ---------------------------------------------------------------------------------------------

  /**
   * The command of the off that last found n on reached it, and neither an event nor a failed on has
   * switched it on since.
   */
  ghost predicate ReachedAndLeft(log: seq<Entry>, n: Name) {
    exists k: nat, c: nat :: LastFound(log, n, k) && CommandOf(log, k, c) && n in log[c].names
        && !SwitchedOnSince(log, n, c)
  }

  /**
   * After any run, an on whose command succeeds switches on only what the helper had switched off, if and
   * only if every output on file that is off was reached by the off that last found it on, and was not
   * switched on since.
   */
  lemma RestoresOnlyItsOwn(outputs: map<Name, Output>, calls: seq<Call>, command: Command)
    requires var d := Ran(outputs, calls); Succeeds(command, Saved(d.file), d.outputs)
    ensures var d := Ran(outputs, calls);
      var after := OnDone(d, command, Survives, [], []).0.outputs;
      (forall n :: n in d.outputs && n in after && after[n] != d.outputs[n] ==> ByHelper(d.log, n))
      <==> forall n :: n in d.outputs && n in Saved(d.file) && !d.outputs[n].enabled ==> ReachedAndLeft(d.log, n)
  {
    hide History, ByHelper, OnDone, ReachedAndLeft;
    var d := Ran(outputs, calls);
    RunIsSound(outputs, calls);
    var after := OnDone(d, command, Survives, [], []).0.outputs;
    forall n | n in d.outputs
      ensures n in after
      ensures after[n] != d.outputs[n] <==> n in Saved(d.file) && !d.outputs[n].enabled
      ensures n in Saved(d.file) ==> (ByHelper(d.log, n) <==> ReachedAndLeft(d.log, n))
    {
      OnEffect(d, command, n);
      if n in Saved(d.file) {
        ByHelperIffReached(d.log, n);
      }
    }
  }

  lemma ByHelperIffReached(log: seq<Entry>, n: Name)
    requires History(log) && Asked(log) == None && OnFile(log, n)
    ensures ByHelper(log, n) <==> ReachedAndLeft(log, n)
  {
    hide History, ByHelper, OnFile, LastFound, SwitchedOnSince;
    var k, c := FoundWhere(log, n);
    WhoSwitchedItOff(log, n, k, c);
    if ReachedAndLeft(log, n) {
      var k': nat, c': nat :| LastFound(log, n, k') && CommandOf(log, k', c') && n in log[c'].names
          && !SwitchedOnSince(log, n, c');
      WhoSwitchedItOff(log, n, k', c');
    }
  }

  /**
   * The log of a desktop whose calls all complete and succeed, with every output on file plugged in, and
   * whose events concern no output on file.
   */
  ghost predicate Undisturbed(log: seq<Entry>) {
    log == [] ||
    var earlier := log[..|log| - 1];
    && Undisturbed(earlier)
    && match log[|log| - 1]
       case Filed(_) => !Succeeded(earlier)
       case SwitchedOff(names) => Asked(earlier) == Some(names)
       case SwitchedOn(names, code) => !Succeeded(earlier) && code == 0 && forall n :: OnFile(earlier, n) ==> n in names
       case Unlinked => Succeeded(earlier)
       case Happened(event) => !OnFile(earlier, event.name)
  }

  /** Undisturbed, the file is exact: it holds what the helper has switched off, or is about to. */
  lemma {:induction false} UndisturbedIsExact(log: seq<Entry>, n: Name)
    requires History(log) && Undisturbed(log)
    ensures if Succeeded(log) then !ByHelper(log, n) && Asked(log) == None
            else OnFile(log, n) <==> ByHelper(log, n) || (Asked(log).Some? && n in Asked(log).value)
  {
    if log != [] {
      UndisturbedIsExact(log[..|log| - 1], n);
    }
  }

  /** Then an on that succeeds switches on exactly the outputs the helper has switched off. */
  lemma UndisturbedRestoresExactly(outputs: map<Name, Output>, calls: seq<Call>, command: Command, n: Name)
    requires var d := Ran(outputs, calls);
      && Undisturbed(d.log) && !Succeeded(d.log)
      && Succeeds(command, Saved(d.file), d.outputs) && n in d.outputs
    ensures var d := Ran(outputs, calls);
      var after := OnDone(d, command, Survives, [], []).0.outputs;
      && (n in Saved(d.file) <==> ByHelper(d.log, n))
      && n in after && (after[n] != d.outputs[n] <==> ByHelper(d.log, n))
  {
    hide History, Undisturbed, OnDone;
    var d := Ran(outputs, calls);
    RunIsSound(outputs, calls);
    UndisturbedIsExact(d.log, n);
    OnEffect(d, command, n);
  }

  /** off dies before its command; the user switches the panel off; on switches it on again. */
  lemma OnCanUndoTheUser() returns (d: Desk)
    ensures var calls := [OffCall(true, Command({}, 0), BeforeCommand, []), Between(SetEnabled("eDP-1", false))];
      d == Ran(map["eDP-1" := Output(true, true), "QUEST-1" := Output(true, true)], calls)
    ensures "eDP-1" in d.outputs && !d.outputs["eDP-1"].enabled && !ByHelper(d.log, "eDP-1")
    ensures var after := OnDone(d, Command({"eDP-1"}, 0), Survives, [], []).0.outputs;
      "eDP-1" in after && after["eDP-1"].enabled
  {
    var start: map<Name, Output> := map["eDP-1" := Output(true, true), "QUEST-1" := Output(true, true)];
    var off := OffCall(true, Command({}, 0), BeforeCommand, []);
    hide ByHelper, Ran;
    NothingRan(start);
    RanSnoc(start, [], off);
    RanSnoc(start, [off], Between(SetEnabled("eDP-1", false)));
    assert [] + [off] == [off];
    assert [off] + [Between(SetEnabled("eDP-1", false))] == [off, Between(SetEnabled("eDP-1", false))];
    DiedBeforeCommand(start);
    d := Happens(Desk(Some({"eDP-1"}), start, [Filed({"eDP-1"}), SwitchedOff({})]), SetEnabled("eDP-1", false));
    assert {"eDP-1"} * {"eDP-1"} * d.outputs.Keys == {"eDP-1"};
    NotByHelper(d.log);
  }

  lemma DiedBeforeCommand(outputs: map<Name, Output>)
    requires outputs == map["eDP-1" := Output(true, true), "QUEST-1" := Output(true, true)]
    ensures CallDone(Desk(None, outputs, []), OffCall(true, Command({}, 0), BeforeCommand, []))
            == Desk(Some({"eDP-1"}), outputs, [Filed({"eDP-1"}), SwitchedOff({})])
  {
    assert IsQuest("QUEST-1") && !IsQuest("eDP-1");
    assert QuestEnabled(outputs);
    assert Physical(outputs) == {"eDP-1"};
    FiledFirst(outputs, {"eDP-1"});
    assert Switched(outputs, {}, false) == outputs;
    assert [Filed({"eDP-1"})] + [SwitchedOff({})] == [Filed({"eDP-1"}), SwitchedOff({})];
  }

  lemma NotByHelper(log: seq<Entry>)
    requires log == [Filed({"eDP-1"}), SwitchedOff({}), Happened(SetEnabled("eDP-1", false))]
    ensures !ByHelper(log, "eDP-1")
  {
    EventsDoNotSwitchOff([Filed({"eDP-1"})], "eDP-1", 0, 1);
    assert [Filed({"eDP-1"})][..1] == [Filed({"eDP-1"})];
    var two := [Filed({"eDP-1"}), SwitchedOff({})];
    assert two[..1] == [Filed({"eDP-1"})];
    assert !ByHelper(two, "eDP-1");
    assert log[..2] == two;
  }
}
