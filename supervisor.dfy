/** The control loop of the supervisor (the body of main).
    Start-up logs "Program started.", takes the process list from the initial configuration and
    brings those processes up. Every tick then compares the serialized content of the last
    document read with the content seen at the last detected change, logs whether it changed, reloads
    the configuration on a change, and sweeps the processes, restarting those that are down.
    The sweep always uses the list taken at start-up; a reload never changes it. */
module Supervision {
  import opened Wrappers
  import opened NativeOS
  import opened EventLog
  import opened Configuration
  import opened ProcessManagement

  const ProgramStarted := "Program started."
  const Modified := "JSON file has been modified."
  const NotModified := "JSON file has not been modified."

  /** Whether a tick detects a change: the file could be opened and the serialized content of
      the last document read differs from the previous content. */
  predicate Changed(previousContent: string, content: Option<string>)
  {
    content.Some? && content.value != previousContent
  }

  /** The previous content after a tick: the content read, when the file could be opened. */
  function NextPrevious(previousContent: string, content: Option<string>): (next: string)
    ensures content.None? ==> next == previousContent
    ensures content.Some? ==> next == content.value
  {
    if Changed(previousContent, content) then content.value else previousContent
  }

  /** The change message a tick logs: none when the file cannot be read, otherwise exactly one,
      which is the "modified" message exactly when the content differs from the previous one. */
  function ChangeMessages(previousContent: string, content: Option<string>): (messages: seq<string>)
    ensures content.None? ==> messages == []
    ensures content.Some? ==> |messages| == 1 && (messages[0] == Modified || messages[0] == NotModified)
    ensures content.Some? ==> (messages[0] == Modified <==> content.value != previousContent)
  {
    match content
    case None => []
    case Some(currentContent) => [if currentContent != previousContent then Modified else NotModified]
  }

  /** Everything a tick writes to an open log, in order. */
  function TickMessages(previousContent: string, content: Option<string>, processes: seq<string>, running: set<string>): (messages: seq<string>)
  {
    ChangeMessages(previousContent, content) + Notices(RestartedPrefix, NotRunning(processes, running))
  }

  predicate IsChangeMessage(message: string)
  {
    message == Modified || message == NotModified
  }

  /** No restart entry reads like a change message. */
  lemma RestartNoticesAreNotChangeMessages(names: seq<string>)
    ensures forall m :: m in Notices(RestartedPrefix, names) ==> !IsChangeMessage(m)
  {
    NoticesAt(RestartedPrefix, names);
    forall m | m in Notices(RestartedPrefix, names) ensures !IsChangeMessage(m) {
      var i :| 0 <= i < |names| && Notices(RestartedPrefix, names)[i] == m;
      assert m[0] == 'R';
    }
  }

  /** A readable tick logs exactly one change message, and it comes before every restart entry
      of that tick; an unreadable tick logs none. */
  lemma {:induction false} ChangeMessageLeadsTick(previousContent: string, content: Option<string>, processes: seq<string>, running: set<string>)
    ensures content.Some? ==>
      |TickMessages(previousContent, content, processes, running)| >= 1 &&
      IsChangeMessage(TickMessages(previousContent, content, processes, running)[0]) &&
      forall m :: m in TickMessages(previousContent, content, processes, running)[1..] ==> !IsChangeMessage(m)
    ensures content.None? ==>
      forall m :: m in TickMessages(previousContent, content, processes, running) ==> !IsChangeMessage(m)
  {
    var restarts := Notices(RestartedPrefix, NotRunning(processes, running));
    RestartNoticesAreNotChangeMessages(NotRunning(processes, running));
    if content.Some? {
      assert TickMessages(previousContent, content, processes, running)[1..] == restarts;
    } else {
      assert TickMessages(previousContent, content, processes, running) == restarts;
    }
  }

  /** Reading the same content on the next readable tick logs "not modified". */
  lemma SecondIdenticalReadNotModified(previousContent: string, currentContent: string)
    ensures ChangeMessages(NextPrevious(previousContent, Some(currentContent)), Some(currentContent)) == [NotModified]
  {
  }

  /** The input of one tick: the serialized content of the last document read, or None when the
      file could not be opened (a file that opens but does not parse leaves the last parsed
      document in place); what a reload would load; and which processes are reported running
      at sweep time. */
  datatype TickInput = TickInput(content: Option<string>, configFile: ConfigFile, running: set<string>)

  /** The previous content after a run of ticks. */
  function PreviousAfter(previousContent: string, inputs: seq<TickInput>): (last: string)
  {
    if inputs == [] then previousContent
    else NextPrevious(PreviousAfter(previousContent, inputs[..|inputs| - 1]), inputs[|inputs| - 1].content)
  }

  /** Everything a run of ticks writes to an open log, in order. */
  function RunMessages(previousContent: string, inputs: seq<TickInput>, processes: seq<string>): (messages: seq<string>)
  {
    if inputs == [] then []
    else
      var earlier := inputs[..|inputs| - 1];
      var last := inputs[|inputs| - 1];
      RunMessages(previousContent, earlier, processes)
        + TickMessages(PreviousAfter(previousContent, earlier), last.content, processes, last.running)
  }

  /** The start requests of a run of ticks: each tick sweeps the same list. */
  function RunStarts(processes: seq<string>, inputs: seq<TickInput>): (calls: seq<StartCall>)
  {
    if inputs == [] then []
    else RunStarts(processes, inputs[..|inputs| - 1]) + StartCalls(NotRunning(processes, inputs[|inputs| - 1].running))
  }

  /** Some tick of the run could read the configuration file. */
  predicate AnyReadable(inputs: seq<TickInput>)
  {
    exists i :: 0 <= i < |inputs| && inputs[i].content.Some?
  }

  /** A run has a readable tick exactly when its earlier ticks have one or its last tick is one. */
  lemma AnyReadableStep(inputs: seq<TickInput>)
    requires inputs != []
    ensures AnyReadable(inputs) <==> AnyReadable(inputs[..|inputs| - 1]) || inputs[|inputs| - 1].content.Some?
  {
  }

  /** When every readable tick of a run reads the same content, the run logs "modified" at most
      once: exactly once if that content differs from the initial previous content, else never. */
  lemma {:induction false} SteadyContentModifiedAtMostOnce(previousContent: string, currentContent: string, inputs: seq<TickInput>, processes: seq<string>)
    requires forall i :: 0 <= i < |inputs| ==> inputs[i].content == None || inputs[i].content == Some(currentContent)
    ensures PreviousAfter(previousContent, inputs) == if AnyReadable(inputs) then currentContent else previousContent
    ensures multiset(RunMessages(previousContent, inputs, processes))[Modified]
         == if AnyReadable(inputs) && currentContent != previousContent then 1 else 0
  {
    if inputs != [] {
      var n := |inputs| - 1;
      var earlier, last := inputs[..n], inputs[n];
      assert forall i :: 0 <= i < |earlier| ==> earlier[i] == inputs[i];
      SteadyContentModifiedAtMostOnce(previousContent, currentContent, earlier, processes);
      AnyReadableStep(inputs);
      var change := ChangeMessages(PreviousAfter(previousContent, earlier), last.content);
      var restarts := Notices(RestartedPrefix, NotRunning(processes, last.running));
      RestartNoticesAreNotChangeMessages(NotRunning(processes, last.running));
      assert IsChangeMessage(Modified) && Modified !in restarts;
      assert RunMessages(previousContent, inputs, processes) == RunMessages(previousContent, earlier, processes) + (change + restarts);
      assert multiset(RunMessages(previousContent, inputs, processes))[Modified]
          == multiset(RunMessages(previousContent, earlier, processes))[Modified] + multiset(change)[Modified] + multiset(restarts)[Modified];
      var before := PreviousAfter(previousContent, earlier);
      assert PreviousAfter(previousContent, inputs) == NextPrevious(before, last.content);
      if last.content.Some? {
        assert before == previousContent || before == currentContent;
        assert multiset(change)[Modified] == if before != currentContent then 1 else 0;
      } else {
        assert change == [];
      }
    }
  }

  /** What the control loop keeps between ticks and what it has done so far: the previous
      content, the swept list, the held configuration, whether the log is open, the log entries
      and the start requests. */
  datatype SupervisorState = SupervisorState(
    previousContent: string,
    processes: seq<string>,
    config: Option<Document>,
    logOpen: bool,
    entries: seq<string>,
    starts: seq<StartCall>)

  /** The state after one tick. */
  function TickStep(s: SupervisorState, input: TickInput): (next: SupervisorState)
  {
    s.(previousContent := NextPrevious(s.previousContent, input.content),
       config := if Changed(s.previousContent, input.content) then LoadConfig(input.configFile) else s.config,
       entries := s.entries + Appended(s.logOpen, TickMessages(s.previousContent, input.content, s.processes, input.running)),
       starts := s.starts + StartCalls(NotRunning(s.processes, input.running)))
  }

  /** The state after a run of ticks, one per input, in order. */
  function RunSteps(s: SupervisorState, inputs: seq<TickInput>): (final: SupervisorState)
  {
    if inputs == [] then s else TickStep(RunSteps(s, inputs[..|inputs| - 1]), inputs[|inputs| - 1])
  }

  /** A run of ticks never changes the swept list or whether the log is open, and leaves the
      previous content its last readable tick read. */
  lemma {:induction false} RunStepsKeep(s: SupervisorState, inputs: seq<TickInput>)
    ensures RunSteps(s, inputs).processes == s.processes
    ensures RunSteps(s, inputs).logOpen == s.logOpen
    ensures RunSteps(s, inputs).previousContent == PreviousAfter(s.previousContent, inputs)
  {
    if inputs != [] {
      RunStepsKeep(s, inputs[..|inputs| - 1]);
    }
  }

  /** A run of ticks appends the run's messages to an open log and nothing to a closed one. */
  lemma {:induction false} RunStepsEntries(s: SupervisorState, inputs: seq<TickInput>)
    ensures RunSteps(s, inputs).entries == s.entries + Appended(s.logOpen, RunMessages(s.previousContent, inputs, s.processes))
  {
    if inputs != [] {
      var earlier, last := inputs[..|inputs| - 1], inputs[|inputs| - 1];
      RunStepsEntries(s, earlier);
      RunStepsKeep(s, earlier);
      AppendedTwice(s.entries, s.logOpen, RunMessages(s.previousContent, earlier, s.processes),
        TickMessages(PreviousAfter(s.previousContent, earlier), last.content, s.processes, last.running));
    }
  }

  /** A run of ticks issues one sweep's start requests per tick, all over the same list. */
  lemma {:induction false} RunStepsStarts(s: SupervisorState, inputs: seq<TickInput>)
    ensures RunSteps(s, inputs).starts == s.starts + RunStarts(s.processes, inputs)
  {
    if inputs != [] {
      var earlier, last := inputs[..|inputs| - 1], inputs[|inputs| - 1];
      RunStepsStarts(s, earlier);
      RunStepsKeep(s, earlier);
      assert RunSteps(s, inputs).starts == RunSteps(s, earlier).starts + StartCalls(NotRunning(s.processes, last.running));
    }
  }

  class Supervisor {
    const osAPI: NativeOSAPI
    const eventLogger: EventLogger
    const configManager: ConfigurationManager
    const processManager: ProcessManager
    /** The serialized content seen at the last detected change; "" before the first one. */
    var previousContent: string
    /** The process list taken from the configuration at start-up; every sweep uses it. */
    var processes: seq<string>

    /** The process manager works on this supervisor's process-control capability and log. */
    ghost predicate Valid()
    {
      processManager.osAPI == osAPI && processManager.eventLogger == eventLogger
    }

    /** The supervisor's observable state. */
    ghost function State(): SupervisorState
      reads this, eventLogger, osAPI, configManager
    {
      SupervisorState(previousContent, processes, configManager.config, eventLogger.isOpen, eventLogger.entries, osAPI.starts)
    }

    /** Start-up: opens the log (`logOpened` says whether that succeeds), loads the configuration,
        logs "Program started.", takes the configured process list and brings the processes up.
        The process list of a null configuration is undefined, so the initial load must succeed. */
    constructor (logOpened: bool, configFile: ConfigFile, running: set<string>)
      requires LoadConfig(configFile).Some?
      ensures Valid()
      ensures fresh(osAPI) && fresh(eventLogger) && fresh(configManager)
      ensures eventLogger.isOpen == logOpened
      ensures configManager.config == LoadConfig(configFile)
      ensures processes == Names(LoadConfig(configFile).value.processes)
      ensures previousContent == ""
      ensures osAPI.starts == StartCalls(NotRunning(processes, running))
      ensures eventLogger.entries == Appended(logOpened, [ProgramStarted] + Notices(StartedPrefix, NotRunning(processes, running)))
    {
      var os := new NativeOSAPI();
      var logger := new EventLogger(logOpened);
      var manager := new ConfigurationManager(configFile);
      var supervisor := new ProcessManager(os, logger);
      logger.LogEvent(ProgramStarted);
      var configured := manager.GetProcesses();
      osAPI, eventLogger, configManager, processManager := os, logger, manager, supervisor;
      previousContent := "";
      processes := configured;
      new;
      processManager.StartMonitoring(processes, running);
    }

    /** One iteration of the control loop. `content` is the serialized configuration, or None when
        the file cannot be opened; `configFile` is what a reload loads; `running` is the liveness
        oracle at sweep time. Returns the process list that a reload yields (None when there was no
        reload or the reload gave a null configuration); it never reaches the sweep. */
    method Tick(content: Option<string>, configFile: ConfigFile, running: set<string>) returns (updatedProcesses: Option<seq<string>>)
      requires Valid()
      modifies this, eventLogger, osAPI, configManager
      ensures Valid()
      ensures processes == old(processes)
      ensures previousContent == NextPrevious(old(previousContent), content)
      ensures configManager.config == if Changed(old(previousContent), content) then LoadConfig(configFile) else old(configManager.config)
      ensures updatedProcesses
           == if Changed(old(previousContent), content) && LoadConfig(configFile).Some?
              then Some(Names(LoadConfig(configFile).value.processes)) else None
      ensures eventLogger.entries
           == old(eventLogger.entries) + Appended(eventLogger.isOpen, TickMessages(old(previousContent), content, processes, running))
      ensures osAPI.starts == old(osAPI.starts) + StartCalls(NotRunning(processes, running))
      ensures State() == TickStep(old(State()), TickInput(content, configFile, running))
    {
      updatedProcesses := None;
      if content.Some? {
        var currentContent := content.value;
        if currentContent != previousContent {
          eventLogger.LogEvent(Modified);
          configManager.ReloadConfiguration(configFile);
          if configManager.config.Some? {
            var updated := configManager.GetProcesses();
            updatedProcesses := Some(updated);
          }
          previousContent := currentContent;
        } else {
          eventLogger.LogEvent(NotModified);
        }
      }
      assert eventLogger.entries == old(eventLogger.entries) + Appended(eventLogger.isOpen, ChangeMessages(old(previousContent), content));
      AppendedTwice(old(eventLogger.entries), eventLogger.isOpen, ChangeMessages(old(previousContent), content),
        Notices(RestartedPrefix, NotRunning(processes, running)));
      processManager.ContinueMonitoring(processes, running);
    }

    /** A bounded run of the control loop: one tick per input, in order. */
    method Run(inputs: seq<TickInput>)
      requires Valid()
      modifies this, eventLogger, osAPI, configManager
      ensures Valid()
      ensures State() == RunSteps(old(State()), inputs)
      ensures processes == old(processes)
      ensures previousContent == PreviousAfter(old(previousContent), inputs)
      ensures eventLogger.entries
           == old(eventLogger.entries) + Appended(eventLogger.isOpen, RunMessages(old(previousContent), inputs, processes))
      ensures osAPI.starts == old(osAPI.starts) + RunStarts(processes, inputs)
    {
      var i := 0;
      while i < |inputs|
        invariant 0 <= i <= |inputs|
        invariant Valid()
        invariant State() == RunSteps(old(State()), inputs[..i])
      {
        assert inputs[..i + 1][..i] == inputs[..i];
        var _ := Tick(inputs[i].content, inputs[i].configFile, inputs[i].running);
        i := i + 1;
      }
      assert inputs[..i] == inputs;
      RunStepsKeep(old(State()), inputs);
      RunStepsEntries(old(State()), inputs);
      RunStepsStarts(old(State()), inputs);
    }
  }
}
