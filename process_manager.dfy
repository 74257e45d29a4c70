/** The supervisor's start and restart logic (class ProcessManager).
    Both bring-up and the periodic sweep walk a list of process names in order, ask whether each
    one is running, and for each one that is not issue one start request with its startup
    parameters and write one audit entry. */
module ProcessManagement {
  import opened NativeOS
  import opened EventLog

  const StartedPrefix := "Started process: "
  const RestartedPrefix := "Restarted process: "

  /** getStartupParameters: no parameters are ever retrieved; every start uses the empty list. */
  function StartupParameters(processName: string): (parameters: seq<string>)
  {
    []
  }

  /** The names of a sweep's list that the oracle reports not running, in list order,
      duplicates kept. */
  function NotRunning(names: seq<string>, running: set<string>): (stopped: seq<string>)
  {
    if names == [] then []
    else (if names[0] in running then [] else [names[0]]) + NotRunning(names[1..], running)
  }

  /** The start requests for the given processes, one per name and in the same order. */
  function StartCalls(names: seq<string>): (calls: seq<StartCall>)
  {
    if names == [] then [] else [StartCall(names[0], StartupParameters(names[0]))] + StartCalls(names[1..])
  }

  /** The audit entries for the given processes, one per name and in the same order. */
  function Notices(prefix: string, names: seq<string>): (entries: seq<string>)
  {
    if names == [] then [] else [prefix + names[0]] + Notices(prefix, names[1..])
  }

  /** A sweep starts exactly the listed names that are not running: no unlisted name and no
      running one. */
  lemma {:induction false} NotRunningMembers(names: seq<string>, running: set<string>)
    ensures |NotRunning(names, running)| <= |names|
    ensures forall n :: n in NotRunning(names, running) <==> n in names && n !in running
  {
    if names != [] {
      NotRunningMembers(names[1..], running);
      assert names == [names[0]] + names[1..];
    }
  }

  /** The i-th start request of a sweep is for the i-th name, with no parameters. */
  lemma {:induction false} StartCallsAt(names: seq<string>)
    ensures |StartCalls(names)| == |names|
    ensures forall i :: 0 <= i < |names| ==> StartCalls(names)[i] == StartCall(names[i], [])
  {
    if names != [] {
      StartCallsAt(names[1..]);
    }
  }

  /** The i-th audit entry of a sweep is the prefix followed by the i-th name. */
  lemma {:induction false} NoticesAt(prefix: string, names: seq<string>)
    ensures |Notices(prefix, names)| == |names|
    ensures forall i :: 0 <= i < |names| ==> Notices(prefix, names)[i] == prefix + names[i]
  {
    if names != [] {
      NoticesAt(prefix, names[1..]);
    }
  }

  /** Sweeping a list is sweeping its first part and then its second part: the sweep keeps
      the list's order. */
  lemma {:induction false} NotRunningAppend(a: seq<string>, b: seq<string>, running: set<string>)
    ensures NotRunning(a + b, running) == NotRunning(a, running) + NotRunning(b, running)
  {
    if a == [] {
      assert a + b == b;
    } else {
      assert (a + b)[0] == a[0];
      assert (a + b)[1..] == a[1..] + b;
      NotRunningAppend(a[1..], b, running);
    }
  }

  /** Sweeping one more name adds that name exactly when it is not running. */
  lemma NotRunningStep(names: seq<string>, i: nat, running: set<string>)
    requires i < |names|
    ensures NotRunning(names[..i + 1], running)
         == NotRunning(names[..i], running) + (if names[i] in running then [] else [names[i]])
  {
    assert names[..i + 1] == names[..i] + [names[i]];
    NotRunningAppend(names[..i], [names[i]], running);
  }

  /** The start requests of a concatenated list are those of its parts, in order. */
  lemma StartCallsAppend(a: seq<string>, b: seq<string>)
    ensures StartCalls(a + b) == StartCalls(a) + StartCalls(b)
  {
    StartCallsAt(a); StartCallsAt(b); StartCallsAt(a + b);
    assert |StartCalls(a + b)| == |StartCalls(a) + StartCalls(b)|;
    forall i | 0 <= i < |a + b| ensures StartCalls(a + b)[i] == (StartCalls(a) + StartCalls(b))[i] {
      if i < |a| { assert (a + b)[i] == a[i]; } else { assert (a + b)[i] == b[i - |a|]; }
    }
  }

  /** The audit entries of a concatenated list are those of its parts, in order. */
  lemma NoticesAppend(prefix: string, a: seq<string>, b: seq<string>)
    ensures Notices(prefix, a + b) == Notices(prefix, a) + Notices(prefix, b)
  {
    NoticesAt(prefix, a); NoticesAt(prefix, b); NoticesAt(prefix, a + b);
    assert |Notices(prefix, a + b)| == |Notices(prefix, a) + Notices(prefix, b)|;
    forall i | 0 <= i < |a + b| ensures Notices(prefix, a + b)[i] == (Notices(prefix, a) + Notices(prefix, b))[i] {
      if i < |a| { assert (a + b)[i] == a[i]; } else { assert (a + b)[i] == b[i - |a|]; }
    }
  }

  /** What sweeping one more name adds to the start requests and to the audit entries. */
  lemma SweepStep(names: seq<string>, i: nat, running: set<string>, prefix: string)
    requires i < |names|
    ensures StartCalls(NotRunning(names[..i + 1], running))
         == StartCalls(NotRunning(names[..i], running)) + (if names[i] in running then [] else [StartCall(names[i], [])])
    ensures Notices(prefix, NotRunning(names[..i + 1], running))
         == Notices(prefix, NotRunning(names[..i], running)) + (if names[i] in running then [] else [prefix + names[i]])
  {
    var step := if names[i] in running then [] else [names[i]];
    NotRunningStep(names, i, running);
    StartCallsAppend(NotRunning(names[..i], running), step);
    NoticesAppend(prefix, NotRunning(names[..i], running), step);
  }

  lemma ConcatAssociative<T>(a: seq<T>, b: seq<T>, c: seq<T>)
    ensures a + b + c == a + (b + c)
  {
  }

  /** A name is swept as often as it occurs in the list when it is not running, and never when
      it is running: exactly one start per listed occurrence of a stopped process. */
  lemma {:induction false} NotRunningCount(names: seq<string>, running: set<string>, n: string)
    ensures multiset(NotRunning(names, running))[n] == if n in running then 0 else multiset(names)[n]
  {
    if names != [] {
      NotRunningCount(names[1..], running, n);
      assert names == [names[0]] + names[1..];
      assert multiset(names) == multiset([names[0]]) + multiset(names[1..]);
    }
  }

  /** When every listed process is running a sweep issues no start request and writes no entry. */
  lemma {:induction false} AllRunningQuietSweep(names: seq<string>, running: set<string>, prefix: string)
    requires forall i :: 0 <= i < |names| ==> names[i] in running
    ensures StartCalls(NotRunning(names, running)) == []
    ensures Notices(prefix, NotRunning(names, running)) == []
  {
    if names != [] {
      AllRunningQuietSweep(names[1..], running, prefix);
    }
  }

  class ProcessManager {
    const osAPI: NativeOSAPI
    const eventLogger: EventLogger

    constructor (osAPI: NativeOSAPI, eventLogger: EventLogger)
      ensures this.osAPI == osAPI && this.eventLogger == eventLogger
    {
      this.osAPI := osAPI;
      this.eventLogger := eventLogger;
    }

    /** Bring-up: starts every listed process the oracle reports not running, in list order,
        logging "Started process: <name>" for each. */
    method StartMonitoring(processes: seq<string>, running: set<string>)
      modifies osAPI, eventLogger
      ensures osAPI.starts == old(osAPI.starts) + StartCalls(NotRunning(processes, running))
      ensures eventLogger.entries
           == old(eventLogger.entries) + Appended(eventLogger.isOpen, Notices(StartedPrefix, NotRunning(processes, running)))
    {
      var i := 0;
      while i < |processes|
        invariant 0 <= i <= |processes|
        invariant osAPI.starts == old(osAPI.starts) + StartCalls(NotRunning(processes[..i], running))
        invariant eventLogger.entries
               == old(eventLogger.entries) + Appended(eventLogger.isOpen, Notices(StartedPrefix, NotRunning(processes[..i], running)))
      {
        var process := processes[i];
        SweepStep(processes, i, running, StartedPrefix);
        ConcatAssociative(old(osAPI.starts), StartCalls(NotRunning(processes[..i], running)),
          if process in running then [] else [StartCall(process, [])]);
        AppendedTwice(old(eventLogger.entries), eventLogger.isOpen, Notices(StartedPrefix, NotRunning(processes[..i], running)),
          if process in running then [] else [StartedPrefix + process]);
        StartProcess(process, running);
        i := i + 1;
      }
      assert processes[..i] == processes;
    }

    /** The periodic sweep. */
    method ContinueMonitoring(processes: seq<string>, running: set<string>)
      modifies osAPI, eventLogger
      ensures osAPI.starts == old(osAPI.starts) + StartCalls(NotRunning(processes, running))
      ensures eventLogger.entries
           == old(eventLogger.entries) + Appended(eventLogger.isOpen, Notices(RestartedPrefix, NotRunning(processes, running)))
    {
      CheckAndRestartProcesses(processes, running);
    }

    /** Starts one process if it is not running, with its startup parameters, and logs it. */
    method StartProcess(processName: string, running: set<string>)
      modifies osAPI, eventLogger
      ensures osAPI.starts
           == old(osAPI.starts) + (if processName in running then [] else [StartCall(processName, [])])
      ensures eventLogger.entries
           == old(eventLogger.entries) + Appended(eventLogger.isOpen, if processName in running then [] else [StartedPrefix + processName])
    {
      if processName !in running {
        var startupParameters := StartupParameters(processName);
        osAPI.StartProcess(processName, startupParameters);
        eventLogger.LogEvent(StartedPrefix + processName);
      }
    }

    /** Restarts, in list order, every listed process the oracle reports not running, logging
        "Restarted process: <name>" for each. */
    method CheckAndRestartProcesses(processes: seq<string>, running: set<string>)
      modifies osAPI, eventLogger
      ensures osAPI.starts == old(osAPI.starts) + StartCalls(NotRunning(processes, running))
      ensures eventLogger.entries
           == old(eventLogger.entries) + Appended(eventLogger.isOpen, Notices(RestartedPrefix, NotRunning(processes, running)))
    {
      var i := 0;
      while i < |processes|
        invariant 0 <= i <= |processes|
        invariant osAPI.starts == old(osAPI.starts) + StartCalls(NotRunning(processes[..i], running))
        invariant eventLogger.entries
               == old(eventLogger.entries) + Appended(eventLogger.isOpen, Notices(RestartedPrefix, NotRunning(processes[..i], running)))
      {
        var process := processes[i];
        SweepStep(processes, i, running, RestartedPrefix);
        ConcatAssociative(old(osAPI.starts), StartCalls(NotRunning(processes[..i], running)),
          if process in running then [] else [StartCall(process, [])]);
        AppendedTwice(old(eventLogger.entries), eventLogger.isOpen, Notices(RestartedPrefix, NotRunning(processes[..i], running)),
          if process in running then [] else [RestartedPrefix + process]);
        if process !in running {
          var startupParameters := StartupParameters(process);
          osAPI.StartProcess(process, startupParameters);
          eventLogger.LogEvent(RestartedPrefix + process);
        }
        i := i + 1;
      }
      assert processes[..i] == processes;
    }
  }
}
