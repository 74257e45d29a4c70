/** The process-control capability (class NativeOSAPI): the supervisor starts processes through it
    and asks it whether a process is running. The model records every start request it receives,
    in order; whether a process is running is an oracle outside the model: the set of
    process names the liveness query reports running at the time of a sweep. */
module NativeOS {

  /** One request to start the named process with the given parameters. */
  datatype StartCall = StartCall(name: string, parameters: seq<string>)

  class NativeOSAPI {
    /** The start requests issued so far, oldest first. */
    var starts: seq<StartCall>

    constructor ()
      ensures starts == []
    {
      starts := [];
    }

    /** Issues one start request and records it. */
    method StartProcess(processName: string, parameters: seq<string>)
      modifies this
      ensures starts == old(starts) + [StartCall(processName, parameters)]
    {
      starts := starts + [StartCall(processName, parameters)];
    }
  }
}
