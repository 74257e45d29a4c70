# Process configuration monitor — a Dafny model of its supervision logic

The program supervises a fixed set of OS processes named in a JSON configuration file
(`config.json`). At start-up it logs `Program started.`, reads the process names from the
configuration, and starts every one that is not running, logging `Started process: <name>`. It
then loops forever. Each iteration reads the configuration file. If the file can be opened, it
compares the serialized content of the last document read with the content seen at the last
detected change (initially the empty string). It logs `JSON file has been modified.` or `JSON file has not been modified.`,
and on a change it reloads the configuration. Then it sweeps the processes, restarting every one
that is not running and logging `Restarted process: <name>`. Every audit entry goes to an
append-only log file (`event_log.txt`) as `[<local time>] <message>`.

The model has one module per component of `ProcessConfigMonitor.cpp`:

- `EventLog` — class `EventLogger`: whether the log file opened and the messages written to it.
- `NativeOS` — class `NativeOSAPI`: the record of start requests `(name, parameters)`.
- `Configuration` — the configuration document, `loadConfig` as `LoadConfig`, and class
  `ConfigurationManager` with `reloadConfiguration` and `getProcesses`.
- `ProcessManagement` — class `ProcessManager` (bring-up, sweep, startup parameters). It also holds
  the functions that specify a sweep: `NotRunning` (the listed names found down, in order),
  `StartCalls` and `Notices`.
- `Supervision` — class `Supervisor`: the state of `main` (`previousContent`, the process list taken
  at start-up, the four collaborators). Its constructor is start-up, `Tick` is one loop iteration
  and `Run` is a bounded run of iterations. `TickStep`/`RunSteps` give the state a tick or a run
  leaves, and `TickMessages`/`RunMessages` give what they log.
- `Wrappers` — `Option`.

Whether a process is running is an oracle. Each sweep gets the set of names that the liveness query
reports running at that time. Reading the configuration file for change detection gives
`Option<string>`, the serialized content or `None` when the file cannot be opened. A reload gets a
`ConfigFile`: `Missing`, `Malformed` or `Parsed(document)`.

Facts of the code that the model keeps:

- Every sweep uses the list captured at start-up (`proceses`, lines 228 and 286). The list a
  reload yields (line 265) is only printed. `Tick` returns it as `updatedProcesses`, and
  `processes` never changes.
- A failed reload replaces the held configuration by the null document. No last-known-good
  configuration is kept (lines 153 and 197-201).
- The change message comes before the sweep's restart entries in the same iteration.
- The change detection compares the serialized form of `main`'s `document`. `readJSONFile`
  returns true whenever the file opens, even when it does not parse (lines 28-30), and leaves
  `document` unchanged when the file cannot be opened or does not parse. A malformed file
  therefore counts as readable and gives the serialized form of the last document that parsed. It logs
  `JSON file has been modified.` or `JSON file has not been modified.`, and the comparison
  happens before the liveness sweep.
- Each process name is taken from its JSON string as a C string (line 168), so a name that
  contains a NUL character is cut at its first NUL (`CString`).
- A restart is issued on every tick for every process still down. There is no backoff.
- Processes dropped from the configuration are neither stopped nor unswept, because the swept
  list never changes.

## Model

| member | source | states |
|---|---|---|
| `EventLog.EventLogger.constructor` | ProcessConfigMonitor.cpp:57-62 | the logger starts with no entries and remembers whether opening the log file in append mode succeeded |
| `EventLog.EventLogger.LogEvent` | ProcessConfigMonitor.cpp:70-76 | when the log is open, exactly one entry is appended and it holds the event unchanged; when it is not open, nothing is appended |
| `NativeOS.NativeOSAPI.StartProcess` | ProcessConfigMonitor.cpp:36-39 | each start request is recorded once, with its name and parameters, after all earlier ones |
| `Configuration.LoadConfig` | ProcessConfigMonitor.cpp:177-202 | a load yields a document exactly when the file exists and parses, and then it is the parsed document; a missing or malformed file gives the null document |
| `Configuration.CString` | ProcessConfigMonitor.cpp:168 | the name handed to the process list is the longest prefix of the JSON string without a NUL: it stops at the first NUL or at the end |
| `Configuration.Names` | ProcessConfigMonitor.cpp:160-171 | the names list has one element per entry, and its i-th element is the i-th entry's name up to its first NUL |
| `Configuration.ConfigurationManager.constructor` | ProcessConfigMonitor.cpp:145-148 | the manager holds the result of the initial load |
| `Configuration.ConfigurationManager.ReloadConfiguration` | ProcessConfigMonitor.cpp:150-158 | the held configuration becomes whatever the new load gives, the null document included, whatever was held before |
| `Configuration.ConfigurationManager.GetProcesses` | ProcessConfigMonitor.cpp:160-171 | the returned list has the length of the processes array, and its i-th element is the name of the i-th entry up to its first NUL |
| `ProcessManagement.NotRunningMembers` | ProcessConfigMonitor.cpp:123-132 | a sweep starts a name exactly when it is listed and not running: no unlisted name and no running process is ever started |
| `ProcessManagement.NotRunningAppend` | ProcessConfigMonitor.cpp:124-131 | the sweep keeps list order: sweeping a concatenated list is sweeping its first part and then its second part |
| `ProcessManagement.NotRunningStep` | ProcessConfigMonitor.cpp:124-125 | sweeping one more name adds that name exactly when the oracle reports it not running |
| `ProcessManagement.NotRunningCount` | ProcessConfigMonitor.cpp:123-132 | each name is started as many times as it is listed when it is down, and never when it is running |
| `ProcessManagement.StartCallsAt` | ProcessConfigMonitor.cpp:125-138 | a sweep issues one start request per stopped process, in order, the i-th for the i-th stopped name with the empty parameter list |
| `ProcessManagement.NoticesAt` | ProcessConfigMonitor.cpp:119-129 | the i-th audit entry of a sweep is the prefix followed by the i-th stopped name |
| `ProcessManagement.SweepStep` | ProcessConfigMonitor.cpp:124-130 | one more swept name adds one start request and one entry when it is down, and nothing when it is running |
| `ProcessManagement.AllRunningQuietSweep` | ProcessConfigMonitor.cpp:123-132 | when every listed process is running, a sweep issues no start request and logs nothing |
| `ProcessManagement.ProcessManager.constructor` | ProcessConfigMonitor.cpp:97-98 | the manager works on the given process-control capability and logger |
| `ProcessManagement.ProcessManager.StartProcess` | ProcessConfigMonitor.cpp:114-121 | a process that is down gets one start request with the empty parameters and one `Started process: <name>` entry; a running one gets neither |
| `ProcessManagement.ProcessManager.StartMonitoring` | ProcessConfigMonitor.cpp:100-104 | bring-up appends exactly the start requests and `Started process:` entries of the down processes, in list order |
| `ProcessManagement.ProcessManager.ContinueMonitoring` | ProcessConfigMonitor.cpp:106-108 | the periodic sweep appends exactly the start requests and `Restarted process:` entries of the down processes, in list order |
| `ProcessManagement.ProcessManager.CheckAndRestartProcesses` | ProcessConfigMonitor.cpp:123-132 | the sweep appends exactly the start requests and `Restarted process:` entries of the down processes, in list order, and nothing else |
| `Supervision.NextPrevious` | ProcessConfigMonitor.cpp:253-276 | after a readable iteration the previous content is the content just read; after an unreadable one it is unchanged |
| `Supervision.ChangeMessages` | ProcessConfigMonitor.cpp:243-283 | an unreadable file logs no change message; a readable one logs exactly one, the "modified" one exactly when the content differs from the previous content |
| `Supervision.RestartNoticesAreNotChangeMessages` | ProcessConfigMonitor.cpp:129 | no restart entry can be mistaken for a change message |
| `Supervision.ChangeMessageLeadsTick` | ProcessConfigMonitor.cpp:243-286 | a readable iteration logs exactly one change message, and it precedes every restart entry of that iteration; an unreadable one logs none |
| `Supervision.SecondIdenticalReadNotModified` | ProcessConfigMonitor.cpp:253-282 | reading the same content again on the next readable iteration logs "not modified" |
| `Supervision.SteadyContentModifiedAtMostOnce` | ProcessConfigMonitor.cpp:215-283 | while every readable iteration reads the same content, "modified" is logged once if that content differs from the initial previous content and never otherwise; the previous content ends as that content once any iteration was readable |
| `Supervision.RunStepsKeep` | ProcessConfigMonitor.cpp:228-289 | no run of iterations changes the swept list, which stays the start-up list whatever is reloaded; the previous content follows the readable iterations |
| `Supervision.RunStepsEntries` | ProcessConfigMonitor.cpp:232-289 | a run appends each iteration's change message and restart entries, iteration by iteration, to an open log, and nothing to a closed one |
| `Supervision.RunStepsStarts` | ProcessConfigMonitor.cpp:284-286 | each iteration of a run issues the start requests of one sweep over the start-up list |
| `Supervision.Supervisor.constructor` | ProcessConfigMonitor.cpp:205-230 | start-up logs `Program started.` and then one `Started process:` entry per down process, issues their start requests, takes the process list from the initial configuration and leaves the previous content empty |
| `Supervision.Supervisor.Tick` | ProcessConfigMonitor.cpp:232-288 | one iteration: the previous content is replaced only on a detected change; a change reloads the configuration (even to the null document); the log gets the change message, when the file is readable, before the restart entries; the sweep runs over the start-up list whatever was reloaded |
| `Supervision.Supervisor.Run` | ProcessConfigMonitor.cpp:232-289 | a bounded run of iterations leaves the state that the run's iterations give one after another, with the swept list unchanged |

## Left out

- Wall-clock time: the timestamp of each log line is left out, as is the `getCurrentTime` formatting. Each entry keeps only the message.
- Console output: all `std::cout`/`std::cerr` diagnostics, including the loops that print the monitored and updated process lists.
- `sleep_for` and the unbounded `while (true)`: the model has one iteration (`Tick`) and a finite run of iterations (`Run`).
- File I/O: `readJSONFile`, the `ifstream` in `loadConfig`, and rapidjson parsing and serialization are inputs to each iteration (`Option<string>` and `ConfigFile`). The serialized content is an opaque string.
- `NativeOSAPI`: its bodies are console stubs, and `isProcessRunning` always returns `false`. Liveness is left as an oracle, and `stopProcess` is left out because nothing calls it.
- Liveness within a sweep: the oracle is a snapshot for the whole sweep. A name listed twice is started twice if it is down, even though a real OS might report it running after the first start.
- The log file's earlier contents and the destructor that closes it: the model records only what this run appends.
- Documents without a `processes` array, or entries without a string `name`: rapidjson's behaviour there is undefined, so `Document` always carries named entries.
- Supervision.Supervisor.constructor: requires the initial load to succeed, because `getProcesses` on the null document produced by a failed initial load is undefined in rapidjson.
- Supervision.Supervisor.Tick: when a reload yields the null document, the model skips the `getProcesses` call at line 265 and returns `None`, because that call is undefined in rapidjson; its result is only printed anyway.
- The `document` variable of `main`: only its serialized form is kept. `readJSONFile` (lines 15-31) returns true whenever the file opens, and leaves `document` unchanged when the file cannot be opened or does not parse, so a malformed file gives the serialized form of the last document that parsed (or of the null document before any). The tick input `content` stands for that string: `None` when the file cannot be opened, `Some` of that serialized form otherwise.
