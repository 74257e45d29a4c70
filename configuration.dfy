/** The configuration source (class ConfigurationManager): it holds the last loaded configuration
    document and lists the names of the processes it declares. */
module Configuration {
  import opened Wrappers

  /** One element of the "processes" array; only its "name" field is read. */
  datatype ProcessEntry = ProcessEntry(name: string)

  /** A configuration document whose top-level "processes" member is an array of entries. */
  datatype Document = Document(processes: seq<ProcessEntry>)

  /** What the configuration file holds when it is loaded: nothing (it cannot be opened),
      text that does not parse, or a parsed document. */
  datatype ConfigFile = Missing | Malformed | Parsed(document: Document)

  /** loadConfig: the parsed document, or None (the empty, null Document) when the file is
      missing or does not parse. Both failures give the same result; nothing of an earlier
      load is kept. */
  function LoadConfig(file: ConfigFile): (config: Option<Document>)
    ensures config.Some? <==> file.Parsed?
    ensures file.Parsed? ==> config.value == file.document
  {
    match file
    case Parsed(document) => Some(document)
    case _ => None
  }

  /** A JSON string as the process list sees it: the name is handed over as a C string, so it
      ends at its first NUL character. The result is the longest prefix without a NUL. */
  function CString(s: string): (c: string)
    ensures |c| <= |s| && c == s[..|c|]
    ensures '\0' !in c
    ensures |c| < |s| ==> s[|c|] == '\0'
  {
    if s == [] || s[0] == '\0' then [] else [s[0]] + CString(s[1..])
  }

  /** The names of the entries, one per entry, in the same order, each cut at its first NUL. */
  function Names(entries: seq<ProcessEntry>): (names: seq<string>)
    ensures |names| == |entries|
    ensures forall i :: 0 <= i < |entries| ==> names[i] == CString(entries[i].name)
  {
    if entries == [] then [] else [CString(entries[0].name)] + Names(entries[1..])
  }

  class ConfigurationManager {
    /** The document currently held; None is the null Document a failed load produces. */
    var config: Option<Document>

    /** Loads the configuration once, when the manager is built. */
    constructor (file: ConfigFile)
      ensures config == LoadConfig(file)
    {
      config := LoadConfig(file);
    }

    /** Replaces the held document by whatever a fresh load gives, a failed load included. */
    method ReloadConfiguration(file: ConfigFile)
      modifies this
      ensures config == LoadConfig(file)
    {
      config := LoadConfig(file);
    }

    /** The names of the configured processes, the i-th name being the name of the i-th entry
        up to its first NUL.
        Reading "processes" of a null Document is undefined, so a loaded document is required. */
    method GetProcesses() returns (processes: seq<string>)
      requires config.Some?
      ensures |processes| == |config.value.processes|
      ensures forall i :: 0 <= i < |processes| ==> processes[i] == CString(config.value.processes[i].name)
      ensures processes == Names(config.value.processes)
    {
      var processesArray := config.value.processes;
      processes := [];
      var i := 0;
      while i < |processesArray|
        invariant 0 <= i <= |processesArray|
        invariant processes == Names(processesArray[..i])
      {
        processes := processes + [CString(processesArray[i].name)];
        i := i + 1;
      }
      assert processesArray[..i] == processesArray;
    }
  }
}
