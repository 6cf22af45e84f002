/** The logger: a registry of named log files, an activation status and the most
    recently formatted entry. Entries are appended to a `Disk`; the rendered time
    of each entry is passed in by the caller. */
module Logging {
  import opened Wrappers
  import opened FileStore
  import opened EntryFormat

  /** The status codes. The status field also holds "no value" when construction
      returned early. */
  const LogInactive: int := 0
  const LogActive: int := 1
  const LogFailed: int := 2

  const DefaultTimestampFormat: string := "d/m/y - G:i:s"

  /** Whether `entry` attempts a write: the status is truthy, that is, set and
      not zero. A failed log is truthy and keeps trying. */
  function WritesAttempted(status: Option<int>): (on: bool)
    ensures status == None ==> !on
    ensures status == Some(LogInactive) ==> !on
    ensures status == Some(LogActive) ==> on
    ensures status == Some(LogFailed) ==> on
  {
    status.Some? && status.value != 0
  }

  /** Whether a time-stamp format argument replaces the default: null, the empty
      string and "0" are falsy. */
  predicate FormatGiven(format: Option<string>)
  {
    format.Some? && format.value != "" && format.value != "0"
  }

  /** The `logfiles` argument: one path, a table of named paths, or anything else. */
  datatype LogFiles = Single(path: string) | Table(paths: map<string, string>) | Invalid

  datatype LogException = LogException(message: string)

  /** How a call ended: normally, or by throwing. */
  datatype Outcome = Returned | Threw(exception: LogException)

  function OpenFailure(log: string): (e: LogException)
    ensures |e.message| == |"Can't open log file: "| + |log|
    ensures e.message[|"Can't open log file: "|..] == log
  {
    LogException("Can't open log file: " + log)
  }

  /** The path a log name resolves to. An unregistered name yields the empty
      path, which never opens. */
  function PathOf(logs: map<string, string>, log: string): (path: string)
    ensures log in logs ==> path == logs[log]
    ensures log !in logs ==> !Openable({}, path)
  {
    if log in logs then logs[log] else ""
  }

  class Log {
    var logs: map<string, string>
    var entry: string
    var logStatus: Option<int>
    var timestampFormat: string

    /** Builds the registry and activates the log. Any `logfiles` that is neither a
        path nor a table leaves the registry empty and the status unset, and skips
        the time-stamp format. */
    constructor (logfiles: LogFiles, format: Option<string>)
      ensures logfiles.Single? ==> logs == map["default" := logfiles.path]
      ensures logfiles.Table? ==> logs == logfiles.paths
      ensures logfiles.Invalid? ==> logs == map[] && logStatus == None
      ensures !logfiles.Invalid? ==> logStatus == Some(LogActive)
      ensures timestampFormat
        == if !logfiles.Invalid? && FormatGiven(format) then format.value else DefaultTimestampFormat
      ensures entry == ""
    {
      entry := "";
      logStatus := None;
      timestampFormat := DefaultTimestampFormat;
      match logfiles {
        case Table(paths) => logs := paths;
        case Single(path) => logs := map["default" := path];
        case Invalid => logs := map[];
      }
      new;
      if !logfiles.Invalid? {
        if FormatGiven(format) {
          timestampFormat := format.value;
        }
        ActivateLog();
      }
    }

    /** Teardown only deactivates. */
    method Destruct()
      modifies this
      ensures logStatus == Some(LogInactive)
      ensures logs == old(logs) && entry == old(entry) && timestampFormat == old(timestampFormat)
    {
      DeactivateLog();
    }

    /** Formats the line into `entry`, then, when the status is truthy, appends it
        to the file registered under `log`. A failed open sets the status to
        failed and throws, writing nothing. */
    method Entry(content: string, meta: MetaArg, timestamp: bool, log: string, now: string, disk: Disk)
      returns (r: Outcome)
      modifies this, disk
      ensures entry == Line(content, meta, timestamp, now)
      ensures logs == old(logs) && timestampFormat == old(timestampFormat)
      ensures disk.unopenable == old(disk.unopenable)
      ensures !WritesAttempted(old(logStatus)) ==>
        r == Returned && logStatus == old(logStatus) && disk.files == old(disk.files)
      ensures WritesAttempted(old(logStatus)) && Openable(disk.unopenable, PathOf(logs, log)) ==>
        r == Returned && logStatus == old(logStatus)
        && disk.files == Appended(old(disk.files), PathOf(logs, log), entry)
      ensures WritesAttempted(old(logStatus)) && !Openable(disk.unopenable, PathOf(logs, log)) ==>
        r == Threw(OpenFailure(log)) && logStatus == Some(LogFailed) && disk.files == old(disk.files)
    {
      Format(content, meta, timestamp, now);
      r := Returned;
      if WritesAttempted(logStatus) {
        var ok := disk.Append(PathOf(logs, log), entry);
        if !ok {
          logStatus := Some(LogFailed);
          r := Threw(OpenFailure(log));
        }
      }
    }

    /** The formatting half of an entry: clears `entry`, adds the time prefix,
        then one tag per meta item and " - ", then the content and a newline. */
    method Format(content: string, meta: MetaArg, timestamp: bool, now: string)
      modifies this`entry
      ensures entry == Line(content, meta, timestamp, now)
    {
      var stamp := timestamp;
      if meta.Flag? {
        stamp := meta.on;
      }
      entry := "";
      if stamp {
        entry := Prefix(now);
      }
      if meta.Items? && |meta.tags| > 0 {
        AppendTags(meta.tags);
        entry := entry + " - ";
      }
      entry := entry + content + "\n";
      LineParts(content, meta, timestamp, now);
    }

    /** The loop over the meta items: one bracketed tag per item, in order. */
    method AppendTags(tags: seq<string>)
      modifies this`entry
      ensures entry == old(entry) + Tags(tags)
    {
      var i := 0;
      while i < |tags|
        invariant 0 <= i <= |tags|
        invariant entry == old(entry) + Tags(tags[..i])
      {
        TagsSnoc(tags, i);
        entry := entry + Tag(tags[i]);
        i := i + 1;
      }
      assert tags[..i] == tags;
    }

    /** Truncates the file registered under `log`; throws when it cannot be
        opened. The status and the last entry are left alone. */
    method ClearLog(log: string, disk: Disk) returns (r: Outcome)
      modifies disk
      ensures disk.unopenable == old(disk.unopenable)
      ensures Openable(disk.unopenable, PathOf(logs, log)) ==>
        r == Returned && disk.files == Truncated(old(disk.files), PathOf(logs, log))
      ensures !Openable(disk.unopenable, PathOf(logs, log)) ==>
        r == Threw(OpenFailure(log)) && disk.files == old(disk.files)
    {
      var ok := disk.Truncate(PathOf(logs, log));
      r := if ok then Returned else Threw(OpenFailure(log));
    }

    method LastEntry() returns (e: string)
      ensures e == entry
    {
      e := entry;
    }

    method DeactivateLog()
      modifies this
      ensures logStatus == Some(LogInactive)
      ensures logs == old(logs) && entry == old(entry) && timestampFormat == old(timestampFormat)
    {
      logStatus := Some(LogInactive);
    }

    method ActivateLog()
      modifies this
      ensures logStatus == Some(LogActive)
      ensures logs == old(logs) && entry == old(entry) && timestampFormat == old(timestampFormat)
    {
      logStatus := Some(LogActive);
    }
  }

  /** Two named logs: an entry to one leaves the other untouched, and after
      deactivation an entry is formatted but not written. */
  method TwoLogsScenario(now: string)
  {
    var disk := new Disk(map[], {});
    var log := new Log(Table(map["default" := "a.log", "other" := "b.log"]), None);

    var r := log.Entry("hello", Items([]), true, "other", now, disk);
    assert r == Returned;
    assert Contents(disk.files, "b.log") == Prefix(now) + "hello\n";
    assert "a.log" !in disk.files;

    log.DeactivateLog();
    var before := disk.files;
    r := log.Entry("quiet", Flag(false), true, "other", now, disk);
    assert disk.files == before;
    var last := log.LastEntry();
    assert last == "quiet\n";
  }

  /** A failed open marks the log failed and throws; an unregistered name
      fails the same way. */
  method FailureScenario(now: string)
  {
    var disk := new Disk(map[], {"locked.log"});
    var log := new Log(Table(map["bad" := "locked.log"]), None);

    var r := log.Entry("x", Scalar, false, "bad", now, disk);
    assert r == Threw(LogException("Can't open log file: bad"));
    assert log.logStatus == Some(LogFailed);
    r := log.Entry("y", Scalar, false, "missing", now, disk);
    assert r == Threw(OpenFailure("missing"));
    assert disk.files == map[];
  }

  /** A failed log still writes to a file that opens. */
  method RecoveryScenario(now: string)
  {
    var disk := new Disk(map[], {"locked.log"});
    var log := new Log(Table(map["default" := "b.log", "bad" := "locked.log"]), None);
    var r := log.Entry("x", Scalar, false, "bad", now, disk);
    assert log.logStatus == Some(LogFailed);

    TaggedLine("z", ["k"], false, now);
    assert Tags(["k"]) == "[k]";
    r := log.Entry("z", Items(["k"]), false, "default", now, disk);
    assert r == Returned;
    assert Contents(disk.files, "b.log") == "[k] - z\n";
  }

  /** Clearing a log and then writing one entry leaves exactly that entry; the
      status and the last entry survive the clear. */
  method ClearScenario(now: string)
  {
    var disk := new Disk(map["a.log" := "old\n"], {});
    var log := new Log(Single("a.log"), None);
    var r := log.Entry("first", Flag(false), true, "default", now, disk);
    r := log.ClearLog("default", disk);
    assert r == Returned && Contents(disk.files, "a.log") == "";
    assert log.entry == "first\n" && log.logStatus == Some(LogActive);
    r := log.Entry("second", Flag(false), true, "default", now, disk);
    assert Contents(disk.files, "a.log") == "second\n";
  }

  /** A constructor argument that is neither a path nor a table leaves the
      status unset: entries are formatted but never written. */
  method InvalidConstructionScenario(now: string)
  {
    var disk := new Disk(map[], {});
    var log := new Log(Invalid, Some("Y-m-d"));
    assert log.timestampFormat == DefaultTimestampFormat;
    var r := log.Entry("lost", Items(["t"]), true, "default", now, disk);
    assert r == Returned && disk.files == map[];
  }
}
