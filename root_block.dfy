/** `RootBlock` (code/src/RootBlock.cpp): the global scope of the
    configuration. Its setters take the raw text of a directive; `setKeyVal`
    dispatches a directive name to the matching setter. */
module RootScope {
  import opened TextUtil

  // ---------------------------------------------------------------------------
  // The status table

  /** The table the constructor fills: status code text to reason phrase. */
  const StatusTable: map<string, string> := map[
    "200" := "OK", "201" := "Created", "202" := "Accepted", "204" := "No Content",
    "300" := "Multiple Choice", "301" := "Moved Permanently", "303" := "See Other",
    "304" := "Not Modified", "307" := "Temporary Redirect", "400" := "Bad Request",
    "401" := "Unauthorized", "403" := "Forbidden", "404" := "Not Found",
    "405" := "Method Not Allowed", "406" := "Not Acceptable", "409" := "Conflict",
    "410" := "Gone", "412" := "Precondition Failed", "414" := "URI Too Long",
    "415" := "Unsupported Media Type", "500" := "Server Error"]

  // ---------------------------------------------------------------------------
  // The settings as one value

  /** The fields of a `RootBlock`. `workerRlimitNofile` is None while it has
      never been assigned: neither constructor initialises that `int`. */
  datatype RootState = RootState(user: string, group: string, workerProcesses: int,
                                 errorLog: string, pid: string, workerRlimitNofile: Option<int>,
                                 workerConnections: int, includeFile: string,
                                 statusCodes: map<string, string>)

  /** What the default constructor leaves. */
  const Fresh: RootState := RootState("", "", 0, "", "", None, 0, "", StatusTable)

  /** What the copy constructor keeps of `s`: user, worker counts, include
      and the status table; group, error_log, pid and the rlimit start over. */
  function CopyOf(s: RootState): (r: RootState)
    ensures r.user == s.user && r.workerProcesses == s.workerProcesses
    ensures r.workerConnections == s.workerConnections && r.includeFile == s.includeFile
    ensures r.statusCodes == s.statusCodes
    ensures r.group == "" && r.errorLog == "" && r.pid == "" && r.workerRlimitNofile.None?
  {
    RootState(s.user, "", s.workerProcesses, "", "", None, s.workerConnections, s.includeFile, s.statusCodes)
  }

  /** Copying a block that has a group, error log or pid set loses them. */
  lemma CopyDropsSettings(s: RootState)
    requires s.group != "" || s.errorLog != "" || s.pid != "" || s.workerRlimitNofile.Some?
    ensures CopyOf(s) != s
    ensures CopyOf(CopyOf(s)) == CopyOf(s)
  {
  }

  // ---------------------------------------------------------------------------
  // setUser

  /** What `setUser` stores: the user, and the group, or None when
      `substr` throws after the user has been stored (whitespace with
      nothing after it). */
  datatype UserGroup = UserGroup(user: string, group: Option<string>)

  /** `setUser` as written: with the first whitespace at `t`, the user is
      `substr(0, t - 1)` (the whole value when `t` is 0, since `t - 1` wraps
      to `npos`) and the group starts at the next non-whitespace character;
      without whitespace, user and group are both the value. */
  function SplitUser(value: string): (r: UserGroup)
  {
    match FindIn(value, Spaces, 0)
    case None => UserGroup(value, Some(value))
    case Some(t) =>
      var user := if t == 0 then value else value[..t - 1];
      match FindNotIn(value, Spaces, t)
      case None => UserGroup(user, None)
      case Some(g) => UserGroup(user, Some(value[g..]))
  }

  /** `setUser` as evidently intended: the user is the text before the
      first whitespace. */
  function SplitUserCorrected(value: string): (r: UserGroup)
  {
    match FindIn(value, Spaces, 0)
    case None => UserGroup(value, Some(value))
    case Some(t) =>
      match FindNotIn(value, Spaces, t)
      case None => UserGroup(value[..t], None)
      case Some(g) => UserGroup(value[..t], Some(value[g..]))
  }

  /** A value without whitespace names both the user and the group. */
  lemma SplitUserSingle(value: string)
    requires NoSpace(value)
    ensures SplitUser(value) == UserGroup(value, Some(value))
    ensures SplitUserCorrected(value) == SplitUser(value)
  {
    assert FindIn(value, Spaces, 0).None?;
  }

  /** The first whitespace of "user group" is the one right after the user. */
  lemma FirstSpaceAfterUser(user: string, rest: string)
    requires NoSpace(user) && rest != [] && IsSpace(rest[0])
    ensures FindIn(user + rest, Spaces, 0) == Some(|user|)
  {
    var v := user + rest;
    FindInSpec(v, Spaces, 0);
    forall k | 0 <= k < |user| ensures v[k] !in Spaces {
      assert v[k] == user[k];
    }
    assert v[|user|] == rest[0];
  }

  /** After a run of whitespace, the next non-whitespace character starts the group. */
  lemma GroupAfterSpaces(pre: string, sep: string, group: string)
    requires forall i :: 0 <= i < |sep| ==> IsSpace(sep[i])
    requires group != [] && !IsSpace(group[0])
    ensures FindNotIn(pre + sep + group, Spaces, |pre|) == Some(|pre| + |sep|)
  {
    var v := pre + sep + group;
    FindNotInSpec(v, Spaces, |pre|);
    forall k | |pre| <= k < |pre| + |sep| ensures v[k] in Spaces {
      assert v[k] == sep[k - |pre|];
    }
    assert v[|pre| + |sep|] == group[0];
  }

  /** Where "user group" splits: the whitespace run starts right after the
      user and the group starts right after that run. */
  lemma UserGroupPositions(user: string, sep: string, group: string)
    requires user != [] && NoSpace(user)
    requires sep != [] && forall i :: 0 <= i < |sep| ==> IsSpace(sep[i])
    requires group != [] && !IsSpace(group[0])
    ensures var v := user + sep + group;
      && FindIn(v, Spaces, 0) == Some(|user|)
      && FindNotIn(v, Spaces, |user|) == Some(|user| + |sep|)
      && v[..|user|] == user && v[|user| + |sep|..] == group
  {
    assert user + sep + group == user + (sep + group);
    FirstSpaceAfterUser(user, sep + group);
    GroupAfterSpaces(user, sep, group);
    var v := user + sep + group;
    assert v[..|user|] == user;
    assert v[|user| + |sep|..] == group;
  }

  /** As written, "user group" stores the user without its last character. */
  lemma SplitUserDropsLastChar(user: string, sep: string, group: string)
    requires user != [] && NoSpace(user)
    requires sep != [] && forall i :: 0 <= i < |sep| ==> IsSpace(sep[i])
    requires group != [] && !IsSpace(group[0])
    ensures SplitUser(user + sep + group) == UserGroup(user[..|user| - 1], Some(group))
  {
    var v := user + sep + group;
    UserGroupPositions(user, sep, group);
    assert v[..|user| - 1] == user[..|user| - 1];
  }

  /** The directive `user www data` stores the user "ww". */
  lemma SplitUserExample()
    ensures SplitUser("www data") == UserGroup("ww", Some("data"))
  {
    assert "www data" == "www" + " " + "data";
    SplitUserDropsLastChar("www", " ", "data");
  }

  /** Corrected, "user group" stores exactly the user and the group. */
  lemma SplitUserCorrectedSplits(user: string, sep: string, group: string)
    requires user != [] && NoSpace(user)
    requires sep != [] && forall i :: 0 <= i < |sep| ==> IsSpace(sep[i])
    requires group != [] && !IsSpace(group[0])
    ensures SplitUserCorrected(user + sep + group) == UserGroup(user, Some(group))
  {
    UserGroupPositions(user, sep, group);
  }

  // ---------------------------------------------------------------------------
  // setKeyVal

  /** The directives `setKeyVal` knows. */
  const RootKeys: set<string> :=
    {"user", "worker_processes", "error_log", "pid", "worker_rlimit_nofile",
     "worker_connections", "include"}

  /** `setKeyVal(key, value)`: the new settings, and false when the setter
      threw (only `setUser` can). */
  function SetKey(s: RootState, key: string, value: string): (RootState, bool)
  {
    match key
    case "user" =>
      var ug := SplitUser(value);
      (s.(user := ug.user, group := if ug.group.Some? then ug.group.value else s.group), ug.group.Some?)
    case "worker_processes" => (s.(workerProcesses := Atoi(value)), true)
    case "error_log" => (s.(errorLog := value), true)
    case "pid" => (s.(pid := value), true)
    case "worker_rlimit_nofile" => (s.(workerRlimitNofile := Some(Atoi(value))), true)
    case "worker_connections" => (s.(workerConnections := Atoi(value)), true)
    case "include" => (s.(includeFile := value), true)
    case _ => (s, true)
  }

  /** An unknown directive changes nothing; a known one changes only the
      fields of its own setter (user and group for "user") and never the
      status table. */
  lemma SetKeyFrame(s: RootState, key: string, value: string)
    ensures var (r, _) := SetKey(s, key, value);
      && (key !in RootKeys ==> r == s)
      && r.statusCodes == s.statusCodes
      && (key != "user" ==> r.user == s.user && r.group == s.group)
      && (key != "worker_processes" ==> r.workerProcesses == s.workerProcesses)
      && (key != "error_log" ==> r.errorLog == s.errorLog)
      && (key != "pid" ==> r.pid == s.pid)
      && (key != "worker_rlimit_nofile" ==> r.workerRlimitNofile == s.workerRlimitNofile)
      && (key != "worker_connections" ==> r.workerConnections == s.workerConnections)
      && (key != "include" ==> r.includeFile == s.includeFile)
  {
  }

  /** The numeric directives store what `atoi` reads: the decimal spelling
      of a count gives back that count. */
  lemma SetKeyNumeric(s: RootState, key: string, n: nat)
    requires key in {"worker_processes", "worker_connections", "worker_rlimit_nofile"}
    ensures var (r, ok) := SetKey(s, key, Decimal(n));
      && ok
      && (key == "worker_processes" ==> r.workerProcesses == n)
      && (key == "worker_connections" ==> r.workerConnections == n)
      && (key == "worker_rlimit_nofile" ==> r.workerRlimitNofile == Some(n))
  {
    AtoiDecimal(n);
  }

  // ---------------------------------------------------------------------------
  // The block

  class RootBlock {
    var user: string
    var group: string
    var workerProcesses: int
    var errorLog: string
    var pid: string
    var workerRlimitNofile: Option<int>
    var workerConnections: int
    var includeFile: string
    var statusCodes: map<string, string>

    function State(): RootState
      reads this
    {
      RootState(user, group, workerProcesses, errorLog, pid, workerRlimitNofile,
                workerConnections, includeFile, statusCodes)
    }

    /** Worker counts 0, empty strings and the 21-entry status table. */
    constructor ()
      ensures State() == Fresh
    {
      user, group, workerProcesses, errorLog, pid := "", "", 0, "", "";
      workerRlimitNofile, workerConnections, includeFile := None, 0, "";
      statusCodes := StatusTable;
    }

    /** The copy constructor. */
    constructor Copy(other: RootBlock)
      ensures State() == CopyOf(other.State())
    {
      user, workerProcesses := other.user, other.workerProcesses;
      workerConnections, includeFile := other.workerConnections, other.includeFile;
      statusCodes := other.statusCodes;
      group, errorLog, pid, workerRlimitNofile := "", "", "", None;
    }

    /** `setUser`. Returns false when `substr` throws; the user has then
        already been stored and the group is unchanged. */
    method SetUser(value: string) returns (ok: bool)
      modifies this`user, this`group
      ensures var ug := SplitUser(value);
        && user == ug.user && ok == ug.group.Some?
        && group == (if ok then ug.group.value else old(group))
    {
      var t := FindIn(value, Spaces, 0);
      if t.Some? {
        user := if t.value == 0 then value else value[..t.value - 1];
        var g := FindNotIn(value, Spaces, t.value);
        if g.None? {
          return false;
        }
        group := value[g.value..];
      } else {
        user := value;
        group := value;
      }
      ok := true;
    }

    method SetWorkerProcesses(value: string)
      modifies this`workerProcesses
      ensures workerProcesses == Atoi(value)
    {
      workerProcesses := Atoi(value);
    }

    method SetErrorLog(value: string)
      modifies this`errorLog
      ensures errorLog == value
    {
      errorLog := value;
    }

    method SetPid(value: string)
      modifies this`pid
      ensures pid == value
    {
      pid := value;
    }

    method SetWorkerRlimitNofile(value: string)
      modifies this`workerRlimitNofile
      ensures workerRlimitNofile == Some(Atoi(value))
    {
      workerRlimitNofile := Some(Atoi(value));
    }

    method SetWorkerConnections(value: string)
      modifies this`workerConnections
      ensures workerConnections == Atoi(value)
    {
      workerConnections := Atoi(value);
    }

    method SetInclude(value: string)
      modifies this`includeFile
      ensures includeFile == value
    {
      includeFile := value;
    }

    /** `setKeyVal`: the matching setter for a known directive, nothing
        otherwise. Returns false when the setter threw. */
    method SetKeyVal(key: string, value: string) returns (ok: bool)
      modifies this
      ensures (State(), ok) == SetKey(old(State()), key, value)
    {
      ok := true;
      if key == "user" {
        ok := SetUser(value);
      } else if key == "worker_processes" {
        SetWorkerProcesses(value);
      } else if key == "error_log" {
        SetErrorLog(value);
      } else if key == "pid" {
        SetPid(value);
      } else if key == "worker_rlimit_nofile" {
        SetWorkerRlimitNofile(value);
      } else if key == "worker_connections" {
        SetWorkerConnections(value);
      } else if key == "include" {
        SetInclude(value);
      }
    }

    /** `getStatusCode(key)`: walks the table entry by entry and returns the
        phrase of the entry whose key is `key`; None stands for the
        `runtime_error` thrown when there is none. */
    method GetStatusCode(key: string) returns (r: Option<string>)
      ensures r.Some? <==> key in statusCodes
      ensures r.Some? ==> r.value == statusCodes[key]
    {
      var remaining := statusCodes.Keys;
      while remaining != {}
        invariant remaining <= statusCodes.Keys
        invariant key in statusCodes ==> key in remaining
        decreases |remaining|
      {
        var k :| k in remaining;
        if k == key {
          return Some(statusCodes[key]);
        }
        remaining := remaining - {k};
      }
      return None;
    }
  }

  /** The constructor's table knows "404" as "Not Found" and has no entry
      for "408", so `getStatusCode("408")` throws; every key is the three
      digits of a code. */
  lemma FreshStatusCodes(key: string)
    ensures "404" in Fresh.statusCodes && Fresh.statusCodes["404"] == "Not Found"
    ensures "408" !in Fresh.statusCodes
    ensures key in Fresh.statusCodes ==> |key| == 3 && AllDigits(key)
  {
  }
}
