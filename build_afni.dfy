/**
 * Parts of AFNI's build helper (src/python_scripts/scripts/build_afni.py):
 * the tcsh-like path splitters `path_head` (`:h`) and `path_tail` (`:t`),
 * and the command-history bookkeeping of `MyInterface.run_command`.
 *
 * What run_command hands to the shell or to Python's `eval` is outside the
 * model: the shell's status and output, whether the `eval` raised, and
 * whether a path names a file are parameters of the method.
 */
module BuildAfni {

  datatype Option<T> = None | Some(value: T)

  // ---------------------------------------------------------------------
  // path_head / path_tail

  /** Python's `str.rfind` for one character: the last index of `c`, or -1. */
  function RFind(s: string, c: char): (i: int)
    ensures -1 <= i < |s|
    ensures 0 <= i ==> s[i] == c
    ensures forall j :: i < j < |s| ==> s[j] != c
    decreases |s|
  {
    if |s| == 0 then -1
    else if s[|s| - 1] == c then |s| - 1
    else RFind(s[..|s| - 1], c)
  }

  /** path_head: the part before the last '/', or the whole path without one. */
  function PathHead(p: string): (h: string)
    ensures '/' !in p ==> h == p
    ensures '/' in p ==> |h| < |p| && h == p[..|h|] && p[|h|] == '/'
  {
    var posn := RFind(p, '/');
    if posn < 0 then p else p[..posn]
  }

  /** path_tail: the part after the last '/', or the whole path without one;
      never containing '/' itself. */
  function PathTail(p: string): (t: string)
    ensures '/' !in t
    ensures '/' !in p ==> t == p
    ensures '/' in p ==> |t| < |p| && t == p[|p| - |t|..] && p[|p| - |t| - 1] == '/'
  {
    var posn := RFind(p, '/');
    if posn < 0 then p
    else
      assert forall j :: posn < j < |p| ==> p[j] != '/';
      p[posn + 1..]
  }

  /** The two halves put back together around the last '/' give the path. */
  lemma HeadSlashTail(p: string)
    requires '/' in p
    ensures PathHead(p) + "/" + PathTail(p) == p
  {
    var posn := RFind(p, '/');
    assert 0 <= posn by {
      var k :| 0 <= k < |p| && p[k] == '/';
    }
    assert p == p[..posn] + [p[posn]] + p[posn + 1..];
  }

  /** The tail of a tail is the tail itself (tcsh `:t:t` is `:t`). */
  lemma TailIdempotent(p: string)
    ensures PathTail(PathTail(p)) == PathTail(p)
  {
  }

  // ---------------------------------------------------------------------
  // run_command

  /** The `params` argument: a string, a list of strings, or anything else. */
  datatype Param = PStr(s: string) | PList(items: seq<string>) | POther

  /** Python's `', '.join(items)`. */
  function Join(items: seq<string>): (r: string)
    ensures |items| == 0 ==> r == ""
    ensures |items| == 1 ==> r == items[0]
    ensures 1 <= |items| ==> items[0] <= r
    ensures 1 <= |items| ==> |items[|items| - 1]| <= |r| && r[|r| - |items[|items| - 1]|..] == items[|items| - 1]
    decreases |items|
  {
    if |items| == 0 then ""
    else if |items| == 1 then items[0]
    else Join(items[..|items| - 1]) + ", " + items[|items| - 1]
  }

  /** The text of the parameters (`pstr`), when they have a usable type. */
  function ParamText(params: Param): (t: Option<string>)
    ensures t.None? <==> params.POther?
    ensures params.PStr? ==> t == Some(params.s)
  {
    match params
    case PStr(s) => Some(s)
    case PList(items) => Some(Join(items))
    case POther => None
  }

  /** `params[0]` and `params[1]` for `mv`: the first two list items, or the
      first two characters of a string. */
  function MoveOperands(params: Param): (r: Option<(string, string)>)
    ensures r.Some? <==> (params.PList? && 2 <= |params.items|) || (params.PStr? && 2 <= |params.s|)
  {
    match params
    case PList(items) => if 2 <= |items| then Some((items[0], items[1])) else None
    case PStr(s) => if 2 <= |s| then Some(([s[0]], [s[1]])) else None
    case POther => None
  }

  /** The history line a call records, or None when it returns `(1, '')`
      without recording anything. `isFile` is what `os.path.isfile(pstr)`
      answers. */
  function HistoryEntry(cmd: string, params: Param, pc: bool, isFile: bool): (e: Option<string>)
    ensures params.POther? ==> e.None?
    ensures !pc && !params.POther? ==>
      e == Some(if ParamText(params).value == "" then cmd else cmd + " " + ParamText(params).value)
    ensures pc && e.Some? ==> cmd in {"cd", "mkdir", "mv", "rmtree"}
    ensures pc && !params.POther? && (cmd == "cd" || cmd == "mkdir" || cmd == "rmtree") ==> e.Some?
    ensures pc && cmd == "mv" ==> (e.Some? <==> MoveOperands(params).Some?)
  {
    match ParamText(params)
    case None => None
    case Some(pstr) =>
      if !pc then Some(if pstr != "" then cmd + " " + pstr else cmd)
      else if cmd == "cd" then Some("os.chdir('" + pstr + "')")
      else if cmd == "mkdir" then Some("os.makedirs('" + pstr + "')")
      else if cmd == "mv" then
        match MoveOperands(params)
        case None => None
        case Some((src, dst)) => Some("os.rename('" + src + "', '" + dst + "')")
      else if cmd == "rmtree" then
        Some(if isFile then "os.remove('" + pstr + "')" else "shutil.rmtree('" + pstr + "')")
      else None
  }

  /** Python commands are recorded as calls into `os` or `shutil`. */
  lemma PythonEntriesAreLibraryCalls(cmd: string, params: Param, isFile: bool)
    requires HistoryEntry(cmd, params, true, isFile).Some?
    ensures var e := HistoryEntry(cmd, params, true, isFile).value;
      (|e| >= 3 && e[..3] == "os.") || (|e| >= 7 && e[..7] == "shutil.")
  {
  }

  /** A system command is recorded starting with the command itself. */
  lemma SystemEntryStartsWithCommand(cmd: string, params: Param, isFile: bool)
    requires !params.POther?
    ensures var e := HistoryEntry(cmd, params, false, isFile).value;
      |cmd| <= |e| && e[..|cmd|] == cmd
  {
    var pstr := ParamText(params).value;
    if pstr != "" {
      assert (cmd + " " + pstr)[..|cmd|] == cmd;
    }
  }

  class Interface {
    /** shell/system command history */
    var history: seq<string>

    constructor ()
      ensures history == []
    {
      history := [];
    }

    /** run_command. The history line, if any, is recorded before the
        command runs, so a command that then fails is still in the history.
        `shell` is what exec_tcsh_command returns for a system command;
        `evalFails` says whether the `eval` of a Python command raises. */
    method RunCommand(cmd: string, params: Param, pc: bool,
                      shell: (int, string), evalFails: bool, isFile: bool)
      returns (st: int, text: string)
      modifies this`history
      ensures HistoryEntry(cmd, params, pc, isFile).None? ==>
        st == 1 && text == "" && history == old(history)
      ensures HistoryEntry(cmd, params, pc, isFile).Some? ==>
        && history == old(history) + [HistoryEntry(cmd, params, pc, isFile).value]
        && st == (if !pc then shell.0 else if evalFails then 1 else 0)
        && text == (if !pc then shell.1 else "")
    {
      var pstr: string;
      match params {
        case PStr(s) => pstr := s;
        case PList(items) => pstr := Join(items);
        case POther => return 1, "";
      }
      if !pc {
        var line := cmd;
        if pstr != "" {
          line := line + " " + pstr;
        }
        history := history + [line];
        return shell.0, shell.1;
      }
      var cstr: string;
      if cmd == "cd" {
        cstr := "os.chdir('" + pstr + "')";
      } else if cmd == "mkdir" {
        cstr := "os.makedirs('" + pstr + "')";
      } else if cmd == "mv" {
        var ops := MoveOperands(params);
        if ops.None? {
          return 1, "";
        }
        cstr := "os.rename('" + ops.value.0 + "', '" + ops.value.1 + "')";
      } else if cmd == "rmtree" {
        if isFile {
          cstr := "os.remove('" + pstr + "')";
        } else {
          cstr := "shutil.rmtree('" + pstr + "')";
        }
      } else {
        return 1, "";
      }
      history := history + [cstr];
      st := if evalFails then 1 else 0;
      text := "";
    }
  }
}
