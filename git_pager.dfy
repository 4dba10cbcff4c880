/**
 * The pager session of src/git_pager.rs: building the pager command from `core.pager`,
 * the terminal gate, starting the pager with a fall-back to stdout when it cannot be
 * spawned, the choice of writer, and waiting for the pager when the session ends.
 *
 * shlex's word splitting is an input (the words it yields); the process environment is
 * the set of variable names that are set; spawning is a function from the command to the
 * child it starts, if any; whether stdout and stderr are terminals are parameters.
 */
module GitPager {
  import opened Base

  /** `DEFAULT_ENV`: set on the pager only when the variable is not already set. */
  const DEFAULT_ENV: seq<(string, string)> := [("LESS", "FRX"), ("LV", "-c")]
  /** `REQUIRED_ENV`: always set on the pager. */
  const REQUIRED_ENV: seq<(string, string)> := [("LESSCHARSET", "UTF-8")]

  /** A `std::process::Command` as `parse` builds it: the program, its arguments, the
      variables it sets (in order; a later one wins) and whether stdin is piped. */
  datatype Command = Command(program: string, args: seq<string>, env: seq<(string, string)>, pipedStdin: bool)

  /** The value a command's environment gives `key`: its last setting. */
  function EnvLookup(env: seq<(string, string)>, key: string): Option<string>
    decreases |env|
  {
    if |env| == 0 then None
    else if env[|env| - 1].0 == key then Some(env[|env| - 1].1)
    else EnvLookup(env[..|env| - 1], key)
  }

  /** The pairs of `defaults` whose variable is not set in the process environment. */
  function UnsetDefaults(defaults: seq<(string, string)>, environment: set<string>): (r: seq<(string, string)>)
    ensures |r| <= |defaults|
    decreases |defaults|
  {
    if |defaults| == 0 then []
    else
      var rest := UnsetDefaults(defaults[..|defaults| - 1], environment);
      var last := defaults[|defaults| - 1];
      if last.0 in environment then rest else rest + [last]
  }

  /** The command `parse` builds from the words of `core.pager`: none for an empty command
      line or for `cat`. */
  function CommandFor(words: seq<string>, environment: set<string>): Option<Command> {
    if |words| == 0 || words[0] == "cat" then None
    else Some(Command(words[0], words[1..], REQUIRED_ENV + UnsetDefaults(DEFAULT_ENV, environment), true))
  }

  /** `parse`: creates the command from the first word, pipes its stdin, passes the other
      words as arguments, sets the required variables and then the defaults not already set. */
  method Parse(words: seq<string>, environment: set<string>) returns (cmd: Option<Command>)
    ensures cmd == CommandFor(words, environment)
  {
    if |words| == 0 {
      return None;
    }
    var program := words[0];
    if program == "cat" {
      return None;
    }
    var c := Command(program, [], [], false);
    c := c.(pipedStdin := true);
    c := c.(args := c.args + words[1..]);
    c := c.(env := c.env + REQUIRED_ENV);
    for i := 0 to |DEFAULT_ENV|
      invariant c == Command(program, words[1..], REQUIRED_ENV + UnsetDefaults(DEFAULT_ENV[..i], environment), true)
    {
      assert DEFAULT_ENV[..i + 1][..i] == DEFAULT_ENV[..i];
      if DEFAULT_ENV[i].0 !in environment {
        c := c.(env := c.env + [DEFAULT_ENV[i]]);
      }
    }
    assert DEFAULT_ENV[..|DEFAULT_ENV|] == DEFAULT_ENV;
    return Some(c);
  }

  /** A later setting of a variable overrides an earlier one. */
  lemma {:induction false} EnvLookupAppend(a: seq<(string, string)>, b: seq<(string, string)>, key: string)
    ensures EnvLookup(a + b, key) == if EnvLookup(b, key).Some? then EnvLookup(b, key) else EnvLookup(a, key)
    decreases |b|
  {
    if |b| == 0 {
      assert a + b == a;
    } else {
      assert (a + b)[..|a + b| - 1] == a + b[..|b| - 1];
      EnvLookupAppend(a, b[..|b| - 1], key);
    }
  }

  /** The defaults kept are `LESS=FRX` unless `LESS` is set, then `LV=-c` unless `LV` is set. */
  lemma UnsetDefaultsOfPager(environment: set<string>)
    ensures UnsetDefaults(DEFAULT_ENV, environment) ==
              (if "LESS" in environment then [] else [("LESS", "FRX")]) +
              (if "LV" in environment then [] else [("LV", "-c")])
  {
    assert DEFAULT_ENV[..1] == [("LESS", "FRX")] && DEFAULT_ENV[..1][..0] == [];
  }

  /** The pager gets `LESSCHARSET=UTF-8` whatever the environment holds, and `LESS=FRX` and
      `LV=-c` exactly when those variables are not already set. */
  lemma PagerEnvironment(words: seq<string>, environment: set<string>)
    requires CommandFor(words, environment).Some?
    ensures var env := CommandFor(words, environment).value.env;
            EnvLookup(env, "LESSCHARSET") == Some("UTF-8") &&
            EnvLookup(env, "LESS") == (if "LESS" in environment then None else Some("FRX")) &&
            EnvLookup(env, "LV") == (if "LV" in environment then None else Some("-c"))
  {
    var x: seq<(string, string)> := if "LESS" in environment then [] else [("LESS", "FRX")];
    var y: seq<(string, string)> := if "LV" in environment then [] else [("LV", "-c")];
    UnsetDefaultsOfPager(environment);
    assert REQUIRED_ENV + UnsetDefaults(DEFAULT_ENV, environment) == (REQUIRED_ENV + x) + y;
    EnvLookupAppend(REQUIRED_ENV + x, y, "LESSCHARSET");
    EnvLookupAppend(REQUIRED_ENV, x, "LESSCHARSET");
    EnvLookupAppend(REQUIRED_ENV + x, y, "LESS");
    EnvLookupAppend(REQUIRED_ENV, x, "LESS");
    EnvLookupAppend(REQUIRED_ENV + x, y, "LV");
    EnvLookupAppend(REQUIRED_ENV, x, "LV");
  }

  /** `parse` refuses exactly an empty command line and `cat`; otherwise the first word is
      the program and the rest its arguments. */
  lemma ParseCases(words: seq<string>, environment: set<string>)
    ensures CommandFor(words, environment).None? <==> |words| == 0 || words[0] == "cat"
    ensures CommandFor(words, environment).Some? ==>
              CommandFor(words, environment).value.program == words[0] &&
              [CommandFor(words, environment).value.program] + CommandFor(words, environment).value.args == words &&
              CommandFor(words, environment).value.pipedStdin
  {
  }

  /** `Pager`: the command to run, if paging. */
  datatype Pager = Pager(cmd: Option<Command>)

  /** `Pager::stdout`: a command only when stdout is a terminal. */
  function Stdout(words: seq<string>, environment: set<string>, stdoutTerminal: bool): (p: Pager)
    ensures !stdoutTerminal ==> p.cmd.None?
    ensures stdoutTerminal ==> p.cmd == CommandFor(words, environment)
  {
    Pager(if stdoutTerminal then CommandFor(words, environment) else None)
  }

  /** A spawned pager process: whether its stdin handle is available. */
  datatype Child = Child(hasStdin: bool)

  /** Where `as_writer` sends the output. */
  datatype Writer = PrimaryStdout | PagerStdin

  datatype IoError = BrokenPipe(message: string)

  /** `ActivePager`: the locked stdout, the locked stderr when the pager got it, the child
      if one was spawned, and whether it has been waited on. */
  class ActivePager {
    var pager: Option<Child>
    var secondary: bool
    var waited: bool

    /** `Pager::start`: spawns the command if there is one; without a command, or when the
        spawn fails, there is no child. stderr is locked only alongside a child. */
    constructor Start(p: Pager, spawn: Command -> Option<Child>, stderrTerminal: bool)
      ensures pager == (if p.cmd.Some? then spawn(p.cmd.value) else None)
      ensures secondary == (pager.Some? && stderrTerminal)
      ensures !waited
    {
      if p.cmd.Some? {
        var child := spawn(p.cmd.value);
        if child.Some? {
          pager := child;
          secondary := stderrTerminal;
        } else {
          pager := None;
          secondary := false;
        }
      } else {
        pager := None;
        secondary := false;
      }
      waited := false;
    }

    /** `ActivePager::as_writer`: the pager's stdin when there is a child, and a broken
        pipe when its stdin is gone; stdout when there is no child. */
    method AsWriter() returns (r: Result<Writer, IoError>)
      ensures pager.None? <==> r == Ok(PrimaryStdout)
      ensures pager.Some? && pager.value.hasStdin <==> r == Ok(PagerStdin)
      ensures pager.Some? && !pager.value.hasStdin <==> r.Err?
      ensures r.Err? ==> r.error == BrokenPipe("could not access pager stdin")
    {
      if pager.Some? {
        if pager.value.hasStdin {
          return Ok(PagerStdin);
        }
        return Err(BrokenPipe("could not access pager stdin"));
      }
      return Ok(PrimaryStdout);
    }

    /** `Drop for ActivePager`: waits for the child, if there is one. */
    method Drop()
      modifies this`waited
      ensures waited == (old(waited) || pager.Some?)
    {
      if pager.Some? {
        waited := true;
      }
    }
  }

  /** A whole session: the pager is started, written to and dropped. The child is waited
      on exactly when one was spawned, and the output goes to stdout exactly when none was. */
  method Session(p: Pager, spawn: Command -> Option<Child>, stderrTerminal: bool)
    returns (writer: Result<Writer, IoError>, waited: bool)
    ensures waited <==> p.cmd.Some? && spawn(p.cmd.value).Some?
    ensures writer == Ok(PrimaryStdout) <==> p.cmd.None? || spawn(p.cmd.value).None?
  {
    var active := new ActivePager.Start(p, spawn, stderrTerminal);
    writer := active.AsWriter();
    active.Drop();
    waited := active.waited;
  }
}
