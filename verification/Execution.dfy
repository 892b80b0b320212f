/** The last steps of the child that depend on its file tree: the out-of-memory score and the
    console (`CreateRequest::wrap`, `setup_console`, src/wrap.rs), and `ExecutableSpec::execute`
    up to the program it finds. */
module Execution {
  import opened Wrappers
  import opened Paths
  import opened IdMappings
  import opened MountTable
  import opened Hardening
  import opened MountCalls
  import opened PivotFs
  import opened StableNodes
  import opened MountAcceptance

  /** A path below the directory of the process itself in procfs. */
  function OfSelf(tail: Path): Path {
    PROC + (["self"] + tail)
  }

  const SCORE: Path := OfSelf(["oom_score_adj"])

  const CONSOLE: Path := ["dev", "console"]

  // ----- writing to a path -----

  /** A missing file is made in an existing directory. */
  function FileMade(sp: Space, q: Path): (r: Option<Space>)
    requires Rooted(sp.table)
    ensures r.Some? ==> r.value.table == sp.table
  {
    if q != [] && StatAt(sp, q[..|q| - 1]) == Exists(Dir) then MakeNode(sp, q, File) else None
  }

  /** `fs::write`: what is there takes the text, on a read-only mount or not, or a file is made. */
  function Written(sp: Space, q: Path, takes: (Loc, bool) -> bool): (r: Option<Space>)
    requires Rooted(sp.table)
    ensures r.Some? ==> r.value.table == sp.table
  {
    match StatAt(sp, q)
    case Exists(File) => if takes(Where(sp, q), Attrs(sp, q).readOnly) then Some(sp) else None
    case NotFound => FileMade(sp, q)
    case _ => None
  }

  /** Writing succeeds exactly on a file that takes the text, or where one can be made. */
  lemma WrittenIff(sp: Space, q: Path, takes: (Loc, bool) -> bool)
    requires Rooted(sp.table) && q != []
    ensures Written(sp, q, takes).Some? <==>
      || (StatAt(sp, q) == Exists(File) && takes(Where(sp, q), Attrs(sp, q).readOnly))
      || (StatAt(sp, q) == NotFound && StatAt(sp, q[..|q| - 1]) == Exists(Dir) && Creatable(sp, q))
  {
  }

  lemma FileMadeGrows(sp: Space, q: Path)
    requires Sane(sp) && StatAt(sp, q) == NotFound && FileMade(sp, q).Some?
    ensures Grows(sp, FileMade(sp, q).value) && StatAt(FileMade(sp, q).value, q) == Exists(File)
  {
    MakeNodeGrows(sp, q, File);
  }

  /** Afterwards there is a file, and nothing that existed is lost. */
  lemma WrittenGrows(sp: Space, q: Path, takes: (Loc, bool) -> bool)
    requires Sane(sp) && Written(sp, q, takes).Some?
    ensures Grows(sp, Written(sp, q, takes).value) && StatAt(Written(sp, q, takes).value, q) == Exists(File)
  {
    if StatAt(sp, q) == NotFound {
      FileMadeGrows(sp, q);
    }
  }

  // ----- the console -----

  function ConsoleMount(terminal: string): MountSpec {
    MountSpec(Some(terminal), "/dev/console", None, true, false, false, false, false, false, None)
  }

  /** The file the terminal is bound over. */
  function ConsoleReady(sp: Space): (r: Option<Space>)
    requires Rooted(sp.table)
    ensures r.Some? ==> r.value.table == sp.table
  {
    if StatAt(sp, CONSOLE).Exists? then Some(sp) else FileMade(sp, CONSOLE)
  }

  /** The link of a standard descriptor, as the tree shows it, names the terminal. */
  function TerminalNamed(sp: Space, descriptor: nat, links: Loc -> Option<string>): Option<string>
    requires Rooted(sp.table)
  {
    var q := OfSelf(["fd", Decimal(descriptor)]);
    if StatAt(sp, q) == Exists(File) then links(Where(sp, q)) else None
  }

  /** The terminal bound over /dev/console. */
  function ConsoleBound(sb: Superblock, sp: Space, descriptor: nat, links: Loc -> Option<string>): (r: Option<Space>)
    requires Rooted(sp.table)
    ensures r.Some? ==> Rooted(r.value.table)
  {
    var terminal :- TerminalNamed(sp, descriptor, links);
    var ready :- ConsoleReady(sp);
    Mounted(sb, ready, ConsoleMount(terminal))
  }

  lemma ConsolePath()
    ensures Components("/dev/console") == CONSOLE
  {
    assert "/dev/console" == "/dev" + "/" + "console";
    ComponentsAppend("/dev", "console");
    OneSegment("dev");
    assert "/dev"[1..] == "dev";
    ConsoleSegment();
  }

  lemma ConsoleSegment()
    ensures Components("console") == ["console"]
  {
    OneComponent("console");
  }

  lemma ConsoleReadyGrows(sp: Space)
    requires Sane(sp) && ConsoleReady(sp).Some?
    ensures Grows(sp, ConsoleReady(sp).value)
  {
    if !StatAt(sp, CONSOLE).Exists? {
      MakeNodeSane(sp, CONSOLE, File);
      assert Where(sp, CONSOLE) !in sp.nodes by { MissingNode(sp); }
    }
  }

  lemma MissingNode(sp: Space)
    requires Rooted(sp.table) && !StatAt(sp, CONSOLE).Exists? && FileMade(sp, CONSOLE).Some?
    ensures Where(sp, CONSOLE) !in sp.nodes
  {
    assert CONSOLE[..|CONSOLE| - 1] == ["dev"];
  }

  /** The file for the console, if there is none yet. */
  lemma ConsoleReadyIff(sp: Space)
    requires Rooted(sp.table)
    ensures ConsoleReady(sp) ==
      if StatAt(sp, CONSOLE).Exists? then Some(sp)
      else if StatAt(sp, ["dev"]) == Exists(Dir) && Creatable(sp, CONSOLE)
      then Some(sp.(nodes := sp.nodes[Where(sp, CONSOLE) := File]))
      else None
  {
    assert CONSOLE[..|CONSOLE| - 1] == ["dev"];
  }

  /** The terminal is bound exactly over a node of its own kind. */
  lemma TerminalAttached(sb: Superblock, ready: Space, terminal: string)
    requires Rooted(ready.table)
    ensures Mounted(sb, ready, ConsoleMount(terminal)).Some? <==>
      && StatAt(ready, CONSOLE).Exists? && StatAt(ready, Components(terminal)) == StatAt(ready, CONSOLE)
      && (StatAt(ready, CONSOLE) == Exists(Dir) ==> !LockedBelow(ready.table, Components(terminal)))
  {
    ConsolePath();
  }

  /** The console is bound exactly if the link of the descriptor names what is, with the file for the
      console there, of the same kind as that. */
  lemma ConsoleBoundIff(sb: Superblock, sp: Space, descriptor: nat, links: Loc -> Option<string>)
    requires Rooted(sp.table)
    ensures var link := ["proc", "self", "fd", Decimal(descriptor)];
            var ready := if StatAt(sp, CONSOLE).Exists? then sp else sp.(nodes := sp.nodes[Where(sp, CONSOLE) := File]);
      ConsoleBound(sb, sp, descriptor, links).Some? <==>
      && StatAt(sp, link) == Exists(File) && links(Where(sp, link)).Some?
      && (StatAt(sp, CONSOLE).Exists? || (StatAt(sp, ["dev"]) == Exists(Dir) && Creatable(sp, CONSOLE)))
      && var terminal := Components(links(Where(sp, link)).value);
         && StatAt(ready, CONSOLE).Exists? && StatAt(ready, terminal) == StatAt(ready, CONSOLE)
         && (StatAt(ready, CONSOLE) == Exists(Dir) ==> !LockedBelow(ready.table, terminal))
  {
    assert OfSelf(["fd", Decimal(descriptor)]) == ["proc", "self", "fd", Decimal(descriptor)];
    ConsoleReadyIff(sp);
    var terminal := TerminalNamed(sp, descriptor, links);
    if terminal.Some? && ConsoleReady(sp).Some? {
      TerminalAttached(sb, ConsoleReady(sp).value, terminal.value);
    }
  }

  lemma TerminalMounted(sb: Superblock, ready: Space, terminal: string)
    requires Sane(ready) && Realistic(sb) && Mounted(sb, ready, ConsoleMount(terminal)).Some?
    ensures var after := Mounted(sb, ready, ConsoleMount(terminal)).value;
      && Where(after, CONSOLE) == Where(ready, Components(terminal))
      && Attrs(after, CONSOLE) == Attrs(ready, Components(terminal))
      && StatAt(after, CONSOLE).Exists?
  {
    ConsolePath();
    MountedShows(sb, ready, ConsoleMount(terminal), []);
    assert CONSOLE + [] == CONSOLE;
    assert Where(ready, Components(terminal)).path + [] == Where(ready, Components(terminal)).path;
    MountedExists(sb, ready, ConsoleMount(terminal));
  }

  lemma OthersStay(sb: Superblock, sp: Space, ready: Space, terminal: string, q: Path)
    requires Sane(sp) && Realistic(sb) && ConsoleReady(sp) == Some(ready)
    requires Mounted(sb, ready, ConsoleMount(terminal)).Some? && !(CONSOLE <= q) && StatAt(sp, q).Exists?
    ensures var after := Mounted(sb, ready, ConsoleMount(terminal)).value;
      StatAt(after, q) == StatAt(sp, q) && Where(after, q) == Where(sp, q)
  {
    ConsolePath();
    ConsoleReadyGrows(sp);
    KindStays(sp, ready, q);
    MountedStat(sb, ready, ConsoleMount(terminal), q);
    MountedKeeps(sb, ready, ConsoleMount(terminal), q);
  }

  /** /dev/console is the terminal then, and whatever exists elsewhere stays, in its place. */
  lemma ConsoleShows(sb: Superblock, sp: Space, descriptor: nat, links: Loc -> Option<string>, q: Path)
    requires Sane(sp) && Realistic(sb)
    ensures var after, terminal := ConsoleBound(sb, sp, descriptor, links), TerminalNamed(sp, descriptor, links);
      after.Some? ==>
      && terminal.Some?
      && Where(after.value, CONSOLE) == Where(sp, Components(terminal.value))
      && Attrs(after.value, CONSOLE) == Attrs(sp, Components(terminal.value))
      && StatAt(after.value, CONSOLE).Exists?
      && (!(CONSOLE <= q) && StatAt(sp, q).Exists? ==>
          StatAt(after.value, q) == StatAt(sp, q) && Where(after.value, q) == Where(sp, q))
  {
    if ConsoleBound(sb, sp, descriptor, links).Some? {
      var terminal, ready := TerminalNamed(sp, descriptor, links).value, ConsoleReady(sp).value;
      ConsoleReadyGrows(sp);
      TerminalMounted(sb, ready, terminal);
      if !(CONSOLE <= q) && StatAt(sp, q).Exists? {
        OthersStay(sb, sp, ready, terminal, q);
      }
    }
  }

  // ----- before the program -----

  /** The place a path text names for a process in a directory. */
  function PathFrom(cwd: Path, text: string): Path {
    if text != "" && text[0] == '/' then Components(text) else cwd + Components(text)
  }

  /** The directory of the process after chdir(2), if one was asked for. */
  function Entered(sp: Space, cwd: Path, directory: Option<string>, enters: (Space, Loc) -> bool): Option<Path>
    requires Rooted(sp.table)
  {
    match directory
    case None => Some(cwd)
    case Some(text) =>
      var q := PathFrom(cwd, text);
      if text != "" && StatAt(sp, q) == Exists(Dir) && enters(sp, Where(sp, q)) then Some(q) else None
  }

  /** `change_onexec`: the node of AppArmor, or the older one only if that is missing. */
  predicate ProfileStaged(sp: Space, takes: (Loc, bool) -> bool)
    requires Rooted(sp.table)
  {
    var newer, older := OfSelf(["attr", "apparmor", "exec"]), OfSelf(["attr", "exec"]);
    match StatAt(sp, newer)
    case Exists(File) => takes(Where(sp, newer), Attrs(sp, newer).readOnly)
    case NotFound => StatAt(sp, older) == Exists(File) && takes(Where(sp, older), Attrs(sp, older).readOnly)
    case _ => false
  }

  // ----- the program -----

  /** What execve(2) of a file comes to: a program runs; the search goes on past a file that may not
      be executed or whose interpreter is missing; or the search ends. */
  datatype Answer = Runs | PassedOver | Fails

  /** Nothing runs off a mount with noexec. */
  function AnswerAt(answers: (Space, Loc) -> Answer, sp: Space, q: Path): Answer
    requires Rooted(sp.table)
  {
    if StatAt(sp, q) == Exists(File) && !Attrs(sp, q).safe then answers(sp, Where(sp, q)) else PassedOver
  }

  /** Where execvpe(3) looks: a name with a separator is a path; any other is looked for in each
      directory of PATH, the empty one being the current. */
  function Candidates(cwd: Path, dirs: seq<string>, name: string): seq<Path> {
    if name == "" then []
    else if '/' in name then [PathFrom(cwd, name)]
    else seq(|dirs|, i requires 0 <= i < |dirs| => PathFrom(cwd, dirs[i]) + [name])
  }

  /** They are tried in their order. */
  function Search(answers: (Space, Loc) -> Answer, sp: Space, paths: seq<Path>): Answer
    requires Rooted(sp.table)
  {
    if paths == [] then PassedOver
    else
      match AnswerAt(answers, sp, paths[0])
      case PassedOver => Search(answers, sp, paths[1..])
      case answer => answer
  }

  predicate FirstToRun(answers: (Space, Loc) -> Answer, sp: Space, paths: seq<Path>, i: nat)
    requires Rooted(sp.table) && i < |paths|
  {
    && AnswerAt(answers, sp, paths[i]) == Runs
    && forall j :: 0 <= j < i ==> AnswerAt(answers, sp, paths[j]) == PassedOver
  }

  /** A program runs exactly if one of the paths leads to one and all before it are passed over. */
  lemma {:induction false} SearchRunsIff(answers: (Space, Loc) -> Answer, sp: Space, paths: seq<Path>)
    requires Rooted(sp.table)
    ensures Search(answers, sp, paths) == Runs <==>
      exists i: nat :: i < |paths| && FirstToRun(answers, sp, paths, i)
    decreases |paths|
  {
    if paths != [] {
      var rest := paths[1..];
      SearchRunsIff(answers, sp, rest);
      if AnswerAt(answers, sp, paths[0]) == Runs {
        assert FirstToRun(answers, sp, paths, 0);
      } else if AnswerAt(answers, sp, paths[0]) == PassedOver {
        if i: nat :| i < |rest| && FirstToRun(answers, sp, rest, i) {
          LaterToRun(answers, sp, paths, i);
        }
        if i: nat :| i < |paths| && FirstToRun(answers, sp, paths, i) {
          assert i != 0;
          LaterToRun(answers, sp, paths, i - 1);
        }
      }
    }
  }

  lemma LaterToRun(answers: (Space, Loc) -> Answer, sp: Space, paths: seq<Path>, i: nat)
    requires Rooted(sp.table) && i + 1 < |paths| && AnswerAt(answers, sp, paths[0]) == PassedOver
    ensures FirstToRun(answers, sp, paths, i + 1) <==> FirstToRun(answers, sp, paths[1..], i)
  {
    assert forall j :: 0 <= j < |paths| - 1 ==> paths[1..][j] == paths[j + 1];
    if FirstToRun(answers, sp, paths, i + 1) {
      forall j | 0 <= j < i
        ensures AnswerAt(answers, sp, paths[1..][j]) == PassedOver
      {
        assert AnswerAt(answers, sp, paths[j + 1]) == PassedOver;
      }
    }
  }

  /** Without a file to execute there is nothing to run. */
  lemma NothingToRun(answers: (Space, Loc) -> Answer, sp: Space, paths: seq<Path>)
    requires Rooted(sp.table) && forall q :: q in paths ==> StatAt(sp, q) != Exists(File) || Attrs(sp, q).safe
    ensures Search(answers, sp, paths) != Runs
  {
    SearchRunsIff(answers, sp, paths);
  }
}
