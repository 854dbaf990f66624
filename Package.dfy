/**
 * The packaging pass of Run: every file the solution names is registered in the
 * archive under a key, and a file whose key was already registered is skipped.
 */
module Package {
  import opened Wrappers
  import opened Paths
  import opened Environment
  import opened SolutionParser
  import opened ProjectInputs

  /** One entry of the archive: the file it is read from and the entry name it is stored under. */
  datatype Entry = Entry(source: string, name: string)

  /** A registration: the key added to the `added` set, the file, and the entry name it would be written as. */
  datatype Request = Request(key: string, source: string, entryName: string)

  /** What aborts Run: the solution exception, or an exception of _GetRelativePath. */
  datatype RunError = SolutionFailed(solutionError: SolutionError) | PathFailed(pathError: PathError)

  /** The registrations made before Run returns, and the exception it ends with, if any. */
  datatype Plan = Plan(requests: seq<Request>, error: Option<RunError>)

  /** The `added` set and the entries written so far. */
  datatype Archive = Archive(added: set<string>, entries: seq<Entry>)

  /** The archive the packager writes into, as the sequence of entries created in it. */
  class ZipArchive {
    var entries: seq<Entry>

    constructor ()
      ensures entries == []
    {
      entries := [];
    }

    /** ZipArchive.CreateEntryFromFile: appends one entry. */
    method CreateEntryFromFile(source: string, name: string)
      modifies this
      ensures entries == old(entries) + [Entry(source, name)]
    {
      entries := entries + [Entry(source, name)];
    }
  }

  // ---------------------------------------------------------------------------
  // Registration: `if (added.Add(key)) zip.CreateEntryFromFile(source, entryName)`

  function Step(a: Archive, r: Request): Archive
  {
    if r.key in a.added then a
    else Archive(a.added + {r.key}, a.entries + [Entry(r.source, r.entryName)])
  }

  /** The archive after the registrations `rs`, one after the other. */
  function Registered(a: Archive, rs: seq<Request>): Archive
    decreases |rs|
  {
    if rs == [] then a else Registered(Step(a, rs[0]), rs[1..])
  }

  /** The request prepended to a plan that does not fail before it. */
  function Prepend(r: Request, p: Plan): Plan
  {
    Plan([r] + p.requests, p.error)
  }

  /** Two stages run in turn: the second only when the first does not throw. */
  function Then(p: Plan, q: Plan): Plan
  {
    if p.error.Some? then p else Plan(p.requests + q.requests, q.error)
  }

  /** The solution items: each is registered under `name\rel`, rel relative to the solution's directory. */
  function FilePlan(name: string, dir: string, files: seq<string>): Plan
    decreases |files|
  {
    if files == [] then Plan([], None)
    else match RelativePath(files[0], dir, true)
      case Failure(e) => Plan([], Some(PathFailed(e)))
      case Success(rel) =>
        var key := Combine(name, rel);
        Prepend(Request(key, files[0], key), FilePlan(name, dir, files[1..]))
  }

  /** A project's inputs: each is registered under the bare `rel`, and written as `name\rel`. */
  function InputPlan(name: string, dir: string, inputs: seq<string>): Plan
    decreases |inputs|
  {
    if inputs == [] then Plan([], None)
    else match RelativePath(inputs[0], dir, true)
      case Failure(e) => Plan([], Some(PathFailed(e)))
      case Success(rel) =>
        Prepend(Request(rel, inputs[0], Combine(name, rel)), InputPlan(name, dir, inputs[1..]))
  }

  /** The projects: each project file under `name\rel`, then its inputs. */
  function ProjectPlan(name: string, dir: string, fs: FileSystem, projects: seq<string>): Plan
    decreases |projects|
  {
    if projects == [] then Plan([], None)
    else match RelativePath(projects[0], dir, true)
      case Failure(e) => Plan([], Some(PathFailed(e)))
      case Success(rel) =>
        var key := Combine(name, rel);
        var inputs := InputPlan(name, dir, ProjectInputsOf(projects[0], [], fs));
        Then(Prepend(Request(key, projects[0], key), inputs), ProjectPlan(name, dir, fs, projects[1..]))
  }

  /** The key and entry name of the solution file itself: `name\file.sln`. */
  function SolutionKey(sln: string): string
  {
    Combine(FileNameWithoutExtension(sln), FileName(sln))
  }

  /** The solution's directory: the directory of its full path. */
  function SolutionDir(sln: string, fs: FileSystem): string
  {
    DirectoryName(fs.fullPath(sln))
  }

  /** Every registration Run makes once the solution has been read as `contents`. */
  function PlanAfter(sln: string, fs: FileSystem, contents: Result<SolutionStuff, SolutionError>): Plan
  {
    var slnp := SolutionKey(sln);
    var first := Request(slnp, sln, slnp);
    match contents
    case Failure(e) => Plan([first], Some(SolutionFailed(e)))
    case Success(ss) =>
      var name := FileNameWithoutExtension(sln);
      var dir := SolutionDir(sln, fs);
      Prepend(first, Then(FilePlan(name, dir, ss.files), ProjectPlan(name, dir, fs, ss.projects)))
  }

  /** Every registration Run makes, in order: the solution, its items, then its projects. */
  function RunPlan(sln: string, fs: FileSystem): Plan
  {
    PlanAfter(sln, fs, SolutionContents(sln, fs))
  }

  /** The entries of the archive Run leaves behind, and the exception it ends with. */
  function RunOutcome(sln: string, fs: FileSystem): (seq<Entry>, Option<RunError>)
  {
    var p := RunPlan(sln, fs);
    (Registered(Archive({}, []), p.requests).entries, p.error)
  }

  lemma {:induction false} RegisteredJoin(a: Archive, rs: seq<Request>, ts: seq<Request>)
    ensures Registered(a, rs + ts) == Registered(Registered(a, rs), ts)
    decreases |rs|
  {
    if rs == [] {
      assert rs + ts == ts;
    } else {
      assert (rs + ts)[0] == rs[0];
      assert (rs + ts)[1..] == rs[1..] + ts;
      RegisteredJoin(Step(a, rs[0]), rs[1..], ts);
    }
  }

  lemma RegisteredCons(a: Archive, r: Request, rs: seq<Request>)
    ensures Registered(a, [r] + rs) == Registered(Step(a, r), rs)
  {
    assert ([r] + rs)[0] == r;
    assert ([r] + rs)[1..] == rs;
  }

  /** Registering the stage `p` and then what follows it is registering `Then(p, q)`. */
  lemma ThenRegistered(a: Archive, p: Plan, q: Plan)
    requires p.error.None?
    ensures Registered(Registered(a, p.requests), q.requests) == Registered(a, Then(p, q).requests)
    ensures Then(p, q).error == q.error
  {
    RegisteredJoin(a, p.requests, q.requests);
  }

  // ---------------------------------------------------------------------------
  // The loops of Run

  /** One `if (added.Add(key)) zip.CreateEntryFromFile(...)`. */
  method Register(zip: ZipArchive, added: set<string>, r: Request) returns (added': set<string>)
    modifies zip
    ensures Archive(added', zip.entries) == Step(Archive(added, old(zip.entries)), r)
  {
    added' := added;
    if r.key !in added {
      added' := added + {r.key};
      zip.CreateEntryFromFile(r.source, r.entryName);
    }
  }

  /** The loop over the solution items. */
  method AddSolutionItems(zip: ZipArchive, added: set<string>, name: string, dir: string, files: seq<string>)
    returns (added': set<string>, error: Option<RunError>)
    modifies zip
    ensures var p := FilePlan(name, dir, files);
      Archive(added', zip.entries) == Registered(Archive(added, old(zip.entries)), p.requests) && error == p.error
  {
    added' := added;
    var i := 0;
    while i < |files|
      invariant i <= |files|
      invariant Registered(Archive(added', zip.entries), FilePlan(name, dir, files[i..]).requests)
             == Registered(Archive(added, old(zip.entries)), FilePlan(name, dir, files).requests)
      invariant FilePlan(name, dir, files[i..]).error == FilePlan(name, dir, files).error
    {
      assert files[i..][0] == files[i] && files[i..][1..] == files[i + 1..];
      var rel := GetRelativePath(files[i], dir, true);
      if rel.Failure? {
        return added', Some(PathFailed(rel.error));
      }
      var key := Combine(name, rel.value);
      RegisteredCons(Archive(added', zip.entries), Request(key, files[i], key), FilePlan(name, dir, files[i + 1..]).requests);
      added' := Register(zip, added', Request(key, files[i], key));
      i := i + 1;
    }
    assert files[i..] == [];
    return added', None;
  }

  /** The loop over one project's inputs. */
  method AddProjectInputs(zip: ZipArchive, added: set<string>, name: string, dir: string, inputs: seq<string>)
    returns (added': set<string>, error: Option<RunError>)
    modifies zip
    ensures var p := InputPlan(name, dir, inputs);
      Archive(added', zip.entries) == Registered(Archive(added, old(zip.entries)), p.requests) && error == p.error
  {
    added' := added;
    var i := 0;
    while i < |inputs|
      invariant i <= |inputs|
      invariant Registered(Archive(added', zip.entries), InputPlan(name, dir, inputs[i..]).requests)
             == Registered(Archive(added, old(zip.entries)), InputPlan(name, dir, inputs).requests)
      invariant InputPlan(name, dir, inputs[i..]).error == InputPlan(name, dir, inputs).error
    {
      assert inputs[i..][0] == inputs[i] && inputs[i..][1..] == inputs[i + 1..];
      var rel := GetRelativePath(inputs[i], dir, true);
      if rel.Failure? {
        return added', Some(PathFailed(rel.error));
      }
      var r := Request(rel.value, inputs[i], Combine(name, rel.value));
      RegisteredCons(Archive(added', zip.entries), r, InputPlan(name, dir, inputs[i + 1..]).requests);
      added' := Register(zip, added', r);
      i := i + 1;
    }
    assert inputs[i..] == [];
    return added', None;
  }

  /** One project file and its inputs. */
  method AddProject(zip: ZipArchive, added: set<string>, name: string, dir: string, fs: FileSystem, project: string)
    returns (added': set<string>, error: Option<RunError>)
    modifies zip
    ensures var p := ProjectPlan(name, dir, fs, [project]);
      Archive(added', zip.entries) == Registered(Archive(added, old(zip.entries)), p.requests) && error == p.error
  {
    assert [project][0] == project && [project][1..] == [];
    var rel := GetRelativePath(project, dir, true);
    if rel.Failure? {
      return added, Some(PathFailed(rel.error));
    }
    var key := Combine(name, rel.value);
    var head := Request(key, project, key);
    var inputs := GetProjectInputs(project, [], fs);
    ghost var ip := InputPlan(name, dir, inputs);
    ghost var a0 := Archive(added, zip.entries);
    added' := Register(zip, added, head);
    added', error := AddProjectInputs(zip, added', name, dir, inputs);
    RegisteredCons(a0, head, ip.requests);
    assert Archive(added', zip.entries) == Registered(a0, Prepend(head, ip).requests);
    assert ProjectPlan(name, dir, fs, [project]) == Then(Prepend(head, ip), Plan([], None));
    if ip.error.None? {
      assert Prepend(head, ip).requests + [] == Prepend(head, ip).requests;
    }
  }

  lemma ProjectPlanCons(name: string, dir: string, fs: FileSystem, projects: seq<string>)
    requires projects != []
    ensures ProjectPlan(name, dir, fs, projects)
         == Then(ProjectPlan(name, dir, fs, [projects[0]]), ProjectPlan(name, dir, fs, projects[1..]))
  {
    var one := [projects[0]];
    assert one[0] == projects[0] && one[1..] == [];
    match RelativePath(projects[0], dir, true)
    case Failure(e) =>
    case Success(rel) =>
      var key := Combine(name, rel);
      var p := Prepend(Request(key, projects[0], key), InputPlan(name, dir, ProjectInputsOf(projects[0], [], fs)));
      assert ProjectPlan(name, dir, fs, one) == Then(p, Plan([], None));
      if p.error.None? {
        assert p.requests + [] == p.requests;
      }
  }

  /** The loop over the projects. */
  method AddProjects(zip: ZipArchive, added: set<string>, name: string, dir: string, fs: FileSystem, projects: seq<string>)
    returns (added': set<string>, error: Option<RunError>)
    modifies zip
    ensures var p := ProjectPlan(name, dir, fs, projects);
      Archive(added', zip.entries) == Registered(Archive(added, old(zip.entries)), p.requests) && error == p.error
  {
    added' := added;
    var i := 0;
    while i < |projects|
      invariant i <= |projects|
      invariant Registered(Archive(added', zip.entries), ProjectPlan(name, dir, fs, projects[i..]).requests)
             == Registered(Archive(added, old(zip.entries)), ProjectPlan(name, dir, fs, projects).requests)
      invariant ProjectPlan(name, dir, fs, projects[i..]).error == ProjectPlan(name, dir, fs, projects).error
    {
      assert projects[i..][0] == projects[i] && projects[i..][1..] == projects[i + 1..];
      ProjectPlanCons(name, dir, fs, projects[i..]);
      ghost var a0 := Archive(added', zip.entries);
      ghost var one := ProjectPlan(name, dir, fs, [projects[i]]);
      ghost var rest := ProjectPlan(name, dir, fs, projects[i + 1..]);
      var failed;
      added', failed := AddProject(zip, added', name, dir, fs, projects[i]);
      if failed.Some? {
        return added', failed;
      }
      ThenRegistered(a0, one, rest);
      i := i + 1;
    }
    assert projects[i..] == [];
    return added', None;
  }

  /** The solution items, then the projects. */
  method AddContents(zip: ZipArchive, added: set<string>, name: string, dir: string, fs: FileSystem, ss: SolutionStuff)
    returns (added': set<string>, error: Option<RunError>)
    modifies zip
    ensures var p := Then(FilePlan(name, dir, ss.files), ProjectPlan(name, dir, fs, ss.projects));
      Archive(added', zip.entries) == Registered(Archive(added, old(zip.entries)), p.requests) && error == p.error
  {
    ghost var fp := FilePlan(name, dir, ss.files);
    ghost var pp := ProjectPlan(name, dir, fs, ss.projects);
    added', error := AddSolutionItems(zip, added, name, dir, ss.files);
    if error.Some? {
      return;
    }
    ghost var a1 := Archive(added', zip.entries);
    ThenRegistered(Archive(added, old(zip.entries)), fp, pp);
    added', error := AddProjects(zip, added', name, dir, fs, ss.projects);
  }

  /** The packaging pass of Run, from the solution entry to the last project input. */
  method Run(sln: string, fs: FileSystem) returns (entries: seq<Entry>, error: Option<RunError>)
    ensures (entries, error) == RunOutcome(sln, fs)
  {
    var zip := new ZipArchive();
    var added: set<string> := {};
    var slnp := Combine(FileNameWithoutExtension(sln), FileName(sln));
    added := Register(zip, added, Request(slnp, sln, slnp));
    var ss := GetSolutionStuff(sln, fs);
    entries, error := Finish(zip, added, sln, fs, ss);
  }

  /** Run after the solution entry: everything the solution's contents name. */
  method Finish(zip: ZipArchive, added: set<string>, sln: string, fs: FileSystem, ss: Result<SolutionStuff, SolutionError>)
    returns (entries: seq<Entry>, error: Option<RunError>)
    requires var slnp := SolutionKey(sln);
      Archive(added, zip.entries) == Step(Archive({}, []), Request(slnp, sln, slnp))
    modifies zip
    ensures var p := PlanAfter(sln, fs, ss);
      entries == Registered(Archive({}, []), p.requests).entries && error == p.error
  {
    var slnp := Combine(FileNameWithoutExtension(sln), FileName(sln));
    var first := Request(slnp, sln, slnp);
    if ss.Failure? {
      assert [first][0] == first && [first][1..] == [];
      return zip.entries, Some(SolutionFailed(ss.error));
    }
    var dir := DirectoryName(fs.fullPath(sln));
    var name := FileNameWithoutExtension(sln);
    ghost var p := Then(FilePlan(name, dir, ss.value.files), ProjectPlan(name, dir, fs, ss.value.projects));
    RegisteredCons(Archive({}, []), first, p.requests);
    var added', failed := AddContents(zip, added, name, dir, fs, ss.value);
    return zip.entries, failed;
  }
}
