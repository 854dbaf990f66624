/** What the packaging pass promises: one entry per key, the first registration winning. */
module PackageProperties {
  import opened Wrappers
  import opened Paths
  import opened Environment
  import opened SolutionParser
  import opened Package

  /** The keys of a run of registrations. */
  function Keys(rs: seq<Request>): (ks: set<string>)
    ensures forall i :: 0 <= i < |rs| ==> rs[i].key in ks
    ensures forall k :: k in ks ==> exists i :: 0 <= i < |rs| && rs[i].key == k
    decreases |rs|
  {
    if rs == [] then {}
    else
      var ks := {rs[0].key} + Keys(rs[1..]);
      assert forall i :: 0 < i < |rs| ==> rs[i] == rs[1..][i - 1];
      assert forall k :: k in Keys(rs[1..]) ==> exists i :: 0 <= i < |rs| && rs[i].key == k by {
        forall k | k in Keys(rs[1..]) ensures exists i :: 0 <= i < |rs| && rs[i].key == k {
          var i :| 0 <= i < |rs[1..]| && rs[1..][i].key == k;
          assert rs[i + 1].key == k;
        }
      }
      ks
  }

  function Entries(rs: seq<Request>): (es: seq<Entry>)
    ensures |es| == |rs|
    ensures forall i :: 0 <= i < |rs| ==> es[i] == Entry(rs[i].source, rs[i].entryName)
  {
    if rs == [] then [] else [Entry(rs[0].source, rs[0].entryName)] + Entries(rs[1..])
  }

  /** Reference definition: the registrations whose key is neither in `added` nor seen earlier. */
  function Firsts(added: set<string>, rs: seq<Request>): seq<Request>
    decreases |rs|
  {
    if rs == [] then []
    else if rs[0].key in added then Firsts(added, rs[1..])
    else [rs[0]] + Firsts(added + {rs[0].key}, rs[1..])
  }

  lemma EntriesJoin(rs: seq<Request>, ts: seq<Request>)
    ensures Entries(rs + ts) == Entries(rs) + Entries(ts)
  {
  }

  /** Registration writes exactly the first registration of each new key, in order. */
  lemma {:induction false} RegisteredIsFirsts(a: Archive, rs: seq<Request>)
    ensures Registered(a, rs) == Archive(a.added + Keys(rs), a.entries + Entries(Firsts(a.added, rs)))
    decreases |rs|
  {
    if rs == [] {
      assert a.entries + [] == a.entries;
    } else {
      RegisteredIsFirsts(Step(a, rs[0]), rs[1..]);
      FirstsStep(a, rs);
    }
  }

  lemma FirstsStep(a: Archive, rs: seq<Request>)
    requires rs != []
    ensures var b := Step(a, rs[0]);
      b.added + Keys(rs[1..]) == a.added + Keys(rs) &&
      b.entries + Entries(Firsts(b.added, rs[1..])) == a.entries + Entries(Firsts(a.added, rs))
  {
    KeysCons(rs);
    var r := rs[0];
    if r.key !in a.added {
      EntriesStep(a.entries, r, Firsts(a.added + {r.key}, rs[1..]));
    }
  }

  lemma EntriesStep(es: seq<Entry>, r: Request, tail: seq<Request>)
    ensures (es + [Entry(r.source, r.entryName)]) + Entries(tail) == es + Entries([r] + tail)
  {
    EntriesJoin([r], tail);
  }

  lemma KeysCons(rs: seq<Request>)
    requires rs != []
    ensures Keys(rs) == {rs[0].key} + Keys(rs[1..])
  {
  }

  /** No key is written twice, and none that was already added. */
  lemma {:induction false} FirstsDistinct(added: set<string>, rs: seq<Request>)
    ensures forall j :: 0 <= j < |Firsts(added, rs)| ==> Firsts(added, rs)[j].key !in added
    ensures forall j, k :: 0 <= j < k < |Firsts(added, rs)| ==> Firsts(added, rs)[j].key != Firsts(added, rs)[k].key
    decreases |rs|
  {
    if rs != [] {
      var r := rs[0];
      if r.key in added {
        FirstsDistinct(added, rs[1..]);
        assert Firsts(added, rs) == Firsts(added, rs[1..]);
      } else {
        var tail := Firsts(added + {r.key}, rs[1..]);
        FirstsDistinct(added + {r.key}, rs[1..]);
        var f := [r] + tail;
        assert Firsts(added, rs) == f;
        assert forall j :: 0 < j < |f| ==> f[j] == tail[j - 1];
      }
    }
  }

  /** Every registration that is written is the first one of its key, and its key was new. */
  lemma {:induction false} FirstsSound(added: set<string>, rs: seq<Request>, j: nat)
    requires j < |Firsts(added, rs)|
    ensures exists i ::
      (0 <= i < |rs| && rs[i] == Firsts(added, rs)[j] && rs[i].key !in added &&
       forall h :: 0 <= h < i ==> rs[h].key != rs[i].key)
    decreases |rs|
  {
    var r := rs[0];
    if r.key in added {
      FirstsSound(added, rs[1..], j);
      var i :| 0 <= i < |rs[1..]| && rs[1..][i] == Firsts(added, rs[1..])[j] && rs[1..][i].key !in added
        && forall h :: 0 <= h < i ==> rs[1..][h].key != rs[1..][i].key;
      assert rs[i + 1] == rs[1..][i];
      assert forall h :: 0 < h < i + 1 ==> rs[h] == rs[1..][h - 1];
    } else if j > 0 {
      FirstsSound(added + {r.key}, rs[1..], j - 1);
      var i :| 0 <= i < |rs[1..]| && rs[1..][i] == Firsts(added + {r.key}, rs[1..])[j - 1]
        && rs[1..][i].key !in added + {r.key}
        && forall h :: 0 <= h < i ==> rs[1..][h].key != rs[1..][i].key;
      assert rs[i + 1] == rs[1..][i];
      assert forall h :: 0 < h < i + 1 ==> rs[h] == rs[1..][h - 1];
    } else {
      assert rs[0] == Firsts(added, rs)[0];
    }
  }

  /** The first registration of every new key is written. */
  lemma {:induction false} FirstsComplete(added: set<string>, rs: seq<Request>, i: nat)
    requires i < |rs| && rs[i].key !in added
    requires forall h :: 0 <= h < i ==> rs[h].key != rs[i].key
    ensures rs[i] in Firsts(added, rs)
    decreases |rs|
  {
    var r := rs[0];
    if i > 0 {
      assert rs[1..][i - 1] == rs[i];
      assert forall h :: 0 <= h < i - 1 ==> rs[1..][h] == rs[h + 1];
      if r.key in added {
        FirstsComplete(added, rs[1..], i - 1);
      } else {
        FirstsComplete(added + {r.key}, rs[1..], i - 1);
      }
    }
  }

  // ---------------------------------------------------------------------------
  // The shape of the registrations

  /** Solution items are registered and written under the same name, `name\rel`. */
  lemma {:induction false} FilePlanShape(name: string, dir: string, files: seq<string>)
    ensures var p := FilePlan(name, dir, files);
      p.error.None? <==> forall f :: f in files ==> RelativePath(f, dir, true).Success?
    ensures var p := FilePlan(name, dir, files);
      forall r :: r in p.requests ==>
        (r.source in files && RelativePath(r.source, dir, true).Success? &&
         r.key == r.entryName == Combine(name, RelativePath(r.source, dir, true).value))
    ensures var p := FilePlan(name, dir, files);
      p.error.None? ==> |p.requests| == |files|
    decreases |files|
  {
    if files != [] {
      FilePlanShape(name, dir, files[1..]);
      assert forall f :: f in files <==> f == files[0] || f in files[1..];
    }
  }

  /** Project inputs are registered under the bare `rel` and written as `name\rel`. */
  lemma {:induction false} InputPlanShape(name: string, dir: string, inputs: seq<string>)
    ensures var p := InputPlan(name, dir, inputs);
      p.error.None? <==> forall f :: f in inputs ==> RelativePath(f, dir, true).Success?
    ensures var p := InputPlan(name, dir, inputs);
      forall r :: r in p.requests ==>
        (r.source in inputs && RelativePath(r.source, dir, true) == Success(r.key) &&
         r.entryName == Combine(name, r.key))
    ensures var p := InputPlan(name, dir, inputs);
      p.error.None? ==> |p.requests| == |inputs|
    decreases |inputs|
  {
    if inputs != [] {
      InputPlanShape(name, dir, inputs[1..]);
      assert forall f :: f in inputs <==> f == inputs[0] || f in inputs[1..];
    }
  }

  /** The solution file is always written, first, under `name\file.sln`. */
  lemma SolutionEntryFirst(sln: string, fs: FileSystem)
    ensures var entries := RunOutcome(sln, fs).0;
      entries != [] && entries[0] == Entry(sln, SolutionKey(sln))
  {
    var p := RunPlan(sln, fs);
    var first := Request(SolutionKey(sln), sln, SolutionKey(sln));
    assert p.requests[0] == first;
    RegisteredIsFirsts(Archive({}, []), p.requests);
    assert Firsts({}, p.requests)[0] == first;
  }

  /** When the solution cannot be read, the archive holds the solution file alone. */
  lemma SolutionFailureKeepsSolution(sln: string, fs: FileSystem)
    requires SolutionContents(sln, fs).Failure?
    ensures RunOutcome(sln, fs) == ([Entry(sln, SolutionKey(sln))], Some(SolutionFailed(SolutionContents(sln, fs).error)))
  {
    var first := Request(SolutionKey(sln), sln, SolutionKey(sln));
    assert RunPlan(sln, fs) == Plan([first], Some(SolutionFailed(SolutionContents(sln, fs).error)));
    RegisteredCons(Archive({}, []), first, []);
    assert [first] + [] == [first];
    assert Step(Archive({}, []), first).entries == [] + [Entry(sln, SolutionKey(sln))] == [Entry(sln, SolutionKey(sln))];
  }

  /** The archive Run leaves holds one entry per distinct key: the first registration of it. */
  lemma RunWritesFirsts(sln: string, fs: FileSystem)
    ensures var rs := RunPlan(sln, fs).requests;
      RunOutcome(sln, fs).0 == Entries(Firsts({}, rs)) &&
      forall j, k :: 0 <= j < k < |Firsts({}, rs)| ==> Firsts({}, rs)[j].key != Firsts({}, rs)[k].key
  {
    var rs := RunPlan(sln, fs).requests;
    RegisteredIsFirsts(Archive({}, []), rs);
    assert [] + Entries(Firsts({}, rs)) == Entries(Firsts({}, rs));
    FirstsDistinct({}, rs);
  }

  /**
   * A file that is both a solution item and a project input is written twice under the
   * same entry name: its item key is `name\rel` and its input key is the bare `rel`.
   */
  lemma SameFileWrittenTwice(a: Archive, name: string, f: string, rel: string)
    requires name != [] && rel != [] && !IsPathRooted(rel)
    requires Combine(name, rel) !in a.added && rel !in a.added
    ensures var e := Combine(name, rel);
      Registered(a, [Request(e, f, e), Request(rel, f, e)]).entries == a.entries + [Entry(f, e), Entry(f, e)]
  {
    var e := Combine(name, rel);
    var r1, r2 := Request(e, f, e), Request(rel, f, e);
    assert e != rel;
    RegisteredCons(a, r1, [r2]);
    RegisteredCons(Step(a, r1), r2, []);
    assert [r1] + [r2] == [r1, r2] && [r2] + [] == [r2];
    assert a.entries + [Entry(f, e)] + [Entry(f, e)] == a.entries + [Entry(f, e), Entry(f, e)];
  }
}
