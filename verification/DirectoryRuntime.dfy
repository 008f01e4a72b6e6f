/** The directory cache as the plugin runtime keeps it: fields its handlers replace, and the loops of a
    snapshot. Each method leaves in the fields what the event of the same name leaves in the cache. */
module DirectoryRuntime {
  import opened Options
  import opened DirectoryLists
  import opened TextOrder
  import opened DirectoryCache
  import opened DirectoryCacheSafety
  import opened DirectoryCacheLaws

  function Outside(roots: set<string>): Page -> bool {
    (p: Page) => p.canonicalRoot !in roots
  }

  lemma {:induction false} FilterAgain(pages: seq<Page>, roots: set<string>, root: string)
    ensures Filter(OfOtherRoots(root), Filter(Outside(roots), pages)) == Filter(Outside(roots + {root}), pages)
  {
    if pages == [] {
    } else {
      FilterAgain(pages[1..], roots, root);
      var rest := Filter(Outside(roots), pages[1..]);
      if Outside(roots)(pages[0]) {
        assert ([pages[0]] + rest)[1..] == rest;
      } else {
        assert Filter(Outside(roots), pages) == rest;
      }
    }
  }

  lemma {:induction false} FilterSame(f: Page -> bool, g: Page -> bool, pages: seq<Page>)
    requires forall p :: p in pages ==> f(p) == g(p)
    ensures Filter(f, pages) == Filter(g, pages)
  {
    if pages == [] {
    } else {
      assert pages[0] in pages;
      FilterSame(f, g, pages[1..]);
    }
  }

  lemma {:induction false} FilterNone(pages: seq<Page>)
    ensures Filter(Outside({}), pages) == pages
  {
    if pages == [] {
    } else {
      FilterNone(pages[1..]);
    }
  }

  // The Projects among the first `count` whose pages the snapshot outdates.
  ghost function OutdatedAmong(previous: seq<Project>, current: seq<Project>, pending: map<string, Pending>,
                               count: nat): set<string>
    requires count <= |previous|
  {
    set k | 0 <= k < count && Outdated(previous, current, pending, previous[k].canonicalRoot) ::
        previous[k].canonicalRoot
  }

  ghost function GivenUpRoots(c: Cache, projects: seq<Project>, roots: set<string>): set<string>
    requires roots <= c.pending.Keys
  {
    set r | r in roots && GivenUp(projects, r, c.pending[r])
  }

  lemma SurvivingIs(c: Cache, projects: seq<Project>)
    requires DistinctRoots(c.projects)
    ensures Filter(Surviving(c, projects), c.pages)
         == Filter(Outside(GivenUpRoots(c, projects, c.pending.Keys)
                           + OutdatedAmong(c.projects, projects, StillPending(c.pending, projects), |c.projects|)),
                               c.pages)
  {
    var pending := StillPending(c.pending, projects);
    var gone := GivenUpRoots(c, projects, c.pending.Keys) + OutdatedAmong(c.projects, projects, pending, |c.projects|);
    forall p | p in c.pages
      ensures Surviving(c, projects)(p) == Outside(gone)(p)
    {
      var was := Live(c.projects, p.canonicalRoot);
      if was.Some? {
        var k :| 0 <= k < |c.projects| && c.projects[k] == was.value;
      }
    }
    FilterSame(Surviving(c, projects), Outside(gone), c.pages);
  }

  class PhotoshopPluginRuntime {
    var ready: bool
    var session: nat
    var projects: seq<Project>
    var directoryPages: seq<Page>
    var expandedDirectories: seq<Entry>
    var destination: Option<Destination>
    var pendingDirectoryRequests: map<string, Pending>
    var nextRequest: nat

    ghost function View(): Cache
      reads this
    {
      Cache(ready, session, projects, directoryPages, expandedDirectories, destination, pendingDirectoryRequests,
          nextRequest)
    }

    ghost predicate Valid()
      reads this
    {
      Inv(View())
    }

    constructor ()
      ensures Valid() && View() == START
    {
      ready, session, projects, directoryPages, expandedDirectories := false, 0, [], [], [];
      destination, pendingDirectoryRequests, nextRequest := None, map[], 0;
    }

    method HandleConnectionState(nowReady: bool)
      modifies this
      ensures View() == TakeStep(old(View()), if nowReady then ConnectionReady else ConnectionNotReady)
      ensures old(Valid()) ==> Valid()
    {
      ready := nowReady;
      if nowReady {
        session := session + 1;
      } else {
        pendingDirectoryRequests := map[];
        projects := [];
        directoryPages := [];
      }
    }

    method RequestDirectories(root: string, requested: Option<seq<string>>, sending: Sending)
      modifies this
      ensures View() == DirectoryCache.RequestDirectories(old(View()), root, requested, sending)
      ensures old(Valid()) ==> Valid()
    {
      if Valid() {
        RequestKeeps(View(), root, requested, sending);
      }
      var project := Live(projects, root);
      if project.None? || !ready { return; }
      if root in pendingDirectoryRequests { return; }
      var named := if requested.Some? then requested.value else Required(Fields(), root);
      var directories := Filter(WantedBy(Fields(), root, requested.Some?), UniqueDirectories(named));
      if |directories| == 0 { return; }
      if sending.NoSession? { return; }
      ShowLoading(project.value, directories);
      if sending.SendFailed? {
        HandleConnectionState(false);
        // The send throws only after that: its handler finds the request already gone.
        assert root !in pendingDirectoryRequests;
      }
    }

    method ShowLoading(project: Project, directories: seq<string>)
      modifies this`pendingDirectoryRequests, this`nextRequest, this`directoryPages
      ensures View() == Ask(old(View()), project, directories)
    {
      var root, revision := project.canonicalRoot, project.revision;
      pendingDirectoryRequests :=
          pendingDirectoryRequests[root := Pending(nextRequest, revision, directories, session, None)];
      nextRequest := nextRequest + 1;
      directoryPages :=
          Upsert(Filter(UpToDate(root, revision), directoryPages), LoadingPages(root, revision, directories));
    }

    // The fields as a value, for the helpers that take the whole snapshot.
    function Fields(): (c: Cache)
      reads this
      ensures c == View()
    {
      Cache(ready, session, projects, directoryPages, expandedDirectories, destination, pendingDirectoryRequests,
          nextRequest)
    }

    method ApplyDirectoryResult(m: DirectoryResult)
      modifies this`pendingDirectoryRequests, this`directoryPages, this`destination, this`expandedDirectories
      ensures View() == ApplyResult(old(View()), m)
    {
      var root := m.canonicalRoot;
      if root !in pendingDirectoryRequests { return; }
      var pending := pendingDirectoryRequests[root];
      if pending.requestId != m.requestId { return; }
      pendingDirectoryRequests := pendingDirectoryRequests - {root};
      if m.outcome.Stale? {
        directoryPages := Filter(OfOtherRoots(root), directoryPages);
        return;
      }
      if !SameDirectorySet(pending.directories, DirectoriesOf(m.outcome.pages)) {
        directoryPages := Filter(OfOtherRoots(root), directoryPages);
        return;
      }
      var pages := PromoteAll(directoryPages, root, m.baseProjectRevision, m.projectRevision);
      pages := Upsert(pages, ResultPages(root, m.projectRevision, m.outcome.pages));
      if destination.Some? && destination.value.canonicalRoot == root {
        var d := destination.value;
        if d.directory != "" && ProvenMissing(pages, root, d.directory, d.projectRevision) {
          destination := None;
        } else {
          destination := Some(d.(projectRevision := m.projectRevision));
        }
      }
      expandedDirectories := Filter((e: Entry) => e.canonicalRoot != root || e.directory == ""
                                                  || !ProvenMissing(pages, e.canonicalRoot, e.directory,
                                                      m.projectRevision),
                                    expandedDirectories);
      directoryPages := pages;
    }

    method HandleDirectoryResult(from: nat, m: DirectoryResult)
      requires ResultOk(m)
      modifies this`pendingDirectoryRequests, this`directoryPages, this`destination, this`expandedDirectories
      ensures View() == HandleResult(old(View()), from, m)
      ensures old(Valid()) ==> Valid()
    {
      if Valid() {
        HandleResultKeeps(View(), from, m);
      }
      if !ready || from != session { return; }
      var root := m.canonicalRoot;
      if root !in pendingDirectoryRequests { return; }
      var pending := pendingDirectoryRequests[root];
      if pending.session != from || pending.requestId != m.requestId
         || pending.baseProjectRevision != m.baseProjectRevision { return; }
      var project := Live(projects, root);
      if project.None? {
        pendingDirectoryRequests := pendingDirectoryRequests - {root};
      } else if m.projectRevision > project.value.revision {
        pendingDirectoryRequests := pendingDirectoryRequests[root := pending.(deferredResult := Some(m))];
      } else if m.projectRevision < project.value.revision {
        pendingDirectoryRequests := pendingDirectoryRequests - {root};
        directoryPages := Filter(OfOtherRoots(root), directoryPages);
      } else {
        ApplyDirectoryResult(m);
      }
    }

    // The first loop of a snapshot: requests that cannot be answered any more are given up.
    method GiveUpRequests(current: seq<Project>)
      modifies this`pendingDirectoryRequests, this`directoryPages
      ensures pendingDirectoryRequests == StillPending(old(pendingDirectoryRequests), current)
      ensures directoryPages ==
                Filter(Outside(GivenUpRoots(old(View()), current, old(pendingDirectoryRequests).Keys)),
                    old(directoryPages))
    {
      ghost var c := View();
      var todo := pendingDirectoryRequests.Keys;
      ghost var done := {};
      NoneLookedAt(c, current);
      while todo != {}
        invariant done + todo == c.pending.Keys && done !! todo
        invariant GivenUpSoFar(c, current, done, pendingDirectoryRequests, directoryPages)
        decreases |todo|
      {
        var root :| root in todo;
        todo := todo - {root};
        OneMoreLookedAt(c, current, done, root);
        if GivenUp(current, root, pendingDirectoryRequests[root]) {
          pendingDirectoryRequests := pendingDirectoryRequests - {root};
          directoryPages := Filter(OfOtherRoots(root), directoryPages);
        }
        done := done + {root};
      }
      AllLookedAt(c, current, done);
    }

    // One Project of the second loop: gone, or moved on with no request pending, it loses its pages.
    method DropIfOutdated(previous: Project, current: seq<Project>, ghost before: set<string>, ghost pages: seq<Page>)
      requires directoryPages == Filter(Outside(before), pages)
      requires Live(projects, previous.canonicalRoot) == Some(previous)
      requires previous.canonicalRoot in pendingDirectoryRequests ==> Live(current, previous.canonicalRoot).Some?
      modifies this`pendingDirectoryRequests, this`directoryPages
      ensures pendingDirectoryRequests == old(pendingDirectoryRequests)
      ensures directoryPages == Filter(Outside(before +
                if Outdated(projects, current, pendingDirectoryRequests, previous.canonicalRoot)
                then {previous.canonicalRoot} else {}), pages)
    {
      var root := previous.canonicalRoot;
      FilterAgain(pages, before, root);
      var now := Live(current, root);
      assert before + {} == before;
      if now.None? {
        directoryPages := Filter(OfOtherRoots(root), directoryPages);
        pendingDirectoryRequests := pendingDirectoryRequests - {root};
        assert pendingDirectoryRequests == old(pendingDirectoryRequests);
      } else if now.value.revision != previous.revision && root !in pendingDirectoryRequests {
        directoryPages := Filter(OfOtherRoots(root), directoryPages);
      }
    }

    method DropOutdated(current: seq<Project>, ghost gone: set<string>, ghost pages: seq<Page>)
      requires directoryPages == Filter(Outside(gone), pages) && DistinctRoots(projects)
      requires forall root :: root in pendingDirectoryRequests ==> Live(current, root).Some?
      modifies this`pendingDirectoryRequests, this`directoryPages
      ensures pendingDirectoryRequests == old(pendingDirectoryRequests)
      ensures directoryPages ==
                Filter(Outside(gone + OutdatedAmong(projects, current, old(pendingDirectoryRequests), |projects|)),
                    pages)
    {
      ghost var pending := pendingDirectoryRequests;
      assert gone + OutdatedAmong(projects, current, pending, 0) == gone;
      for k := 0 to |projects|
        invariant pendingDirectoryRequests == pending
        invariant directoryPages == Filter(Outside(gone + OutdatedAmong(projects, current, pending, k)), pages)
      {
        LiveOf(projects, k);
        OneMoreOutdated(projects, current, pending, k, gone);
        DropIfOutdated(projects[k], current, gone + OutdatedAmong(projects, current, pending, k), pages);
      }
    }

    method HandleProjectsSnapshot(current: seq<Project>, sendings: seq<Sending>)
      requires ready && DistinctRoots(projects) && |sendings| == |current|
      modifies this
      ensures View() == HandleSnapshot(old(View()), current, sendings)
      ensures old(Valid()) && SnapshotOk(old(projects), current) ==> Valid()
    {
      ghost var c := View();
      if Valid() && SnapshotOk(projects, current) {
        HandleSnapshotKeeps(c, current, sendings);
      }
      TakeProjects(current);
      FinishSnapshot(c, current, sendings);
    }

    method TakeProjects(current: seq<Project>)
      requires DistinctRoots(projects)
      modifies this
      ensures View() == TakeSnapshot(old(View()), current)
    {
      ghost var c := View();
      GiveUpRequests(current);
      ghost var gone := GivenUpRoots(c, current, c.pending.Keys);
      DropOutdated(current, gone, c.pages);
      SurvivingIs(c, current);
      if destination.Some? {
        var project := Live(current, destination.value.canonicalRoot);
        if project.None? {
          destination := None;
        } else {
          destination :=
              Some(destination.value.(projectName := project.value.name, projectRevision := project.value.revision));
        }
      }
      projects := current;
      expandedDirectories := Filter((e: Entry) => Live(current, e.canonicalRoot).Some?, expandedDirectories);
    }

    // The last two loops: deferred answers that now fit are applied, then every Project is asked for again.
    method ApplyDeferredResults(current: seq<Project>)
      modifies this`pendingDirectoryRequests, this`directoryPages, this`destination, this`expandedDirectories
      ensures View() == ApplyAllDeferred(old(View()), current, |current|)
    {
      for k := 0 to |current|
        invariant View() == ApplyAllDeferred(old(View()), current, k)
      {
        var root := current[k].canonicalRoot;
        if root in pendingDirectoryRequests {
          var deferred := pendingDirectoryRequests[root].deferredResult;
          if deferred.Some? && deferred.value.projectRevision == current[k].revision {
            ApplyDirectoryResult(deferred.value);
          }
        }
      }
    }

    method FinishSnapshot(ghost c: Cache, current: seq<Project>, sendings: seq<Sending>)
      requires |sendings| == |current| && View() == TakeSnapshot(c, current)
      modifies this
      ensures View() == HandleSnapshot(c, current, sendings)
    {
      ApplyDeferredResults(current);
      ghost var applied := View();
      for k := 0 to |current|
        invariant View() == RequestAll(applied, current, sendings, k)
      {
        RequestDirectories(current[k].canonicalRoot, None, sendings[k]);
      }
    }

    method SelectDestination(root: string, directory: string) returns (selected: bool)
      requires Valid()
      modifies this`destination, this`expandedDirectories
      ensures selected == Selectable(old(View()), root, directory)
      ensures View() == Select(old(View()), root, directory) && Valid()
      ensures SelectedAs(old(View()), View(), root, directory)
    {
      ChoiceKeeps(View(), root, directory, Sent);
      SelectsExactly(View(), root, directory);
      selected := TrySelect(root, directory);
    }

    method TrySelect(root: string, directory: string) returns (selected: bool)
      modifies this`destination, this`expandedDirectories
      ensures selected == Selectable(old(View()), root, directory)
      ensures View() == Select(old(View()), root, directory)
    {
      var project := Live(projects, root);
      if project.None? { return false; }
      if directory != "" && !IsLoadedChild(Fields(), root, directory) { return false; }
      destination := Some(Destination(root, project.value.name, project.value.revision, directory));
      expandedDirectories := WithExpandedAncestors(expandedDirectories, root, directory);
      selected := true;
    }

    method ExpandDestination(root: string, directory: string, sending: Sending)
      modifies this
      ensures View() == Expand(old(View()), root, directory, sending)
      ensures old(Valid()) ==> Valid()
    {
      if Valid() {
        ChoiceKeeps(View(), root, directory, sending);
      }
      if Live(projects, root).None? { return; }
      if directory != "" && !IsLoadedChild(Fields(), root, directory) { return; }
      if Entry(root, directory) in expandedDirectories { return; }
      expandedDirectories := WithExpandedAncestors(expandedDirectories, root, directory) + [Entry(root, directory)];
      RequestDirectories(root, Some([directory]), sending);
    }

    method CollapseDestination(root: string, directory: string)
      modifies this`expandedDirectories
      ensures View() == Collapse(old(View()), root, directory)
      ensures old(Valid()) ==> Valid()
    {
      expandedDirectories := Filter((e: Entry) => e != Entry(root, directory), expandedDirectories);
    }

    method ActivateDestination(root: string, directory: string, sending: Sending)
      requires Valid()
      modifies this
      ensures View() == Activate(old(View()), root, directory, sending) && Valid()
      ensures !Choosable(old(View()), root, directory) ==> View() == old(View())
      ensures Choosable(old(View()), root, directory) ==>
                && Chosen(old(View()), destination, root, directory)
                && (Entry(root, directory) in expandedDirectories <==>
                    Entry(root, directory) !in old(expandedDirectories))
    {
      ActivatesExactly(View(), root, directory, sending);
      ActivateKeeps(View(), root, directory, sending);
      var expanded := Entry(root, directory) in expandedDirectories;
      var selected := TrySelect(root, directory);
      if !selected { return; }
      if expanded {
        CollapseDestination(root, directory);
      } else {
        ExpandDestination(root, directory, sending);
      }
    }
  }

  function Without(pending: map<string, Pending>, roots: set<string>): map<string, Pending> {
    map r | r in pending && r !in roots :: pending[r]
  }

  // The requests and the pages once the roots of `done` were looked at.
  ghost predicate GivenUpSoFar(c: Cache, current: seq<Project>, done: set<string>, pending: map<string, Pending>,
                               pages: seq<Page>) {
    && done <= c.pending.Keys
    && pending == Without(c.pending, GivenUpRoots(c, current, done))
    && pages == Filter(Outside(GivenUpRoots(c, current, done)), c.pages)
  }

  lemma NoneLookedAt(c: Cache, current: seq<Project>)
    ensures GivenUpSoFar(c, current, {}, c.pending, c.pages)
  {
    FilterNone(c.pages);
    assert GivenUpRoots(c, current, {}) == {};
    assert c.pending == Without(c.pending, {});
  }

  lemma AllLookedAt(c: Cache, current: seq<Project>, done: set<string>)
    requires done == c.pending.Keys
    ensures Without(c.pending, GivenUpRoots(c, current, done)) == StillPending(c.pending, current)
  {}

  lemma OneMoreLookedAt(c: Cache, current: seq<Project>, done: set<string>, root: string)
    requires done <= c.pending.Keys && root in c.pending && root !in done
    ensures var pending := Without(c.pending, GivenUpRoots(c, current, done));
            var pages := Filter(Outside(GivenUpRoots(c, current, done)), c.pages);
            && root in pending && pending[root] == c.pending[root]
            && if GivenUp(current, root, c.pending[root]) then
                 GivenUpSoFar(c, current, done + {root}, pending - {root}, Filter(OfOtherRoots(root), pages))
               else GivenUpSoFar(c, current, done + {root}, pending, pages)
  {
    FilterAgain(c.pages, GivenUpRoots(c, current, done), root);
    if GivenUp(current, root, c.pending[root]) {
      assert GivenUpRoots(c, current, done + {root}) == GivenUpRoots(c, current, done) + {root};
    } else {
      assert GivenUpRoots(c, current, done + {root}) == GivenUpRoots(c, current, done);
    }
  }

  lemma OneMoreOutdated(previous: seq<Project>, current: seq<Project>, pending: map<string, Pending>, k: nat,
                        gone: set<string>)
    requires k < |previous|
    ensures gone + OutdatedAmong(previous, current, pending, k + 1)
         == gone + OutdatedAmong(previous, current, pending, k)
            + if Outdated(previous, current, pending, previous[k].canonicalRoot) then {previous[k].canonicalRoot}
                else {}
  {}
}
