/** Directory-cache coherence in every order of snapshots, answers, requests, choices and lost connections. */
module DirectoryCacheSafety {
  import opened Options
  import opened DirectoryLists
  import opened TextOrder
  import opened DirectoryCache

  predicate PageOk(page: Page, projects: seq<Project>, pending: map<string, Pending>) {
    var project := Live(projects, page.canonicalRoot);
    && project.Some?
    && if page.canonicalRoot in pending then
         var request := pending[page.canonicalRoot];
         && page.projectRevision == request.baseProjectRevision
         && (page.status.Loading? ==> page.directory in request.directories)
       else page.projectRevision == project.value.revision && !page.status.Loading?
  }

  ghost predicate PagesOk(pages: seq<Page>, projects: seq<Project>, pending: map<string, Pending>) {
    forall p :: p in pages ==> PageOk(p, projects, pending)
  }

  predicate SameSlot(p: Page, q: Page) {
    p.canonicalRoot == q.canonicalRoot && p.directory == q.directory
  }

  ghost predicate Unique(pages: seq<Page>) {
    pages == [] || ((forall p :: p in pages[1..] ==> !SameSlot(p, pages[0])) && Unique(pages[1..]))
  }

  ghost predicate DeferredOk(root: string, request: Pending, m: DirectoryResult, live: nat) {
    && m.canonicalRoot == root
    && m.requestId == request.requestId
    && m.baseProjectRevision == request.baseProjectRevision
    && m.projectRevision >= live
    && ResultOk(m)
  }

  ghost predicate RequestOk(root: string, request: Pending, projects: seq<Project>) {
    var project := Live(projects, root);
    && project.Some?
    && request.baseProjectRevision <= project.value.revision <= request.baseProjectRevision + 1
    && Distinct(request.directories)
    && (request.deferredResult.Some? ==>
        DeferredOk(root, request, request.deferredResult.value, project.value.revision))
  }

  ghost predicate PendingOk(pending: map<string, Pending>, projects: seq<Project>) {
    forall root :: root in pending ==> RequestOk(root, pending[root], projects)
  }

  // A deferred answer still waits for a later snapshot.
  predicate StillEarly(root: string, pending: map<string, Pending>, projects: seq<Project>) {
    root in pending && pending[root].deferredResult.Some? && Live(projects, root).Some? ==>
      pending[root].deferredResult.value.projectRevision > Live(projects, root).value.revision
  }

  ghost predicate DestinationOk(destination: Option<Destination>, projects: seq<Project>) {
    destination.Some? && Live(projects, destination.value.canonicalRoot).Some? ==>
      destination.value.projectRevision == Live(projects, destination.value.canonicalRoot).value.revision
  }

  // What also holds in the middle of a snapshot, before the deferred answers are looked at.
  ghost predicate Coherent(c: Cache) {
    && PagesOk(c.pages, c.projects, c.pending)
    && Unique(c.pages)
    && PendingOk(c.pending, c.projects)
    && DestinationOk(c.destination, c.projects)
    && DistinctRoots(c.projects)
    && (!c.ready ==> c.projects == [])
  }

  ghost predicate Inv(c: Cache) {
    Coherent(c) && forall root :: StillEarly(root, c.pending, c.projects)
  }

  // ---------- Lists of pages ----------

  lemma {:induction false} FilterUnique(keep: Page -> bool, pages: seq<Page>)
    requires Unique(pages)
    ensures Unique(Filter(keep, pages))
  {
    if pages == [] {
    } else {
      FilterUnique(keep, pages[1..]);
      if keep(pages[0]) {
        assert Filter(keep, pages) == [pages[0]] + Filter(keep, pages[1..]);
        assert Filter(keep, pages)[1..] == Filter(keep, pages[1..]);
      } else {
        assert Filter(keep, pages) == Filter(keep, pages[1..]);
      }
    }
  }

  lemma {:induction false} ConcatUnique(a: seq<Page>, b: seq<Page>)
    requires Unique(a) && Unique(b) && forall p, q :: p in a && q in b ==> !SameSlot(p, q)
    ensures Unique(a + b)
  {
    if a == [] {
      assert a + b == b;
    } else {
      assert (a + b)[1..] == a[1..] + b;
      forall p, q | p in a[1..] && q in b
        ensures !SameSlot(p, q)
      {
        assert p in a;
      }
      ConcatUnique(a[1..], b);
      forall p | p in (a + b)[1..]
        ensures !SameSlot(p, a[0])
      {
        assert p in a[1..] || p in b;
        assert a[0] in a;
        assert p in b ==> !SameSlot(a[0], p);
      }
    }
  }

  lemma {:induction false} InsertUnique(page: Page, sorted: seq<Page>)
    requires Unique(sorted) && forall p :: p in sorted ==> !SameSlot(p, page)
    ensures Unique(InsertPage(page, sorted))
  {
    if sorted == [] || !Before(sorted[0], page) {
      assert ([page] + sorted)[1..] == sorted;
    } else {
      InsertUnique(page, sorted[1..]);
      var rest := InsertPage(page, sorted[1..]);
      assert ([sorted[0]] + rest)[1..] == rest;
      assert sorted[0] in sorted;
    }
  }

  lemma {:induction false} SortUnique(pages: seq<Page>)
    requires Unique(pages)
    ensures Unique(SortPages(pages))
  {
    if pages == [] {
    } else {
      SortUnique(pages[1..]);
      InsertUnique(pages[0], SortPages(pages[1..]));
    }
  }

  lemma UpsertUnique(pages: seq<Page>, next: seq<Page>)
    requires Unique(pages) && Unique(next)
    ensures Unique(Upsert(pages, next))
  {
    var retained := Filter(NotReplacedBy(next), pages);
    FilterUnique(NotReplacedBy(next), pages);
    forall p, q | p in retained && q in next
      ensures !SameSlot(p, q)
    {
      assert SameSlot(p, q) ==> PageKey(p) == PageKey(q);
    }
    ConcatUnique(retained, next);
    SortUnique(retained + next);
  }

  // Pages of one Project, one for each of some distinct directories.
  lemma {:induction false} OneRootUnique(pages: seq<Page>, root: string, directories: seq<string>)
    requires |pages| == |directories| && Distinct(directories)
    requires forall k :: 0 <= k < |pages| ==> pages[k].canonicalRoot == root && pages[k].directory == directories[k]
    ensures Unique(pages)
  {
    if pages == [] {
    } else {
      OneRootUnique(pages[1..], root, directories[1..]);
      forall p | p in pages[1..]
        ensures !SameSlot(p, pages[0])
      {
        var k :| 0 <= k < |pages[1..]| && pages[1..][k] == p;
        assert p == pages[k + 1] && directories[k + 1] != directories[0];
      }
    }
  }

  lemma {:induction false} PromoteUnique(pages: seq<Page>, root: string, base: nat, revision: nat)
    requires Unique(pages)
    ensures Unique(PromoteAll(pages, root, base, revision))
  {
    if pages == [] {
    } else {
      PromoteUnique(pages[1..], root, base, revision);
      var promoted := PromoteAll(pages, root, base, revision);
      assert promoted[1..] == PromoteAll(pages[1..], root, base, revision);
      forall p | p in promoted[1..]
        ensures !SameSlot(p, promoted[0])
      {
        var k :| 0 <= k < |promoted[1..]| && promoted[1..][k] == p;
        assert pages[1..][k] in pages[1..] && p == Promote(pages[1..][k], root, base, revision);
      }
    }
  }

  lemma {:induction false} FilterDistinct(keep: string -> bool, s: seq<string>)
    requires Distinct(s)
    ensures Distinct(Filter(keep, s))
  {
    if s == [] {
    } else {
      FilterDistinct(keep, s[1..]);
      var rest := Filter(keep, s[1..]);
      if keep(s[0]) {
        assert Filter(keep, s) == [s[0]] + rest;
        forall i, j | 0 <= i < j < |rest| + 1
          ensures ([s[0]] + rest)[i] != ([s[0]] + rest)[j]
        {
          if i == 0 {
            assert rest[j - 1] in s[1..];
          }
        }
      } else {
        assert Filter(keep, s) == rest;
      }
    }
  }

  lemma WantedDistinct(c: Cache, root: string, requested: Option<seq<string>>)
    ensures Distinct(WantedDirectories(c, root, requested))
  {
    var named := if requested.Some? then requested.value else Required(c, root);
    UniqueIs(named);
    IncreasingDistinct(UniqueDirectories(named));
    FilterDistinct(WantedBy(c, root, requested.Some?), UniqueDirectories(named));
  }

  // ---------- The steps ----------

  lemma LoseKeeps(c: Cache)
    requires Inv(c)
    ensures Inv(Lose(c))
  {}

  lemma AskedPageOk(c: Cache, project: Project, directories: seq<string>, p: Page)
    requires PagesOk(c.pages, c.projects, c.pending) && Live(c.projects, project.canonicalRoot) == Some(project)
    requires project.canonicalRoot !in c.pending && p in Ask(c, project, directories).pages
    ensures PageOk(p, c.projects, Ask(c, project, directories).pending)
  {
    var loading := LoadingPages(project.canonicalRoot, project.revision, directories);
    if p in loading {
      var k :| 0 <= k < |loading| && loading[k] == p;
      assert p.directory == directories[k];
    } else {
      assert p in c.pages && PageOk(p, c.projects, c.pending);
    }
  }

  lemma AskedUnique(pages: seq<Page>, root: string, revision: nat, directories: seq<string>)
    requires Unique(pages) && Distinct(directories)
    ensures Unique(Upsert(Filter(UpToDate(root, revision), pages), LoadingPages(root, revision, directories)))
  {
    FilterUnique(UpToDate(root, revision), pages);
    OneRootUnique(LoadingPages(root, revision, directories), root, directories);
    UpsertUnique(Filter(UpToDate(root, revision), pages), LoadingPages(root, revision, directories));
  }

  lemma AskKeeps(c: Cache, project: Project, directories: seq<string>)
    requires Inv(c) && Live(c.projects, project.canonicalRoot) == Some(project)
    requires project.canonicalRoot !in c.pending && Distinct(directories) && c.ready
    ensures Inv(Ask(c, project, directories))
  {
    var n := Ask(c, project, directories);
    AskedUnique(c.pages, project.canonicalRoot, project.revision, directories);
    forall p | p in n.pages
      ensures PageOk(p, n.projects, n.pending)
    {
      AskedPageOk(c, project, directories, p);
    }
    forall r | r in n.pending
      ensures RequestOk(r, n.pending[r], n.projects)
    {
      assert r in c.pending ==> RequestOk(r, c.pending[r], c.projects);
    }
    forall r
      ensures StillEarly(r, n.pending, n.projects)
    {
      assert StillEarly(r, c.pending, c.projects);
    }
  }

  lemma RequestKeeps(c: Cache, root: string, requested: Option<seq<string>>, sending: Sending)
    requires Inv(c)
    ensures Inv(RequestDirectories(c, root, requested, sending))
  {
    var project := Live(c.projects, root);
    if project.Some? && c.ready && root !in c.pending {
      var directories := WantedDirectories(c, root, requested);
      WantedDistinct(c, root, requested);
      AskKeeps(c, project.value, directories);
      LoseKeeps(Ask(c, project.value, directories));
    }
  }

  lemma DropRootKeeps(c: Cache, root: string)
    requires Coherent(c)
    ensures Coherent(DropRoot(c, root))
  {
    var n := DropRoot(c, root);
    FilterUnique(OfOtherRoots(root), c.pages);
    forall p | p in n.pages
      ensures PageOk(p, n.projects, n.pending)
    {
      assert PageOk(p, c.projects, c.pending);
    }
    forall r | r in n.pending
      ensures RequestOk(r, n.pending[r], n.projects)
    {
      assert RequestOk(r, c.pending[r], c.projects);
    }
  }

  lemma AnswerReplaces(p: Page, revision: nat, answered: seq<ProtocolPage>)
    requires p.directory in DirectoriesOf(answered)
    ensures KeyIn(PageKey(p), ResultPages(p.canonicalRoot, revision, answered))
  {
    var k :| 0 <= k < |answered| && DirectoriesOf(answered)[k] == p.directory;
    var result := ResultPages(p.canonicalRoot, revision, answered)[k];
    assert result in ResultPages(p.canonicalRoot, revision, answered) && PageKey(result) == PageKey(p);
  }

  // A page that was there and is not answered again, once it carries the answer's revision.
  lemma PromotedPageOk(c: Cache, m: DirectoryResult, q: Page)
    requires PageOk(q, c.projects, c.pending) && m.canonicalRoot in c.pending && m.outcome.Pages?
    requires c.pending[m.canonicalRoot].baseProjectRevision == m.baseProjectRevision
    requires Distinct(c.pending[m.canonicalRoot].directories)
    requires SameDirectorySet(c.pending[m.canonicalRoot].directories, DirectoriesOf(m.outcome.pages))
    requires Live(c.projects, m.canonicalRoot).Some?
    requires Live(c.projects, m.canonicalRoot).value.revision == m.projectRevision
    requires !KeyIn(PageKey(q), ResultPages(m.canonicalRoot, m.projectRevision, m.outcome.pages))
    ensures PageOk(Promote(q, m.canonicalRoot, m.baseProjectRevision, m.projectRevision), c.projects,
                c.pending - {m.canonicalRoot})
  {
    if q.canonicalRoot == m.canonicalRoot {
      SameDirectorySetMeans(c.pending[m.canonicalRoot].directories, DirectoriesOf(m.outcome.pages));
      if q.directory in DirectoriesOf(m.outcome.pages) {
        AnswerReplaces(q, m.projectRevision, m.outcome.pages);
      }
    }
  }

  lemma AcceptedPageOk(c: Cache, m: DirectoryResult, p: Page)
    requires PagesOk(c.pages, c.projects, c.pending) && m.canonicalRoot in c.pending && m.outcome.Pages?
    requires c.pending[m.canonicalRoot].baseProjectRevision == m.baseProjectRevision
    requires Distinct(c.pending[m.canonicalRoot].directories)
    requires SameDirectorySet(c.pending[m.canonicalRoot].directories, DirectoriesOf(m.outcome.pages))
    requires Live(c.projects, m.canonicalRoot).Some?
    requires Live(c.projects, m.canonicalRoot).value.revision == m.projectRevision
    requires p in Accept(c, m).pages
    ensures PageOk(p, c.projects, c.pending - {m.canonicalRoot})
  {
    var results := ResultPages(m.canonicalRoot, m.projectRevision, m.outcome.pages);
    var promoted := PromoteAll(c.pages, m.canonicalRoot, m.baseProjectRevision, m.projectRevision);
    if p in results {
      var k :| 0 <= k < |results| && results[k] == p;
      assert results[k] == PageOf(m.canonicalRoot, m.projectRevision, m.outcome.pages[k]);
    } else {
      var k :| 0 <= k < |promoted| && promoted[k] == p;
      assert c.pages[k] in c.pages && PageKey(c.pages[k]) == PageKey(p);
      PromotedPageOk(c, m, c.pages[k]);
    }
  }

  lemma AcceptedUnique(c: Cache, m: DirectoryResult)
    requires Unique(c.pages) && ResultOk(m) && m.outcome.Pages?
    ensures Unique(Accept(c, m).pages)
  {
    var root, revision := m.canonicalRoot, m.projectRevision;
    PromoteUnique(c.pages, root, m.baseProjectRevision, revision);
    OneRootUnique(ResultPages(root, revision, m.outcome.pages), root, DirectoriesOf(m.outcome.pages));
    UpsertUnique(PromoteAll(c.pages, root, m.baseProjectRevision, revision),
        ResultPages(root, revision, m.outcome.pages));
  }

  lemma OthersStillPending(pending: map<string, Pending>, projects: seq<Project>, root: string)
    requires PendingOk(pending, projects)
    ensures PendingOk(pending - {root}, projects)
  {
    forall r | r in pending - {root}
      ensures RequestOk(r, (pending - {root})[r], projects)
    {
      assert RequestOk(r, pending[r], projects);
    }
  }

  lemma AcceptKeeps(c: Cache, m: DirectoryResult)
    requires Coherent(c) && ResultOk(m) && m.outcome.Pages? && m.canonicalRoot in c.pending
    requires c.pending[m.canonicalRoot].baseProjectRevision == m.baseProjectRevision
    requires SameDirectorySet(c.pending[m.canonicalRoot].directories, DirectoriesOf(m.outcome.pages))
    requires Live(c.projects, m.canonicalRoot).value.revision == m.projectRevision
    ensures Coherent(Accept(c, m))
  {
    var n := Accept(c, m);
    assert RequestOk(m.canonicalRoot, c.pending[m.canonicalRoot], c.projects);
    AcceptedUnique(c, m);
    forall p | p in n.pages
      ensures PageOk(p, n.projects, n.pending)
    {
      AcceptedPageOk(c, m, p);
    }
    OthersStillPending(c.pending, c.projects, m.canonicalRoot);
  }

  lemma ApplyKeeps(c: Cache, m: DirectoryResult)
    requires Coherent(c) && ResultOk(m) && m.canonicalRoot in c.pending
    requires c.pending[m.canonicalRoot].requestId == m.requestId
    requires c.pending[m.canonicalRoot].baseProjectRevision == m.baseProjectRevision
    requires Live(c.projects, m.canonicalRoot).value.revision == m.projectRevision
    ensures Coherent(ApplyResult(c, m))
    ensures ApplyResult(c, m).pending == c.pending - {m.canonicalRoot} && ApplyResult(c, m).projects == c.projects
    ensures ApplyResult(c, m).ready == c.ready
  {
    DropRootKeeps(c, m.canonicalRoot);
    if m.outcome.Pages? && SameDirectorySet(c.pending[m.canonicalRoot].directories, DirectoriesOf(m.outcome.pages)) {
      AcceptKeeps(c, m);
    }
  }

  lemma EarlyKept(pending: map<string, Pending>, projects: seq<Project>, gone: string)
    requires forall root :: StillEarly(root, pending, projects)
    ensures forall root :: StillEarly(root, pending - {gone}, projects)
  {
    forall root
      ensures StillEarly(root, pending - {gone}, projects)
    {
      assert StillEarly(root, pending, projects);
    }
  }

  lemma DeferKeeps(c: Cache, m: DirectoryResult)
    requires Inv(c) && ResultOk(m) && m.canonicalRoot in c.pending
    requires c.pending[m.canonicalRoot].requestId == m.requestId
    requires c.pending[m.canonicalRoot].baseProjectRevision == m.baseProjectRevision
    requires Live(c.projects, m.canonicalRoot).value.revision < m.projectRevision
    ensures Inv(c.(pending := c.pending[m.canonicalRoot := c.pending[m.canonicalRoot].(deferredResult := Some(m))]))
  {
    var root := m.canonicalRoot;
    var pending := c.pending[root := c.pending[root].(deferredResult := Some(m))];
    assert RequestOk(root, c.pending[root], c.projects);
    forall r | r in pending
      ensures RequestOk(r, pending[r], c.projects)
    {
      assert r in c.pending && RequestOk(r, c.pending[r], c.projects);
    }
    forall p | p in c.pages
      ensures PageOk(p, c.projects, pending)
    {
      assert PageOk(p, c.projects, c.pending);
    }
    forall r
      ensures StillEarly(r, pending, c.projects)
    {
      assert StillEarly(r, c.pending, c.projects);
    }
  }

  lemma HandleResultKeeps(c: Cache, session: nat, m: DirectoryResult)
    requires Inv(c) && ResultOk(m)
    ensures Inv(HandleResult(c, session, m))
  {
    var root := m.canonicalRoot;
    if root in c.pending && c.pending[root].requestId == m.requestId
       && c.pending[root].baseProjectRevision == m.baseProjectRevision {
      assert RequestOk(root, c.pending[root], c.projects);
      var project := Live(c.projects, root).value;
      EarlyKept(c.pending, c.projects, root);
      if m.projectRevision > project.revision {
        DeferKeeps(c, m);
      } else if m.projectRevision < project.revision {
        DropRootKeeps(c, root);
      } else {
        ApplyKeeps(c, m);
      }
    }
  }

  lemma LiveOf(projects: seq<Project>, k: nat)
    requires DistinctRoots(projects) && k < |projects|
    ensures Live(projects, projects[k].canonicalRoot) == Some(projects[k])
  {
    var found := Live(projects, projects[k].canonicalRoot);
    assert projects[k] in projects;
    var j :| 0 <= j < |projects| && projects[j] == found.value;
  }

  lemma SurvivingOk(c: Cache, projects: seq<Project>, p: Page)
    requires Coherent(c) && p in c.pages && Surviving(c, projects)(p)
    ensures PageOk(p, projects, StillPending(c.pending, projects))
  {
    assert PageOk(p, c.projects, c.pending);
  }

  lemma RequestSurvives(c: Cache, projects: seq<Project>, root: string)
    requires Inv(c) && SnapshotOk(c.projects, projects) && root in StillPending(c.pending, projects)
    ensures RequestOk(root, c.pending[root], projects)
  {
    assert RequestOk(root, c.pending[root], c.projects);
    assert StillEarly(root, c.pending, c.projects);
  }

  lemma SnapshotKeeps(c: Cache, projects: seq<Project>)
    requires Inv(c) && c.ready && SnapshotOk(c.projects, projects)
    ensures Coherent(TakeSnapshot(c, projects))
  {
    var n := TakeSnapshot(c, projects);
    FilterUnique(Surviving(c, projects), c.pages);
    forall p | p in n.pages
      ensures PageOk(p, n.projects, n.pending)
    {
      SurvivingOk(c, projects, p);
    }
    forall root | root in n.pending
      ensures RequestOk(root, n.pending[root], n.projects)
    {
      RequestSurvives(c, projects, root);
    }
  }

  lemma ApplyDeferredKeeps(c: Cache, project: Project)
    requires Coherent(c) && Live(c.projects, project.canonicalRoot) == Some(project)
    ensures Coherent(ApplyDeferred(c, project))
    ensures ApplyDeferred(c, project).projects == c.projects && ApplyDeferred(c, project).ready == c.ready
    ensures StillEarly(project.canonicalRoot, ApplyDeferred(c, project).pending, c.projects)
    ensures ApplyDeferred(c, project).pending in {c.pending, c.pending - {project.canonicalRoot}}
  {
    var root := project.canonicalRoot;
    if root in c.pending {
      assert RequestOk(root, c.pending[root], c.projects);
      var deferred := c.pending[root].deferredResult;
      if deferred.Some? && deferred.value.projectRevision == project.revision {
        ApplyKeeps(c, deferred.value);
      }
    }
  }

  lemma {:induction false} ApplyAllKeeps(c: Cache, projects: seq<Project>, count: nat)
    requires Coherent(c) && c.projects == projects && DistinctRoots(projects) && count <= |projects|
    ensures Coherent(ApplyAllDeferred(c, projects, count))
    ensures ApplyAllDeferred(c, projects, count).projects == projects
                && ApplyAllDeferred(c, projects, count).ready == c.ready
    ensures forall k :: 0 <= k < count ==>
              StillEarly(projects[k].canonicalRoot, ApplyAllDeferred(c, projects, count).pending, projects)
  {
    if count == 0 {
    } else {
      ApplyAllKeeps(c, projects, count - 1);
      LiveOf(projects, count - 1);
      var before := ApplyAllDeferred(c, projects, count - 1);
      ApplyDeferredKeeps(before, projects[count - 1]);
      var after := ApplyDeferred(before, projects[count - 1]);
      forall k | 0 <= k < count
        ensures StillEarly(projects[k].canonicalRoot, after.pending, projects)
      {
        assert k < count - 1 ==> StillEarly(projects[k].canonicalRoot, before.pending, projects);
      }
    }
  }

  lemma {:induction false} RequestAllKeeps(c: Cache, projects: seq<Project>, sendings: seq<Sending>, count: nat)
    requires Inv(c) && count <= |projects| == |sendings|
    ensures Inv(RequestAll(c, projects, sendings, count))
  {
    if count == 0 {
    } else {
      RequestAllKeeps(c, projects, sendings, count - 1);
      RequestKeeps(RequestAll(c, projects, sendings, count - 1), projects[count - 1].canonicalRoot, None,
          sendings[count - 1]);
    }
  }

  lemma HandleSnapshotKeeps(c: Cache, projects: seq<Project>, sendings: seq<Sending>)
    requires Inv(c) && c.ready && SnapshotOk(c.projects, projects) && |sendings| == |projects|
    ensures Inv(HandleSnapshot(c, projects, sendings))
  {
    SnapshotKeeps(c, projects);
    var taken := TakeSnapshot(c, projects);
    ApplyAllKeeps(taken, projects, |projects|);
    var applied := ApplyAllDeferred(taken, projects, |projects|);
    forall root
      ensures StillEarly(root, applied.pending, projects)
    {
      if Live(projects, root).Some? {
        var k :| 0 <= k < |projects| && projects[k] == Live(projects, root).value;
        assert StillEarly(projects[k].canonicalRoot, applied.pending, projects);
      }
    }
    RequestAllKeeps(applied, projects, sendings, |projects|);
  }

  lemma ChoiceKeeps(c: Cache, root: string, directory: string, sending: Sending)
    requires Inv(c)
    ensures Inv(Select(c, root, directory)) && Inv(Expand(c, root, directory, sending))
                && Inv(Collapse(c, root, directory))
  {
    var widened := c.(expanded := WithExpandedAncestors(c.expanded, root, directory) + [Entry(root, directory)]);
    RequestKeeps(widened, root, Some([directory]), sending);
  }

  lemma ActivateKeeps(c: Cache, root: string, directory: string, sending: Sending)
    requires Inv(c)
    ensures Inv(Activate(c, root, directory, sending))
  {
    ChoiceKeeps(c, root, directory, sending);
    ChoiceKeeps(Select(c, root, directory), root, directory, sending);
  }

  lemma StepKeepsInv(c: Cache, step: Step)
    requires Inv(c) && CanStep(c, step)
    ensures Inv(TakeStep(c, step))
  {
    match step
    case ConnectionReady =>
    case ConnectionNotReady => LoseKeeps(c);
    case ProjectsSnapshot(projects, sendings) => HandleSnapshotKeeps(c, projects, sendings);
    case ResultReceived(session, m) => HandleResultKeeps(c, session, m);
    case Requested(root, requested, sending) => RequestKeeps(c, root, requested, sending);
    case Selected(root, directory) => ChoiceKeeps(c, root, directory, Sent);
    case Expanded(root, directory, sending) => ChoiceKeeps(c, root, directory, sending);
    case Collapsed(root, directory) => ChoiceKeeps(c, root, directory, Sent);
    case Activated(root, directory, sending) => ActivateKeeps(c, root, directory, sending);
  }

  lemma {:induction false} RunKeepsInv(run: seq<Cache>, steps: seq<Step>, k: nat)
    requires IsRun(run, steps) && k < |run|
    ensures Inv(run[k])
  {
    if k == 0 {
    } else {
      RunKeepsInv(run, steps, k - 1);
      StepKeepsInv(run[k - 1], steps[k - 1]);
    }
  }

  lemma ReachableInv(c: Cache)
    requires Reachable(c)
    ensures Inv(c)
  {
    var run: seq<Cache>, steps: seq<Step> :| IsRun(run, steps) && run[|run| - 1] == c;
    RunKeepsInv(run, steps, |run| - 1);
  }

  // ---------- The main results ----------

  lemma {:induction false} UniqueMeans(pages: seq<Page>, i: nat, j: nat)
    requires Unique(pages) && i < j < |pages|
    ensures !SameSlot(pages[i], pages[j])
  {
    if i == 0 {
      assert pages[1..][j - 1] in pages[1..];
      assert pages[j] == pages[1..][j - 1];
    } else {
      assert pages[1..][i - 1] == pages[i] && pages[1..][j - 1] == pages[j];
      UniqueMeans(pages[1..], i - 1, j - 1);
    }
  }

  /** All pages of a Project carry one revision: the live one, or while a request is pending the one the
      request was made at, which the live one exceeds by one at most. A page is loading only while the
      pending request asks for it, no directory has two pages, and no page outlives its Project. */
  lemma PagesAreCoherent(c: Cache, page: Page)
    requires Reachable(c) && page in c.pages
    ensures Live(c.projects, page.canonicalRoot).Some?
    ensures var live := Live(c.projects, page.canonicalRoot).value.revision;
            if page.canonicalRoot in c.pending then
              var request := c.pending[page.canonicalRoot];
              && page.projectRevision == request.baseProjectRevision <= live <= request.baseProjectRevision + 1
              && (page.status.Loading? ==> page.directory in request.directories)
            else page.projectRevision == live && !page.status.Loading?
    ensures forall i, j :: 0 <= i < j < |c.pages| ==> !SameSlot(c.pages[i], c.pages[j])
  {
    ReachableInv(c);
    assert PageOk(page, c.projects, c.pending);
    if page.canonicalRoot in c.pending {
      assert RequestOk(page.canonicalRoot, c.pending[page.canonicalRoot], c.projects);
    }
    forall i, j | 0 <= i < j < |c.pages|
      ensures !SameSlot(c.pages[i], c.pages[j])
    {
      UniqueMeans(c.pages, i, j);
    }
  }

  /** A pending request is for a live Project, and an answer set aside for it is still ahead of the Project. */
  lemma RequestsAreLive(c: Cache, root: string)
    requires Reachable(c) && root in c.pending
    ensures Live(c.projects, root).Some? && c.ready
    ensures c.pending[root].deferredResult.Some? ==>
              c.pending[root].deferredResult.value.projectRevision > Live(c.projects, root).value.revision
  {
    ReachableInv(c);
    assert RequestOk(root, c.pending[root], c.projects);
    assert StillEarly(root, c.pending, c.projects);
    assert Live([], root).None?;
  }

  /** A destination in a live Project carries that Project's revision, so the destination resolves exactly
      when its Project is live and the directory is the Project's root or a loaded child. While the
      Project is ahead of a pending request no directory but the root resolves. */
  lemma DestinationIsCurrent(c: Cache, d: Destination)
    requires Reachable(c) && c.destination == Some(d)
    ensures forall project :: Live(c.projects, d.canonicalRoot) == Some(project) ==>
                d.projectRevision == project.revision
    ensures Resolve(c).Some? <==> Selectable(c, d.canonicalRoot, d.directory)
    ensures d.canonicalRoot in c.pending && d.projectRevision > c.pending[d.canonicalRoot].baseProjectRevision ==>
              (Resolve(c).Some? <==> d.directory == "")
  {
    ReachableInv(c);
    var live := Live(c.projects, d.canonicalRoot);
    if live.Some? && d.canonicalRoot in c.pending
        && d.projectRevision > c.pending[d.canonicalRoot].baseProjectRevision {
      forall page | page in c.pages && page.canonicalRoot == d.canonicalRoot
        ensures page.projectRevision != live.value.revision
      {
        assert PageOk(page, c.projects, c.pending);
      }
    }
    if d.canonicalRoot in c.pending {
      assert RequestOk(d.canonicalRoot, c.pending[d.canonicalRoot], c.projects);
    }
  }

  predicate Answers(c: Cache, session: nat, m: DirectoryResult) {
    && c.ready && session == c.session && m.canonicalRoot in c.pending
    && c.pending[m.canonicalRoot].session == session
    && c.pending[m.canonicalRoot].requestId == m.requestId
    && c.pending[m.canonicalRoot].baseProjectRevision == m.baseProjectRevision
    && Live(c.projects, m.canonicalRoot).Some?
    && Live(c.projects, m.canonicalRoot).value.revision == m.projectRevision
    && m.outcome.Pages?
    && SameDirectorySet(c.pending[m.canonicalRoot].directories, DirectoriesOf(m.outcome.pages))
  }

  /** An answer changes the pages only by answering: an answer to the pending request at the live revision
      puts its pages in place and moves the Project's other pages to that revision; any other answer
      adds no page and changes none, and at most drops the pages of its own Project. */
  lemma AnswersOnlyAnswer(c: Cache, session: nat, m: DirectoryResult, page: Page)
    requires Inv(c)
    ensures Answers(c, session, m) ==>
              (page in HandleResult(c, session, m).pages <==>
                 || page in ResultPages(m.canonicalRoot, m.projectRevision, m.outcome.pages)
                 || exists q ::
                     q in c.pages && page == Promote(q, m.canonicalRoot, m.baseProjectRevision, m.projectRevision)
                                && !KeyIn(PageKey(q), ResultPages(m.canonicalRoot, m.projectRevision, m.outcome.pages)))
    ensures !Answers(c, session, m) && page in HandleResult(c, session, m).pages ==> page in c.pages
    ensures !Answers(c, session, m) && page in c.pages && page.canonicalRoot != m.canonicalRoot ==>
              page in HandleResult(c, session, m).pages
  {
    if Answers(c, session, m) {
      var promoted := PromoteAll(c.pages, m.canonicalRoot, m.baseProjectRevision, m.projectRevision);
      if page in promoted {
        var k :| 0 <= k < |promoted| && promoted[k] == page;
        assert c.pages[k] in c.pages && PageKey(c.pages[k]) == PageKey(page);
      }
      forall q | q in c.pages && page == Promote(q, m.canonicalRoot, m.baseProjectRevision, m.projectRevision)
        ensures page in promoted && PageKey(page) == PageKey(q)
      {
        var k :| 0 <= k < |c.pages| && c.pages[k] == q;
        assert promoted[k] == page;
      }
    }
  }

  lemma {:induction false} NulSplits(a: string, x: string, b: string, y: string)
    requires NUL !in a && NUL !in b && a + [NUL] + x == b + [NUL] + y
    ensures a == b && x == y
  {
    var s := a + [NUL] + x;
    assert s[|a|] == NUL && s[|b|] == NUL;
    assert |a| < |b| ==> NUL in b;
    assert |b| < |a| ==> NUL in a;
    assert a == s[..|a|] && b == s[..|b|];
    assert x == s[|a| + 1..] && y == s[|b| + 1..];
  }

  /** The key a page is replaced by tells directories apart as long as no Project root holds a NUL. */
  lemma KeysTellSlotsApart(p: Page, q: Page)
    requires NUL !in p.canonicalRoot && NUL !in q.canonicalRoot
    ensures PageKey(p) == PageKey(q) <==> SameSlot(p, q)
  {
    if PageKey(p) == PageKey(q) {
      NulSplits(p.canonicalRoot, p.directory, q.canonicalRoot, q.directory);
    }
  }
}
