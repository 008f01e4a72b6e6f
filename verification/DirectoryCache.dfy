/** The plugin's revisioned cache of Project directory pages: what each event does to it. An event is
    one synchronous stretch of code; an answer that asks for directories again in a microtask lets
    that request be a later event of its own. */
module DirectoryCache {
  import opened Options
  import opened DirectoryLists
  import opened TextOrder

  datatype Project = Project(canonicalRoot: string, name: string, revision: nat)

  datatype PageStatus = Loading | Loaded | Missing | Error

  datatype Page = Page(canonicalRoot: string, directory: string, projectRevision: nat, status: PageStatus,
                       childDirectories: seq<string>, message: string)

  datatype ProtocolPage =
    | LoadedPage(directory: string, childDirectories: seq<string>)
    | MissingPage(directory: string)
    | ErrorPage(directory: string, message: string)

  datatype Outcome = Stale | Pages(pages: seq<ProtocolPage>)

  datatype DirectoryResult = DirectoryResult(
    requestId: nat, canonicalRoot: string, baseProjectRevision: nat, projectRevision: nat, outcome: Outcome)

  datatype Pending = Pending(requestId: nat, baseProjectRevision: nat, directories: seq<string>, session: nat,
                             deferredResult: Option<DirectoryResult>)

  datatype Entry = Entry(canonicalRoot: string, directory: string)

  datatype Destination = Destination(canonicalRoot: string, projectName: string, projectRevision: nat,
      directory: string)

  datatype Cache = Cache(
    ready: bool, session: nat, projects: seq<Project>, pages: seq<Page>, expanded: seq<Entry>,
    destination: Option<Destination>, pending: map<string, Pending>, nextRequest: nat)

  const NUL: char := 0 as char

  const START := Cache(false, 0, [], [], [], None, map[], 0)

  /** What asking the connection for a session and sending on it comes to. A send that fails retires
      the session first: the cache is told that the connection is lost before the send returns. */
  datatype Sending = NoSession | Sent | SendFailed

  // ---------- Lookups ----------

  function Live(projects: seq<Project>, root: string): (project: Option<Project>)
    ensures project.Some? ==> project.value in projects && project.value.canonicalRoot == root
    ensures project.None? ==> forall p :: p in projects ==> p.canonicalRoot != root
  {
    if projects == [] then None
    else if projects[0].canonicalRoot == root then Some(projects[0])
    else Live(projects[1..], root)
  }

  function FindPage(pages: seq<Page>, root: string, directory: string, revision: nat): (page: Option<Page>)
    ensures page.Some? ==>
              && page.value in pages && page.value.canonicalRoot == root
              && page.value.directory == directory && page.value.projectRevision == revision
    ensures page.None? ==>
              forall p :: p in pages ==>
                  !(p.canonicalRoot == root && p.directory == directory && p.projectRevision == revision)
  {
    if pages == [] then None
    else if pages[0].canonicalRoot == root && pages[0].directory == directory && pages[0].projectRevision == revision
    then Some(pages[0])
    else FindPage(pages[1..], root, directory, revision)
  }

  function CurrentPage(c: Cache, root: string, directory: string): Option<Page> {
    match Live(c.projects, root)
    case None => None
    case Some(project) => FindPage(c.pages, root, directory, project.revision)
  }

  predicate IsLoadedChild(c: Cache, root: string, directory: string) {
    var page := CurrentPage(c, root, ParentDirectory(directory));
    page.Some? && page.value.status.Loaded? && directory in page.value.childDirectories
  }

  predicate ProvenMissing(pages: seq<Page>, root: string, directory: string, revision: nat) {
    var exact := FindPage(pages, root, directory, revision);
    if exact.Some? && exact.value.status.Missing? then true
    else
      var parent := FindPage(pages, root, ParentDirectory(directory), revision);
      parent.Some? && parent.value.status.Loaded? && directory !in parent.value.childDirectories
  }

  function Resolve(c: Cache): Option<(Destination, Project)> {
    if c.destination.None? then None
    else
      var d := c.destination.value;
      var project := FindProject(c.projects, d.canonicalRoot, d.projectRevision);
      if project.None? then None
      else if d.directory == "" || IsLoadedChild(c, d.canonicalRoot, d.directory) then Some((d, project.value))
      else None
  }

  function FindProject(projects: seq<Project>, root: string, revision: nat): (project: Option<Project>)
    ensures project.Some? ==>
              project.value in projects && project.value.canonicalRoot == root && project.value.revision == revision
    ensures project.None? ==> forall p :: p in projects ==> !(p.canonicalRoot == root && p.revision == revision)
  {
    if projects == [] then None
    else if projects[0].canonicalRoot == root && projects[0].revision == revision then Some(projects[0])
    else FindProject(projects[1..], root, revision)
  }

  // ---------- Lists of pages ----------

  function Filter<T(!new)>(keep: T -> bool, s: seq<T>): (kept: seq<T>)
    ensures forall x :: x in kept <==> x in s && keep(x)
  {
    if s == [] then []
    else (if keep(s[0]) then [s[0]] else []) + Filter(keep, s[1..])
  }

  function PageKey(page: Page): string {
    page.canonicalRoot + [NUL] + page.directory
  }

  predicate KeyIn(key: string, pages: seq<Page>) {
    exists p :: p in pages && PageKey(p) == key
  }

  predicate Before(a: Page, b: Page) {
    Less(a.canonicalRoot, b.canonicalRoot) || (a.canonicalRoot == b.canonicalRoot && Less(a.directory, b.directory))
  }

  function InsertPage(page: Page, sorted: seq<Page>): (r: seq<Page>)
    ensures forall p :: p in r <==> p == page || p in sorted
  {
    if sorted == [] || !Before(sorted[0], page) then [page] + sorted
    else [sorted[0]] + InsertPage(page, sorted[1..])
  }

  function SortPages(pages: seq<Page>): (r: seq<Page>)
    ensures forall p :: p in r <==> p in pages
  {
    if pages == [] then [] else InsertPage(pages[0], SortPages(pages[1..]))
  }

  function Upsert(pages: seq<Page>, next: seq<Page>): (r: seq<Page>)
    ensures forall p :: p in r <==> p in next || (p in pages && !KeyIn(PageKey(p), next))
  {
    SortPages(Filter(NotReplacedBy(next), pages) + next)
  }

  predicate InOrder(pages: seq<Page>) {
    |pages| <= 1 || (!Before(pages[1], pages[0]) && InOrder(pages[1..]))
  }

  lemma BeforeIsOneWay(a: Page, b: Page)
    ensures !(Before(a, b) && Before(b, a))
  {
    LessTrichotomy(a.canonicalRoot, b.canonicalRoot);
    LessTrichotomy(a.directory, b.directory);
  }

  lemma NotBeforeTransitive(a: Page, b: Page, c: Page)
    requires !Before(b, a) && !Before(c, b)
    ensures !Before(c, a)
  {
    if Before(c, a) {
      LessTrichotomy(a.canonicalRoot, b.canonicalRoot);
      LessTrichotomy(b.canonicalRoot, c.canonicalRoot);
      LessTrichotomy(a.canonicalRoot, c.canonicalRoot);
      if Less(b.canonicalRoot, c.canonicalRoot) && Less(c.canonicalRoot, a.canonicalRoot) {
        LessTransitive(b.canonicalRoot, c.canonicalRoot, a.canonicalRoot);
      }
      if Less(c.canonicalRoot, a.canonicalRoot) && Less(a.canonicalRoot, b.canonicalRoot) {
        LessTransitive(c.canonicalRoot, a.canonicalRoot, b.canonicalRoot);
      }
      LessTrichotomy(a.directory, b.directory);
      LessTrichotomy(b.directory, c.directory);
      if Less(c.directory, a.directory) && Less(a.directory, b.directory) {
        LessTransitive(c.directory, a.directory, b.directory);
      }
    }
  }

  lemma {:induction false} OrderMeans(pages: seq<Page>, i: nat, j: nat)
    requires InOrder(pages) && i < j < |pages|
    ensures !Before(pages[j], pages[i])
  {
    if i > 0 {
      OrderMeans(pages[1..], i - 1, j - 1);
    } else if j > 1 {
      OrderMeans(pages[1..], 0, j - 1);
      NotBeforeTransitive(pages[0], pages[1], pages[j]);
    }
  }

  lemma {:induction false} InsertKeeps(page: Page, sorted: seq<Page>)
    ensures multiset(InsertPage(page, sorted)) == multiset(sorted) + multiset{page}
  {
    if sorted == [] || !Before(sorted[0], page) {
    } else {
      InsertKeeps(page, sorted[1..]);
      assert sorted == [sorted[0]] + sorted[1..];
    }
  }

  lemma {:induction false} InsertedInOrder(page: Page, sorted: seq<Page>)
    requires InOrder(sorted)
    ensures InOrder(InsertPage(page, sorted))
  {
    if sorted == [] || !Before(sorted[0], page) {
      assert ([page] + sorted)[1..] == sorted;
    } else {
      InsertedInOrder(page, sorted[1..]);
      BeforeIsOneWay(sorted[0], page);
      var rest := InsertPage(page, sorted[1..]);
      assert ([sorted[0]] + rest)[1..] == rest;
    }
  }

  lemma {:induction false} SortKeeps(pages: seq<Page>)
    ensures multiset(SortPages(pages)) == multiset(pages)
  {
    if pages == [] {
    } else {
      SortKeeps(pages[1..]);
      InsertKeeps(pages[0], SortPages(pages[1..]));
      assert pages == [pages[0]] + pages[1..];
    }
  }

  lemma {:induction false} SortedInOrder(pages: seq<Page>)
    ensures InOrder(SortPages(pages))
  {
    if pages == [] {
    } else {
      SortedInOrder(pages[1..]);
      InsertedInOrder(pages[0], SortPages(pages[1..]));
    }
  }

  /** What replacing pages gives: the pages that are not replaced and the new ones, each as often as it
      was there, in the order of their roots and directories. */
  lemma UpsertIsOrdered(pages: seq<Page>, next: seq<Page>)
    ensures var sorted := Upsert(pages, next);
            forall i, j :: 0 <= i < j < |sorted| ==>
              && !Less(sorted[j].canonicalRoot, sorted[i].canonicalRoot)
              && (sorted[i].canonicalRoot == sorted[j].canonicalRoot ==>
                  !Less(sorted[j].directory, sorted[i].directory))
    ensures multiset(Upsert(pages, next)) == multiset(Filter(NotReplacedBy(next), pages)) + multiset(next)
  {
    SortKeeps(Filter(NotReplacedBy(next), pages) + next);
    SortedInOrder(Filter(NotReplacedBy(next), pages) + next);
    var sorted := Upsert(pages, next);
    forall i, j | 0 <= i < j < |sorted|
      ensures !Before(sorted[j], sorted[i])
    {
      OrderMeans(sorted, i, j);
    }
  }

  function NotReplacedBy(next: seq<Page>): Page -> bool {
    (p: Page) => !KeyIn(PageKey(p), next)
  }

  function OfOtherRoots(root: string): Page -> bool {
    (p: Page) => p.canonicalRoot != root
  }

  // Not a page of this Project at another revision.
  function UpToDate(root: string, revision: nat): Page -> bool {
    (p: Page) => p.canonicalRoot != root || p.projectRevision == revision
  }

  // Not a page of a Project whose request is given up or whose pages are outdated by the snapshot.
  function Surviving(c: Cache, projects: seq<Project>): Page -> bool {
    var pending := StillPending(c.pending, projects);
    (p: Page) => !(p.canonicalRoot in c.pending && p.canonicalRoot !in pending)
                 && !Outdated(c.projects, projects, pending, p.canonicalRoot)
  }

  function LoadingPages(root: string, revision: nat, directories: seq<string>): (r: seq<Page>)
    ensures |r| == |directories|
    ensures forall k :: 0 <= k < |r| ==> r[k] == Page(root, directories[k], revision, Loading, [], "")
  {
    seq(|directories|, k requires 0 <= k < |directories| => Page(root, directories[k], revision, Loading, [], ""))
  }

  function PageOf(root: string, revision: nat, page: ProtocolPage): Page {
    match page
    case LoadedPage(directory, children) => Page(root, directory, revision, Loaded, children, "")
    case MissingPage(directory) => Page(root, directory, revision, Missing, [], "")
    case ErrorPage(directory, message) => Page(root, directory, revision, Error, [], message)
  }

  function ResultPages(root: string, revision: nat, pages: seq<ProtocolPage>): (r: seq<Page>)
    ensures |r| == |pages|
    ensures forall k :: 0 <= k < |r| ==> r[k] == PageOf(root, revision, pages[k])
  {
    seq(|pages|, k requires 0 <= k < |pages| => PageOf(root, revision, pages[k]))
  }

  function Promote(page: Page, root: string, base: nat, revision: nat): Page {
    if page.canonicalRoot == root && page.projectRevision == base then page.(projectRevision := revision) else page
  }

  function PromoteAll(pages: seq<Page>, root: string, base: nat, revision: nat): (r: seq<Page>)
    ensures |r| == |pages|
    ensures forall k :: 0 <= k < |r| ==> r[k] == Promote(pages[k], root, base, revision)
  {
    seq(|pages|, k requires 0 <= k < |pages| => Promote(pages[k], root, base, revision))
  }

  function DirectoriesOf(pages: seq<ProtocolPage>): (r: seq<string>)
    ensures |r| == |pages|
    ensures forall k :: 0 <= k < |r| ==> r[k] == pages[k].directory
  {
    seq(|pages|, k requires 0 <= k < |pages| => pages[k].directory)
  }

  // ---------- Asking for directories ----------

  function ExpandedOf(expanded: seq<Entry>, root: string): seq<string> {
    if expanded == [] then []
    else (if expanded[0].canonicalRoot == root then [expanded[0].directory] else []) + ExpandedOf(expanded[1..], root)
  }

  function Required(c: Cache, root: string): seq<string> {
    UniqueDirectories(
      ExpandedOf(c.expanded, root)
      + match c.destination
        case Some(d) => if d.canonicalRoot == root && d.directory != "" then [ParentDirectory(d.directory)] else []
        case None => [])
  }

  predicate Wanted(c: Cache, root: string, directory: string, named: bool) {
    var page := CurrentPage(c, root, directory);
    if named then !(page.Some? && (page.value.status.Loading? || page.value.status.Loaded?))
    else page.None? || page.value.status.Missing?
  }

  function WantedDirectories(c: Cache, root: string, requested: Option<seq<string>>): seq<string> {
    Filter(WantedBy(c, root, requested.Some?),
           UniqueDirectories(if requested.Some? then requested.value else Required(c, root)))
  }

  function WantedBy(c: Cache, root: string, named: bool): string -> bool {
    (d: string) => Wanted(c, root, d, named)
  }

  function Lose(c: Cache): Cache {
    c.(ready := false, pending := map[], projects := [], pages := [])
  }

  function Ask(c: Cache, project: Project, directories: seq<string>): Cache {
    var root, revision := project.canonicalRoot, project.revision;
    c.(pending := c.pending[root := Pending(c.nextRequest, revision, directories, c.session, None)],
       nextRequest := c.nextRequest + 1,
       pages := Upsert(Filter(UpToDate(root, revision), c.pages),
                       LoadingPages(root, revision, directories)))
  }

  function RequestDirectories(c: Cache, root: string, requested: Option<seq<string>>, sending: Sending): Cache {
    var project := Live(c.projects, root);
    if project.None? || !c.ready || root in c.pending then c
    else
      var directories := WantedDirectories(c, root, requested);
      if directories == [] || sending.NoSession? then c
      else
        var asked := Ask(c, project.value, directories);
        if sending.SendFailed? then Lose(asked) else asked
  }

  // ---------- Answers ----------

  function DropRoot(c: Cache, root: string): Cache {
    c.(pending := c.pending - {root}, pages := Filter(OfOtherRoots(root), c.pages))
  }

  function Accept(c: Cache, m: DirectoryResult): Cache
    requires m.outcome.Pages?
  {
    var root, revision := m.canonicalRoot, m.projectRevision;
    var pages := Upsert(PromoteAll(c.pages, root, m.baseProjectRevision, revision),
                        ResultPages(root, revision, m.outcome.pages));
    var destination :=
      match c.destination
      case None => None
      case Some(d) =>
        if d.canonicalRoot != root then c.destination
        else if d.directory == "" then Some(d.(projectRevision := revision))
        else if ProvenMissing(pages, root, d.directory, d.projectRevision) then None
        else Some(d.(projectRevision := revision));
    var expanded := Filter((e: Entry) => e.canonicalRoot != root || e.directory == ""
                                         || !ProvenMissing(pages, e.canonicalRoot, e.directory, revision), c.expanded);
    c.(pending := c.pending - {root}, pages := pages, destination := destination, expanded := expanded)
  }

  function ApplyResult(c: Cache, m: DirectoryResult): Cache {
    var root := m.canonicalRoot;
    if root !in c.pending || c.pending[root].requestId != m.requestId then c
    else if m.outcome.Stale? || !SameDirectorySet(c.pending[root].directories, DirectoriesOf(m.outcome.pages))
    then DropRoot(c, root)
    else Accept(c, m)
  }

  function HandleResult(c: Cache, session: nat, m: DirectoryResult): Cache {
    var root := m.canonicalRoot;
    if !c.ready || session != c.session || root !in c.pending || c.pending[root].session != session
       || c.pending[root].requestId != m.requestId || c.pending[root].baseProjectRevision != m.baseProjectRevision
           then c
    else
      match Live(c.projects, root)
      case None => c.(pending := c.pending - {root})
      case Some(project) =>
        if m.projectRevision > project.revision then
          c.(pending := c.pending[root := c.pending[root].(deferredResult := Some(m))])
        else if m.projectRevision < project.revision then DropRoot(c, root)
        else ApplyResult(c, m)
  }

  // ---------- A snapshot of the live Projects ----------

  // The request is given up: its Project is gone, or moved on by more than the one revision it may cause.
  predicate GivenUp(projects: seq<Project>, root: string, pending: Pending) {
    match Live(projects, root)
    case None => true
    case Some(project) => project.revision > pending.baseProjectRevision + 1
  }

  function StillPending(pending: map<string, Pending>, projects: seq<Project>): map<string, Pending> {
    map root | root in pending && !GivenUp(projects, root, pending[root]) :: pending[root]
  }

  // The cached pages of a Project do not survive the snapshot `current`.
  predicate Outdated(previous: seq<Project>, current: seq<Project>, pending: map<string, Pending>, root: string) {
    match Live(previous, root)
    case None => false
    case Some(was) =>
      match Live(current, root)
      case None => true
      case Some(project) => project.revision != was.revision && root !in pending
  }

  function Moved(destination: Option<Destination>, projects: seq<Project>): Option<Destination> {
    match destination
    case None => None
    case Some(d) =>
      match Live(projects, d.canonicalRoot)
      case None => None
      case Some(project) => Some(d.(projectName := project.name, projectRevision := project.revision))
  }

  function TakeSnapshot(c: Cache, projects: seq<Project>): Cache {
    c.(projects := projects, pages := Filter(Surviving(c, projects), c.pages),
        pending := StillPending(c.pending, projects),
       destination := Moved(c.destination, projects),
       expanded := Filter((e: Entry) => Live(projects, e.canonicalRoot).Some?, c.expanded))
  }

  function ApplyDeferred(c: Cache, project: Project): Cache {
    var root := project.canonicalRoot;
    if root in c.pending && c.pending[root].deferredResult.Some?
       && c.pending[root].deferredResult.value.projectRevision == project.revision
    then ApplyResult(c, c.pending[root].deferredResult.value)
    else c
  }

  function ApplyAllDeferred(c: Cache, projects: seq<Project>, count: nat): Cache
    requires count <= |projects|
  {
    if count == 0 then c else ApplyDeferred(ApplyAllDeferred(c, projects, count - 1), projects[count - 1])
  }

  function RequestAll(c: Cache, projects: seq<Project>, sendings: seq<Sending>, count: nat): Cache
    requires count <= |projects| == |sendings|
  {
    if count == 0 then c
    else RequestDirectories(RequestAll(c, projects, sendings, count - 1), projects[count - 1].canonicalRoot, None,
                            sendings[count - 1])
  }

  function HandleSnapshot(c: Cache, projects: seq<Project>, sendings: seq<Sending>): Cache
    requires |sendings| == |projects|
  {
    RequestAll(ApplyAllDeferred(TakeSnapshot(c, projects), projects, |projects|), projects, sendings, |projects|)
  }

  // ---------- The user's choices ----------

  function AddAncestors(expanded: seq<Entry>, root: string, ancestors: seq<string>): seq<Entry>
    decreases |ancestors|
  {
    if ancestors == [] then expanded
    else
      var entry := Entry(root, ancestors[0]);
      AddAncestors(if entry in expanded then expanded else expanded + [entry], root, ancestors[1..])
  }

  function WithExpandedAncestors(expanded: seq<Entry>, root: string, directory: string): seq<Entry> {
    if directory == "" then expanded else AddAncestors(expanded, root, [""] + ParentDirectories(directory))
  }

  predicate Selectable(c: Cache, root: string, directory: string) {
    Live(c.projects, root).Some? && (directory == "" || IsLoadedChild(c, root, directory))
  }

  function Select(c: Cache, root: string, directory: string): Cache {
    if !Selectable(c, root, directory) then c
    else
      var project := Live(c.projects, root).value;
      c.(destination := Some(Destination(root, project.name, project.revision, directory)),
         expanded := WithExpandedAncestors(c.expanded, root, directory))
  }

  function Expand(c: Cache, root: string, directory: string, sending: Sending): Cache {
    if !Selectable(c, root, directory) || Entry(root, directory) in c.expanded then c
    else
      RequestDirectories(
        c.(expanded := WithExpandedAncestors(c.expanded, root, directory) + [Entry(root, directory)]),
        root, Some([directory]), sending)
  }

  function Collapse(c: Cache, root: string, directory: string): Cache {
    c.(expanded := Filter((e: Entry) => e != Entry(root, directory), c.expanded))
  }

  function Activate(c: Cache, root: string, directory: string, sending: Sending): Cache {
    if !Selectable(c, root, directory) then c
    else if Entry(root, directory) in c.expanded then Collapse(Select(c, root, directory), root, directory)
    else Expand(Select(c, root, directory), root, directory, sending)
  }

  // ---------- Runs ----------

  datatype Step =
    | ConnectionReady
    | ConnectionNotReady
    | ProjectsSnapshot(projects: seq<Project>, sendings: seq<Sending>)
    | ResultReceived(session: nat, result: DirectoryResult)
    | Requested(root: string, requested: Option<seq<string>>, sending: Sending)
    | Selected(root: string, directory: string)
    | Expanded(root: string, directory: string, sendingExpanded: Sending)
    | Collapsed(root: string, directory: string)
    | Activated(root: string, directory: string, sendingExpanded: Sending)

  // Each Project is in the snapshot once, and none is in it at an earlier revision than before.
  ghost predicate SnapshotOk(previous: seq<Project>, projects: seq<Project>) {
    && DistinctRoots(projects)
    && forall p, q :: p in previous && q in projects && p.canonicalRoot == q.canonicalRoot ==> p.revision <= q.revision
  }

  ghost predicate DistinctRoots(projects: seq<Project>) {
    forall i, j :: 0 <= i < j < |projects| ==> projects[i].canonicalRoot != projects[j].canonicalRoot
  }

  // A message the protocol's parser accepts names no directory twice.
  ghost predicate ResultOk(m: DirectoryResult) {
    m.outcome.Pages? ==> Distinct(DirectoriesOf(m.outcome.pages))
  }

  ghost predicate CanStep(c: Cache, step: Step) {
    match step
    case ProjectsSnapshot(projects, sendings) => c.ready && SnapshotOk(c.projects, projects) && |sendings| == |projects|
    case ResultReceived(_, m) => ResultOk(m)
    case _ => true
  }

  ghost function TakeStep(c: Cache, step: Step): Cache
    requires CanStep(c, step)
  {
    match step
    case ConnectionReady => c.(ready := true, session := c.session + 1)
    case ConnectionNotReady => Lose(c)
    case ProjectsSnapshot(projects, sendings) => HandleSnapshot(c, projects, sendings)
    case ResultReceived(session, m) => HandleResult(c, session, m)
    case Requested(root, requested, sending) => RequestDirectories(c, root, requested, sending)
    case Selected(root, directory) => Select(c, root, directory)
    case Expanded(root, directory, sending) => Expand(c, root, directory, sending)
    case Collapsed(root, directory) => Collapse(c, root, directory)
    case Activated(root, directory, sending) => Activate(c, root, directory, sending)
  }

  ghost predicate IsRun(run: seq<Cache>, steps: seq<Step>) {
    && |run| == |steps| + 1
    && run[0] == START
    && forall k :: 0 <= k < |steps| ==> CanStep(run[k], steps[k]) && run[k + 1] == TakeStep(run[k], steps[k])
  }

  ghost predicate Reachable(c: Cache) {
    exists run: seq<Cache>, steps: seq<Step> :: IsRun(run, steps) && run[|run| - 1] == c
  }
}
