/** What each event leaves in the directory cache, said of its Projects, pages, entries and destination. */
module DirectoryCacheLaws {
  import opened Options
  import opened DirectoryLists
  import opened TextOrder
  import opened DirectoryCache
  import opened DirectoryCacheSafety

  // ---------- Directories and pages ----------

  /** The directory before the last slash; a name without one is in the root of its Project. */
  predicate IsParent(parent: string, directory: string) {
    || (parent == "" && '/' !in directory)
    || (|parent| < |directory| && directory[|parent|] == '/' && parent == directory[..|parent|]
        && '/' !in directory[|parent| + 1..])
  }

  lemma ParentIs(directory: string)
    ensures IsParent(ParentDirectory(directory), directory)
  {
    var at := LastSlash(directory);
    assert '/' !in directory[at + 1..];
    assert directory[0..] == directory;
  }

  lemma OneParent(a: string, b: string, directory: string)
    requires IsParent(a, directory) && IsParent(b, directory)
    ensures a == b
  {
    SlashesAfter(directory, |a|);
    SlashesAfter(directory, |b|);
  }

  lemma SlashesAfter(directory: string, at: nat)
    requires at <= |directory|
    ensures forall k :: at < k < |directory| && directory[k] == '/' ==> '/' in directory[at + 1..]
    ensures forall k :: 0 <= k < |directory| && directory[k] == '/' ==> '/' in directory
  {
    forall k | at < k < |directory| && directory[k] == '/'
      ensures '/' in directory[at + 1..]
    {
      assert directory[at + 1..][k - at - 1] == '/';
    }
  }

  /** The page of a directory at a revision. */
  predicate PageAt(pages: seq<Page>, page: Page, root: string, directory: string, revision: nat) {
    page in pages && page.canonicalRoot == root && page.directory == directory && page.projectRevision == revision
  }

  // The first page of a slot is its only one.
  lemma FoundIs(pages: seq<Page>, page: Page, root: string, directory: string, revision: nat)
    requires Unique(pages)
    ensures PageAt(pages, page, root, directory, revision) <==> FindPage(pages, root, directory, revision) == Some(page)
  {
    var found := FindPage(pages, root, directory, revision);
    if PageAt(pages, page, root, directory, revision) {
      var i :| 0 <= i < |pages| && pages[i] == page;
      var j :| 0 <= j < |pages| && pages[j] == found.value;
      if i < j {
        UniqueMeans(pages, i, j);
      } else if j < i {
        UniqueMeans(pages, j, i);
      }
    }
  }

  /** A directory a user may choose: the root of a live Project, or a directory that the loaded page of its
      parent lists, at the live revision. */
  ghost predicate Choosable(c: Cache, root: string, directory: string) {
    && Live(c.projects, root).Some?
    && (|| directory == ""
        || exists page, parent ::
             && IsParent(parent, directory)
             && PageAt(c.pages, page, root, parent, Live(c.projects, root).value.revision)
             && page.status.Loaded? && directory in page.childDirectories)
  }

  lemma ChoosableIsSelectable(c: Cache, root: string, directory: string)
    requires Unique(c.pages)
    ensures Choosable(c, root, directory) <==> Selectable(c, root, directory)
  {
    ParentIs(directory);
    if Live(c.projects, root).Some? {
      var revision := Live(c.projects, root).value.revision;
      if Choosable(c, root, directory) && directory != "" {
        var page, parent :| IsParent(parent, directory) && PageAt(c.pages, page, root, parent, revision)
                            && page.status.Loaded? && directory in page.childDirectories;
        OneParent(parent, ParentDirectory(directory), directory);
        FoundIs(c.pages, page, root, parent, revision);
      }
      if Selectable(c, root, directory) && directory != "" {
        var page := FindPage(c.pages, root, ParentDirectory(directory), revision).value;
        FoundIs(c.pages, page, root, ParentDirectory(directory), revision);
      }
    }
  }

  // ---------- Choosing a destination ----------

  /** The entries above a directory: its Project's root, and the directory up to each of its slashes. */
  predicate IsAncestor(ancestor: string, directory: string) {
    && directory != ""
    && (ancestor == "" || exists k :: 0 <= k < |directory| && directory[k] == '/' && ancestor == directory[..k])
  }

  lemma {:induction false} AncestorsAdded(expanded: seq<Entry>, root: string, ancestors: seq<string>)
    ensures expanded <= AddAncestors(expanded, root, ancestors)
    ensures forall e :: e in AddAncestors(expanded, root, ancestors) <==>
                e in expanded || (e.canonicalRoot == root && e.directory in ancestors)
    ensures Distinct(expanded) ==> Distinct(AddAncestors(expanded, root, ancestors))
    decreases |ancestors|
  {
    if ancestors == [] {
    } else {
      var entry := Entry(root, ancestors[0]);
      var next := if entry in expanded then expanded else expanded + [entry];
      AncestorsAdded(next, root, ancestors[1..]);
      assert ancestors == [ancestors[0]] + ancestors[1..];
    }
  }

  /** What choosing leaves expanded: what was, in its order, and every entry above the directory. */
  ghost predicate AncestorsExpanded(before: seq<Entry>, after: seq<Entry>, root: string, directory: string) {
    && before <= after
    && (forall e :: e in after <==> e in before || (e.canonicalRoot == root && IsAncestor(e.directory, directory)))
    && (Distinct(before) ==> Distinct(after))
  }

  lemma ExpandedAncestors(expanded: seq<Entry>, root: string, directory: string)
    ensures AncestorsExpanded(expanded, WithExpandedAncestors(expanded, root, directory), root, directory)
  {
    if directory == "" {
    } else {
      var ancestors := [""] + ParentDirectories(directory);
      AncestorsAdded(expanded, root, ancestors);
      AncestorsOf(directory, 0);
      forall e: Entry
        ensures e.directory in ancestors <==> IsAncestor(e.directory, directory)
      {}
    }
  }

  /** The destination after a choice: the chosen directory of the live Project, under its name and at its
      revision. */
  ghost predicate Chosen(c: Cache, destination: Option<Destination>, root: string, directory: string)
    requires Live(c.projects, root).Some?
  {
    var project := Live(c.projects, root).value;
    && destination.Some?
    && destination.value.canonicalRoot == root && destination.value.directory == directory
    && destination.value.projectName == project.name && destination.value.projectRevision == project.revision
  }

  lemma SelectedIs(c: Cache, root: string, directory: string)
    requires Selectable(c, root, directory)
    ensures var n := Select(c, root, directory);
            && Chosen(c, n.destination, root, directory)
            && AncestorsExpanded(c.expanded, n.expanded, root, directory)
            && n == c.(destination := n.destination, expanded := n.expanded)
            && (CurrentIsFound(c, root) ==> Resolve(n) == Some((n.destination.value, Live(c.projects, root).value)))
  {
    ExpandedAncestors(c.expanded, root, directory);
  }

  // Whether the live Project of a root is the one found at its revision.
  predicate CurrentIsFound(c: Cache, root: string) {
    Live(c.projects, root).Some?
    && FindProject(c.projects, root, Live(c.projects, root).value.revision) == Live(c.projects, root)
  }

  lemma {:induction false} DistinctIsFound(projects: seq<Project>, root: string)
    requires Live(projects, root).Some?
    ensures FindProject(projects, root, Live(projects, root).value.revision) == Live(projects, root)
  {
    if projects[0].canonicalRoot == root {
    } else {
      DistinctIsFound(projects[1..], root);
    }
  }

  /** Choosing a directory that may be chosen makes it the destination, which then resolves to that very
      directory of the live Project; every entry above it is expanded, and nothing else changes. Choosing
      any other changes nothing. */
  ghost predicate SelectedAs(c: Cache, n: Cache, root: string, directory: string) {
    if Choosable(c, root, directory) then
      && Chosen(c, n.destination, root, directory)
      && Resolve(n) == Some((n.destination.value, Live(c.projects, root).value))
      && AncestorsExpanded(c.expanded, n.expanded, root, directory)
      && n == c.(destination := n.destination, expanded := n.expanded)
    else n == c
  }

  lemma SelectsExactly(c: Cache, root: string, directory: string)
    requires Inv(c)
    ensures SelectedAs(c, TakeStep(c, Selected(root, directory)), root, directory)
  {
    ChoosableIsSelectable(c, root, directory);
    if Selectable(c, root, directory) {
      DistinctIsFound(c.projects, root);
      SelectedIs(c, root, directory);
    }
  }

  // Asking for directories is about pages and requests.
  lemma AskingKeepsChoice(c: Cache, root: string, requested: Option<seq<string>>, sending: Sending)
    ensures var n := RequestDirectories(c, root, requested, sending);
            n.destination == c.destination && n.expanded == c.expanded
  {}

  // ---------- Asking for directories ----------

  /** Which directories a request asks for. Named ones: those that are neither loading nor loaded at the
      live revision. Otherwise: those of expanded entries, and the one above the destination, of which there
      is no page, or only the news that it is missing. */
  ghost predicate Asked(c: Cache, root: string, requested: Option<seq<string>>, directory: string)
    requires Live(c.projects, root).Some?
  {
    var revision := Live(c.projects, root).value.revision;
    if requested.Some? then
      && directory in requested.value
      && !exists page :: PageAt(c.pages, page, root, directory, revision)
                         && (page.status.Loading? || page.status.Loaded?)
    else
      && (|| Entry(root, directory) in c.expanded
          || (c.destination.Some? && c.destination.value.canonicalRoot == root && c.destination.value.directory != ""
              && IsParent(directory, c.destination.value.directory)))
      && forall page :: PageAt(c.pages, page, root, directory, revision) ==> page.status.Missing?
  }

  lemma {:induction false} ExpandedOfIs(expanded: seq<Entry>, root: string, directory: string)
    ensures directory in ExpandedOf(expanded, root) <==> Entry(root, directory) in expanded
  {
    if expanded == [] {
    } else {
      ExpandedOfIs(expanded[1..], root, directory);
      assert expanded == [expanded[0]] + expanded[1..];
    }
  }

  lemma RequiredIs(c: Cache, root: string, directory: string)
    ensures directory in Required(c, root) <==>
              || Entry(root, directory) in c.expanded
              || (c.destination.Some? && c.destination.value.canonicalRoot == root
                  && c.destination.value.directory != "" && IsParent(directory, c.destination.value.directory))
  {
    ExpandedOfIs(c.expanded, root, directory);
    var more := match c.destination
                case Some(d) =>
                  if d.canonicalRoot == root && d.directory != "" then [ParentDirectory(d.directory)] else []
                case None => [];
    UniqueIs(ExpandedOf(c.expanded, root) + more);
    if c.destination.Some? {
      ParentIs(c.destination.value.directory);
      if IsParent(directory, c.destination.value.directory) {
        OneParent(directory, ParentDirectory(c.destination.value.directory), c.destination.value.directory);
      }
    }
  }

  lemma AskedIsWanted(c: Cache, root: string, requested: Option<seq<string>>, directory: string)
    requires Unique(c.pages) && Live(c.projects, root).Some?
    ensures directory in WantedDirectories(c, root, requested) <==> Asked(c, root, requested, directory)
  {
    UniqueIs(if requested.Some? then requested.value else Required(c, root));
    WantedIs(c, root, directory);
    if requested.None? {
      RequiredIs(c, root, directory);
    }
  }

  // Whether a directory is wanted, said of the pages.
  lemma WantedIs(c: Cache, root: string, directory: string)
    requires Unique(c.pages) && Live(c.projects, root).Some?
    ensures var revision := Live(c.projects, root).value.revision;
            && (Wanted(c, root, directory, true) <==>
                !exists page :: PageAt(c.pages, page, root, directory, revision)
                                && (page.status.Loading? || page.status.Loaded?))
            && (Wanted(c, root, directory, false) <==>
                forall page :: PageAt(c.pages, page, root, directory, revision) ==> page.status.Missing?)
  {
    var revision := Live(c.projects, root).value.revision;
    var found := FindPage(c.pages, root, directory, revision);
    forall page
      ensures PageAt(c.pages, page, root, directory, revision) <==> found == Some(page)
    {
      FoundIs(c.pages, page, root, directory, revision);
    }
    if found.Some? {
      assert PageAt(c.pages, found.value, root, directory, revision);
    }
  }

  /** Whether a request goes out. */
  ghost predicate Asks(c: Cache, root: string, requested: Option<seq<string>>, sending: Sending) {
    && c.ready && Live(c.projects, root).Some? && root !in c.pending && !sending.NoSession?
    && exists directory :: Asked(c, root, requested, directory)
  }

  /** A request goes out exactly when the connection is ready, the Project live, none pending for it, a
      session there, and something to ask for. It then asks for exactly those directories, once each, at the
      live revision; each of them shows as loading, and every other page stays as it is. A send that fails
      takes the connection with it; without a request nothing changes. */
  lemma RequestsExactly(c: Cache, root: string, requested: Option<seq<string>>, sending: Sending)
    requires Inv(c)
    ensures var n := TakeStep(c, Requested(root, requested, sending));
            if !Asks(c, root, requested, sending) then n == c
            else if sending.SendFailed? then !n.ready && n.projects == [] && n.pages == [] && n.pending == map[]
            else
              var revision := Live(c.projects, root).value.revision;
              && root in n.pending && n.pending == c.pending[root := n.pending[root]]
              && n.pending[root].baseProjectRevision == revision && n.pending[root].session == c.session
              && n.pending[root].requestId == c.nextRequest && n.pending[root].deferredResult.None?
              && Distinct(n.pending[root].directories)
              && (forall directory ::
                    directory in n.pending[root].directories <==> Asked(c, root, requested, directory))
              && (forall directory :: Asked(c, root, requested, directory) ==>
                    Page(root, directory, revision, Loading, [], "") in n.pages)
              && (forall page :: page in n.pages ==>
                    page in c.pages || (page.canonicalRoot == root && page.status.Loading?
                                        && Asked(c, root, requested, page.directory)))
              && n.projects == c.projects && n.ready && n.destination == c.destination && n.expanded == c.expanded
  {
    if c.ready && Live(c.projects, root).Some? && root !in c.pending {
      var wanted := WantedDirectories(c, root, requested);
      forall directory
        ensures directory in wanted <==> Asked(c, root, requested, directory)
      {
        AskedIsWanted(c, root, requested, directory);
      }
      WantedDistinct(c, root, requested);
      if wanted != [] {
        assert Asked(c, root, requested, wanted[0]);
        var revision := Live(c.projects, root).value.revision;
        LoadingAre(root, revision, wanted);
      }
    }
  }

  /** What asking for one directory does: if a request goes out it asks for just that one. */
  ghost predicate AsksFor(c: Cache, n: Cache, root: string, directory: string, sending: Sending) {
    if !Asks(c, root, Some([directory]), sending) then
      n.pending == c.pending && n.pages == c.pages && n.ready == c.ready
    else if sending.SendFailed? then !n.ready
    else
      && root in n.pending && n.pending == c.pending[root := n.pending[root]]
      && forall d :: d in n.pending[root].directories <==> d == directory
  }

  lemma AskingForOne(c: Cache, expanded: seq<Entry>, destination: Option<Destination>, root: string,
                     directory: string, sending: Sending)
    requires Unique(c.pages)
    ensures AsksFor(c, RequestDirectories(c.(expanded := expanded, destination := destination), root,
                                          Some([directory]), sending), root, directory, sending)
  {
    if c.ready && Live(c.projects, root).Some? && root !in c.pending {
      var from := c.(expanded := expanded, destination := destination);
      var wanted := WantedDirectories(from, root, Some([directory]));
      forall d
        ensures d in wanted <==> Asked(c, root, Some([directory]), d)
      {
        AskedIsWanted(from, root, Some([directory]), d);
      }
      if wanted != [] {
        assert wanted[0] in wanted && wanted[0] == directory;
      }
    }
  }

  /** Expanding an entry of a directory that may be chosen, if it is not expanded, adds it and the entries
      above it, and asks for the directory; anything else changes nothing. */
  lemma ExpandsExactly(c: Cache, root: string, directory: string, sending: Sending)
    requires Inv(c)
    ensures var n := TakeStep(c, Expanded(root, directory, sending));
            if Choosable(c, root, directory) && Entry(root, directory) !in c.expanded then
              && n.destination == c.destination && AsksFor(c, n, root, directory, sending)
              && (forall e :: e in n.expanded <==>
                    || e in c.expanded || e == Entry(root, directory)
                    || (e.canonicalRoot == root && IsAncestor(e.directory, directory)))
            else n == c
  {
    ChoosableIsSelectable(c, root, directory);
    if Selectable(c, root, directory) && Entry(root, directory) !in c.expanded {
      ExpandedAncestors(c.expanded, root, directory);
      var entries := WithExpandedAncestors(c.expanded, root, directory) + [Entry(root, directory)];
      AskingForOne(c, entries, c.destination, root, directory, sending);
      AskingKeepsChoice(c.(expanded := entries), root, Some([directory]), sending);
    }
  }

  /** Collapsing drops just that entry. */
  lemma CollapsesExactly(c: Cache, root: string, directory: string)
    ensures var n := TakeStep(c, Collapsed(root, directory));
            && n == c.(expanded := n.expanded)
            && forall e :: e in n.expanded <==> e in c.expanded && e != Entry(root, directory)
  {}

  /** Activating a directory that may be chosen makes it the destination, collapses it if it was expanded,
      and expands it and asks for it otherwise; the entries above it are expanded, and no other entry
      changes. Activating any other changes nothing. */
  ghost predicate ActivatedAs(c: Cache, n: Cache, root: string, directory: string, sending: Sending) {
    if Choosable(c, root, directory) then
      && Chosen(c, n.destination, root, directory)
      && (Entry(root, directory) in n.expanded <==> Entry(root, directory) !in c.expanded)
      && (forall e :: e != Entry(root, directory) ==>
            (e in n.expanded <==>
             e in c.expanded || (e.canonicalRoot == root && IsAncestor(e.directory, directory))))
      && if Entry(root, directory) in c.expanded then n == c.(destination := n.destination, expanded := n.expanded)
         else AsksFor(c, n, root, directory, sending)
    else n == c
  }

  lemma ActivatesExactly(c: Cache, root: string, directory: string, sending: Sending)
    requires Inv(c)
    ensures ActivatedAs(c, TakeStep(c, Activated(root, directory, sending)), root, directory, sending)
  {
    ChoosableIsSelectable(c, root, directory);
    if Selectable(c, root, directory) {
      SelectedIs(c, root, directory);
      var chosen := Select(c, root, directory);
      NotItsAncestor(directory);
      if Entry(root, directory) !in c.expanded {
        assert Selectable(chosen, root, directory);
        ExpandedAncestors(chosen.expanded, root, directory);
        var entries := WithExpandedAncestors(chosen.expanded, root, directory) + [Entry(root, directory)];
        AskingForOne(c, entries, chosen.destination, root, directory, sending);
        AskingKeepsChoice(chosen.(expanded := entries), root, Some([directory]), sending);
      }
    }
  }

  lemma NotItsAncestor(directory: string)
    ensures !IsAncestor(directory, directory)
  {
    assert forall k :: 0 <= k < |directory| ==> |directory[..k]| == k;
  }

  // ---------- The connection ----------

  /** A connection that gets ready opens a new session and keeps what there is; one that is not ready leaves
      no request, no Project and no page, but the choice of the user. */
  lemma ConnectionExactly(c: Cache, step: Step)
    requires step.ConnectionReady? || step.ConnectionNotReady?
    ensures var n := TakeStep(c, step);
            && n.ready == step.ConnectionReady?
            && n.destination == c.destination && n.expanded == c.expanded && n.nextRequest == c.nextRequest
            && if n.ready then
                 n.session > c.session && n.projects == c.projects && n.pages == c.pages && n.pending == c.pending
               else n.session == c.session && n.projects == [] && n.pages == [] && n.pending == map[]
  {}

  lemma LoadingAre(root: string, revision: nat, directories: seq<string>)
    ensures forall directory :: directory in directories ==>
              Page(root, directory, revision, Loading, [], "") in LoadingPages(root, revision, directories)
    ensures forall page :: page in LoadingPages(root, revision, directories) ==>
              page.canonicalRoot == root && page.status.Loading? && page.directory in directories
  {
    var pages := LoadingPages(root, revision, directories);
    forall directory | directory in directories
      ensures Page(root, directory, revision, Loading, [], "") in pages
    {
      var k :| 0 <= k < |directories| && directories[k] == directory;
      assert pages[k] == Page(root, directory, revision, Loading, [], "");
    }
  }

  // ---------- Answers ----------

  /** An answer that is expected: to the request pending for its Project, on the session it was sent on. */
  predicate Expected(c: Cache, session: nat, m: DirectoryResult) {
    && c.ready && session == c.session && m.canonicalRoot in c.pending
    && c.pending[m.canonicalRoot].session == session
    && c.pending[m.canonicalRoot].requestId == m.requestId
    && c.pending[m.canonicalRoot].baseProjectRevision == m.baseProjectRevision
  }

  /** How a protocol page is shown: a loaded one with its children, a missing one with none, an error with
      its message. */
  predicate ShowsPage(page: Page, root: string, revision: nat, told: ProtocolPage) {
    && page.canonicalRoot == root && page.projectRevision == revision && page.directory == told.directory
    && (told.LoadedPage? ==>
          page.status.Loaded? && page.childDirectories == told.childDirectories && page.message == "")
    && (told.MissingPage? ==> page.status.Missing? && page.childDirectories == [] && page.message == "")
    && (told.ErrorPage? ==> page.status.Error? && page.childDirectories == [] && page.message == told.message)
  }

  lemma ResultsAreShown(root: string, revision: nat, pages: seq<ProtocolPage>, k: nat)
    requires k < |pages|
    ensures exists page :: page in ResultPages(root, revision, pages) && ShowsPage(page, root, revision, pages[k])
  {
    var shown := ResultPages(root, revision, pages)[k];
    assert shown in ResultPages(root, revision, pages) && ShowsPage(shown, root, revision, pages[k]);
  }

  // Only the pages of `root` are given up, and its request.
  ghost predicate GivesUp(c: Cache, n: Cache, root: string) {
    && n == c.(pending := n.pending, pages := n.pages) && n.pending == c.pending - {root}
    && forall page :: page in n.pages <==> page in c.pages && page.canonicalRoot != root
  }

  // A directory is known to be missing: its page says so, or the loaded page above it does not list it.
  ghost predicate KnownMissing(pages: seq<Page>, root: string, directory: string, revision: nat) {
    || (exists page :: PageAt(pages, page, root, directory, revision) && page.status.Missing?)
    || (exists page, parent ::
          IsParent(parent, directory) && PageAt(pages, page, root, parent, revision)
          && page.status.Loaded? && directory !in page.childDirectories)
  }

  lemma KnownMissingIs(pages: seq<Page>, root: string, directory: string, revision: nat)
    requires Unique(pages)
    ensures KnownMissing(pages, root, directory, revision) <==> ProvenMissing(pages, root, directory, revision)
  {
    var parent := ParentDirectory(directory);
    ParentIs(directory);
    var exact, above := FindPage(pages, root, directory, revision), FindPage(pages, root, parent, revision);
    if KnownMissing(pages, root, directory, revision) {
      if page :| PageAt(pages, page, root, directory, revision) && page.status.Missing? {
        FoundIs(pages, page, root, directory, revision);
      } else {
        var page, p :| IsParent(p, directory) && PageAt(pages, page, root, p, revision)
                       && page.status.Loaded? && directory !in page.childDirectories;
        OneParent(p, parent, directory);
        FoundIs(pages, page, root, parent, revision);
      }
    }
    if exact.Some? {
      FoundIs(pages, exact.value, root, directory, revision);
    }
    if above.Some? {
      FoundIs(pages, above.value, root, parent, revision);
    }
  }

  /** What an answer that fits the live revision leaves: its pages in place, the request done, the
      destination kept and moved to the revision unless it is known to be missing, and exactly the
      entries dropped that are known to be missing. */
  ghost predicate Answered(c: Cache, n: Cache, m: DirectoryResult)
    requires m.outcome.Pages?
  {
    var root, revision := m.canonicalRoot, m.projectRevision;
    && n.pending == c.pending - {root} && n.projects == c.projects && n.ready == c.ready
    && (forall k :: 0 <= k < |m.outcome.pages| ==>
          exists page :: page in n.pages && ShowsPage(page, root, revision, m.outcome.pages[k]))
    && (forall e :: e in n.expanded <==>
          e in c.expanded
          && !(e.canonicalRoot == root && e.directory != "" && KnownMissing(n.pages, root, e.directory, revision)))
    && match c.destination
       case None => n.destination.None?
       case Some(d) =>
         if d.canonicalRoot != root then n.destination == c.destination
         else if d.directory != "" && KnownMissing(n.pages, root, d.directory, d.projectRevision) then
           n.destination.None?
         else n.destination == Some(Destination(root, d.projectName, revision, d.directory))
  }

  lemma AcceptAnswers(c: Cache, m: DirectoryResult)
    requires Unique(c.pages) && ResultOk(m) && m.outcome.Pages?
    ensures Answered(c, Accept(c, m), m)
  {
    var root, revision := m.canonicalRoot, m.projectRevision;
    var n := Accept(c, m);
    AcceptedUnique(c, m);
    forall k | 0 <= k < |m.outcome.pages|
      ensures exists page :: page in n.pages && ShowsPage(page, root, revision, m.outcome.pages[k])
    {
      ResultsAreShown(root, revision, m.outcome.pages, k);
    }
    forall e: Entry
      ensures KnownMissing(n.pages, root, e.directory, revision)
         <==> ProvenMissing(n.pages, root, e.directory, revision)
    {
      KnownMissingIs(n.pages, root, e.directory, revision);
    }
    if c.destination.Some? {
      KnownMissingIs(n.pages, root, c.destination.value.directory, c.destination.value.projectRevision);
    }
  }

  /** What becomes of an answer: one that is not expected changes nothing; one that is ahead of the live
      Project is set aside whole, and nothing else changes; one that is behind, stale, or about other
      directories gives up the request and the Project's pages; any other is applied. */
  lemma AnswersExactly(c: Cache, session: nat, m: DirectoryResult)
    requires Inv(c) && ResultOk(m)
    ensures var n := TakeStep(c, ResultReceived(session, m));
            var root := m.canonicalRoot;
            if !Expected(c, session, m) then n == c
            else
              && Live(c.projects, root).Some?
              && var revision := Live(c.projects, root).value.revision;
                 if m.projectRevision > revision then
                   n == c.(pending := c.pending[root := c.pending[root].(deferredResult := Some(m))])
                 else if m.projectRevision < revision || m.outcome.Stale?
                         || !SameDirectorySet(c.pending[root].directories, DirectoriesOf(m.outcome.pages)) then
                   GivesUp(c, n, root)
                 else Answered(c, n, m)
  {
    if Expected(c, session, m) {
      assert RequestOk(m.canonicalRoot, c.pending[m.canonicalRoot], c.projects);
      if m.outcome.Pages? {
        AcceptAnswers(c, m);
      }
    }
  }

  // ---------- Snapshots ----------

  // The step of a snapshot that takes the Projects over.
  lemma TakenSnapshot(c: Cache, projects: seq<Project>, root: string)
    ensures var t := TakeSnapshot(c, projects);
            && (root in t.pending <==>
                root in c.pending && Live(projects, root).Some?
                && Live(projects, root).value.revision <= c.pending[root].baseProjectRevision + 1)
            && (root in t.pending ==> t.pending[root] == c.pending[root])
            && (forall directory :: Entry(root, directory) in t.expanded <==>
                  Entry(root, directory) in c.expanded && Live(projects, root).Some?)
            && (c.destination.None? ==> t.destination.None?)
            && (c.destination.Some? && c.destination.value.canonicalRoot == root ==>
                  if Live(projects, root).None? then t.destination.None?
                  else
                    var project := Live(projects, root).value;
                    t.destination
                    == Some(Destination(root, project.name, project.revision, c.destination.value.directory)))
  {}

  // A deferred answer for `root` that the snapshot makes due.
  predicate IsDue(c: Cache, project: Project) {
    && project.canonicalRoot in c.pending
    && c.pending[project.canonicalRoot].deferredResult.Some?
    && c.pending[project.canonicalRoot].deferredResult.value.projectRevision == project.revision
    && project.revision <= c.pending[project.canonicalRoot].baseProjectRevision + 1
  }

  // Applying what was deferred for one Project leaves the others' requests and pages alone.
  lemma DeferredLeavesOthers(c: Cache, project: Project, root: string)
    requires Inv(c) || Coherent(c)
    requires root != project.canonicalRoot
    ensures root in ApplyDeferred(c, project).pending <==> root in c.pending
    ensures root in c.pending ==> ApplyDeferred(c, project).pending[root] == c.pending[root]
  {
    if project.canonicalRoot in c.pending {
      assert RequestOk(project.canonicalRoot, c.pending[project.canonicalRoot], c.projects);
    }
  }

  lemma {:induction false} DueStaysDue(c: Cache, projects: seq<Project>, count: nat, k: nat)
    requires Coherent(c) && c.projects == projects && DistinctRoots(projects) && count <= k < |projects|
    ensures IsDue(ApplyAllDeferred(c, projects, count), projects[k]) <==> IsDue(c, projects[k])
    ensures IsDue(c, projects[k]) ==>
              ApplyAllDeferred(c, projects, count).pending[projects[k].canonicalRoot]
              == c.pending[projects[k].canonicalRoot]
  {
    if count == 0 {
    } else {
      DueStaysDue(c, projects, count - 1, k);
      ApplyAllKeeps(c, projects, count - 1);
      DeferredLeavesOthers(ApplyAllDeferred(c, projects, count - 1), projects[count - 1], projects[k].canonicalRoot);
    }
  }

  /** An answer that was set aside is applied when the snapshot brings the revision it is for: just as it
      would have been had it come then. */
  lemma DeferredIsApplied(c: Cache, projects: seq<Project>, k: nat)
    requires Inv(c) && SnapshotOk(c.projects, projects) && c.ready && k < |projects| && IsDue(c, projects[k])
    ensures var before := ApplyAllDeferred(TakeSnapshot(c, projects), projects, k);
            var after := ApplyAllDeferred(TakeSnapshot(c, projects), projects, k + 1);
            var m := c.pending[projects[k].canonicalRoot].deferredResult.value;
            && projects[k].canonicalRoot !in after.pending
            && if m.outcome.Stale?
                  || !SameDirectorySet(c.pending[projects[k].canonicalRoot].directories, DirectoriesOf(m.outcome.pages))
               then GivesUp(before, after, projects[k].canonicalRoot)
               else Answered(before, after, m)
  {
    var root := projects[k].canonicalRoot;
    var t := TakeSnapshot(c, projects);
    var m := c.pending[root].deferredResult.value;
    SnapshotKeeps(c, projects);
    LiveOf(projects, k);
    assert RequestOk(root, c.pending[root], c.projects);
    TakenSnapshot(c, projects, root);
    assert IsDue(t, projects[k]);
    DueStaysDue(t, projects, k, k);
    ApplyAllKeeps(t, projects, k);
    DueIsApplied(ApplyAllDeferred(t, projects, k), projects[k]);
  }

  lemma DueIsApplied(c: Cache, project: Project)
    requires Coherent(c) && IsDue(c, project) && Live(c.projects, project.canonicalRoot) == Some(project)
    ensures var (n, request) := (ApplyDeferred(c, project), c.pending[project.canonicalRoot]);
            var m := request.deferredResult.value;
            && project.canonicalRoot !in n.pending
            && if m.outcome.Stale? || !SameDirectorySet(request.directories, DirectoriesOf(m.outcome.pages))
               then GivesUp(c, n, project.canonicalRoot)
               else Answered(c, n, m)
  {
    var m := c.pending[project.canonicalRoot].deferredResult.value;
    assert RequestOk(project.canonicalRoot, c.pending[project.canonicalRoot], c.projects);
    if m.outcome.Pages? {
      AcceptAnswers(c, m);
    }
  }

  // ---------- A whole snapshot ----------

  predicate PlainRoots(projects: seq<Project>) {
    forall k :: 0 <= k < |projects| ==> NUL !in projects[k].canonicalRoot
  }

  /** A page that no asking for directories replaces: not missing, and at the live revision or waiting with
      its Project's request. */
  predicate Stays(c: Cache, page: Page) {
    && page in c.pages && !page.status.Missing? && NUL !in page.canonicalRoot
    && Live(c.projects, page.canonicalRoot).Some?
    && (page.canonicalRoot in c.pending || page.projectRevision == Live(c.projects, page.canonicalRoot).value.revision)
  }

  lemma KeysApart(page: Page, root: string, pages: seq<Page>)
    requires NUL !in page.canonicalRoot && NUL !in root && page.canonicalRoot != root
    requires forall p :: p in pages ==> p.canonicalRoot == root
    ensures !KeyIn(PageKey(page), pages)
  {
    if KeyIn(PageKey(page), pages) {
      var p :| p in pages && PageKey(p) == PageKey(page);
      KeysTellSlotsApart(p, page);
    }
  }

  lemma AskKeepsPage(c: Cache, root: string, sending: Sending, page: Page)
    requires Inv(c) && Stays(c, page) && PlainRoots(c.projects)
    ensures var n := RequestDirectories(c, root, None, sending);
            n.ready ==> Stays(n, page) && n.projects == c.projects
  {
    var n := RequestDirectories(c, root, None, sending);
    if n.ready && n != c {
      var wanted := WantedDirectories(c, root, None);
      var revision := Live(c.projects, root).value.revision;
      var loading := LoadingPages(root, revision, wanted);
      LoadingAre(root, revision, wanted);
      PlainLive(c.projects, root);
      if page.canonicalRoot == root {
        FoundIs(c.pages, page, root, page.directory, revision);
        forall p | p in loading
          ensures PageKey(p) != PageKey(page)
        {
          KeysTellSlotsApart(p, page);
        }
      } else {
        KeysApart(page, root, loading);
      }
    }
  }

  lemma PlainLive(projects: seq<Project>, root: string)
    requires PlainRoots(projects) && Live(projects, root).Some?
    ensures NUL !in root
  {
    var k :| 0 <= k < |projects| && projects[k] == Live(projects, root).value;
  }

  lemma {:induction false} AskAllKeepsPage(c: Cache, projects: seq<Project>, sendings: seq<Sending>, count: nat,
                                           page: Page)
    requires Inv(c) && Stays(c, page) && PlainRoots(c.projects) && count <= |projects| == |sendings|
    ensures var n := RequestAll(c, projects, sendings, count); n.ready ==> Stays(n, page) && n.projects == c.projects
  {
    if count == 0 {
    } else {
      AskAllKeepsPage(c, projects, sendings, count - 1, page);
      RequestAllKeeps(c, projects, sendings, count - 1);
      var before := RequestAll(c, projects, sendings, count - 1);
      if before.ready {
        AskKeepsPage(before, projects[count - 1].canonicalRoot, sendings[count - 1], page);
      }
    }
  }

  // Requests that are pending after asking again were pending before, or are new.
  lemma {:induction false} AskAllIsNew(c: Cache, projects: seq<Project>, sendings: seq<Sending>, count: nat,
                                       root: string)
    requires count <= |projects| == |sendings|
    ensures var n := RequestAll(c, projects, sendings, count);
            && n.nextRequest >= c.nextRequest && n.destination == c.destination && n.expanded == c.expanded
            && (root in n.pending ==>
                (root in c.pending && n.pending[root] == c.pending[root]) || n.pending[root].requestId >= c.nextRequest)
  {
    if count == 0 {
    } else {
      AskAllIsNew(c, projects, sendings, count - 1, root);
      AskingKeepsChoice(RequestAll(c, projects, sendings, count - 1), projects[count - 1].canonicalRoot, None,
                        sendings[count - 1]);
    }
  }

  // What is applied for one Project leaves the pages of the others, and what is chosen in them, alone.
  lemma AppliedLeavesPage(c: Cache, project: Project, page: Page)
    requires Coherent(c) && Stays(c, page) && NUL !in project.canonicalRoot
    requires page.canonicalRoot != project.canonicalRoot
    requires c.ready && Live(c.projects, project.canonicalRoot) == Some(project)
    ensures Stays(ApplyDeferred(c, project), page) && ApplyDeferred(c, project).projects == c.projects
  {
    var root := project.canonicalRoot;
    if IsDue(c, project) {
      assert RequestOk(root, c.pending[root], c.projects);
      var m := c.pending[root].deferredResult.value;
      if m.outcome.Pages? {
        var results := ResultPages(root, m.projectRevision, m.outcome.pages);
        forall p | p in results
          ensures p.canonicalRoot == root
        {
          var k :| 0 <= k < |results| && results[k] == p;
        }
        KeysApart(page, root, results);
        var promoted := PromoteAll(c.pages, root, m.baseProjectRevision, m.projectRevision);
        var k :| 0 <= k < |c.pages| && c.pages[k] == page;
        assert promoted[k] == page;
      }
    }
  }

  lemma {:induction false} AppliedAllLeavesPage(c: Cache, projects: seq<Project>, from: nat, count: nat, page: Page)
    requires Coherent(c) && c.ready && c.projects == projects && DistinctRoots(projects) && PlainRoots(projects)
    requires from <= count <= |projects| && Stays(ApplyAllDeferred(c, projects, from), page)
    requires forall k :: from <= k < count ==> projects[k].canonicalRoot != page.canonicalRoot
    ensures Stays(ApplyAllDeferred(c, projects, count), page)
  {
    if count == from {
    } else {
      AppliedAllLeavesPage(c, projects, from, count - 1, page);
      ApplyAllKeeps(c, projects, count - 1);
      NextLeavesPage(ApplyAllDeferred(c, projects, count - 1), projects, count - 1, page);
    }
  }

  lemma NextLeavesPage(before: Cache, projects: seq<Project>, k: nat, page: Page)
    requires Coherent(before) && before.ready && before.projects == projects
    requires DistinctRoots(projects) && PlainRoots(projects) && k < |projects|
    requires Stays(before, page) && projects[k].canonicalRoot != page.canonicalRoot
    ensures Stays(ApplyDeferred(before, projects[k]), page)
  {
    LiveOf(projects, k);
    AppliedLeavesPage(before, projects[k], page);
  }

  // Requests carry ids given out before.
  predicate IdsAreOld(c: Cache) {
    forall root :: root in c.pending ==> c.pending[root].requestId < c.nextRequest
  }

  lemma {:induction false} AppliedKeepsOldIds(c: Cache, projects: seq<Project>, count: nat)
    requires IdsAreOld(c) && count <= |projects|
    ensures IdsAreOld(ApplyAllDeferred(c, projects, count))
  {
    if count == 0 {
    } else {
      AppliedKeepsOldIds(c, projects, count - 1);
    }
  }

  lemma {:induction false} AskAllKeepsOldIds(c: Cache, projects: seq<Project>, sendings: seq<Sending>, count: nat)
    requires IdsAreOld(c) && count <= |projects| == |sendings|
    ensures IdsAreOld(RequestAll(c, projects, sendings, count))
  {
    if count == 0 {
    } else {
      AskAllKeepsOldIds(c, projects, sendings, count - 1);
    }
  }

  lemma StepKeepsOldIds(c: Cache, step: Step)
    requires IdsAreOld(c) && CanStep(c, step)
    ensures IdsAreOld(TakeStep(c, step))
  {
    if step.ProjectsSnapshot? {
      var taken := TakeSnapshot(c, step.projects);
      AppliedKeepsOldIds(taken, step.projects, |step.projects|);
      AskAllKeepsOldIds(ApplyAllDeferred(taken, step.projects, |step.projects|), step.projects, step.sendings,
                        |step.projects|);
    }
  }

  lemma {:induction false} RunKeepsOldIds(run: seq<Cache>, steps: seq<Step>, k: nat)
    requires IsRun(run, steps) && k < |run|
    ensures IdsAreOld(run[k])
  {
    if k == 0 {
    } else {
      RunKeepsOldIds(run, steps, k - 1);
      StepKeepsOldIds(run[k - 1], steps[k - 1]);
    }
  }

  lemma {:induction false} AppliedStaysDone(c: Cache, projects: seq<Project>, from: nat, count: nat, root: string)
    requires from <= count <= |projects| && root !in ApplyAllDeferred(c, projects, from).pending
    ensures root !in ApplyAllDeferred(c, projects, count).pending
  {
    if count == from {
    } else {
      AppliedStaysDone(c, projects, from, count - 1, root);
    }
  }

  lemma {:induction false} AppliedKeepsIds(c: Cache, projects: seq<Project>, count: nat)
    requires count <= |projects|
    ensures ApplyAllDeferred(c, projects, count).nextRequest == c.nextRequest
  {
    if count == 0 {
    } else {
      AppliedKeepsIds(c, projects, count - 1);
    }
  }

  // What the first half of a snapshot leaves is a valid cache, ready to ask again.
  lemma SnapshotApplied(c: Cache, projects: seq<Project>)
    requires Inv(c) && c.ready && SnapshotOk(c.projects, projects)
    ensures var applied := ApplyAllDeferred(TakeSnapshot(c, projects), projects, |projects|);
            Inv(applied) && applied.projects == projects && applied.nextRequest == c.nextRequest
  {
    var taken := TakeSnapshot(c, projects);
    SnapshotKeeps(c, projects);
    ApplyAllKeeps(taken, projects, |projects|);
    AppliedKeepsIds(taken, projects, |projects|);
    var applied := ApplyAllDeferred(taken, projects, |projects|);
    forall root
      ensures StillEarly(root, applied.pending, projects)
    {
      if Live(projects, root).Some? {
        var k :| 0 <= k < |projects| && projects[k] == Live(projects, root).value;
        assert StillEarly(projects[k].canonicalRoot, applied.pending, projects);
      }
    }
  }

  // A page that is there once its Project's answer was looked at is there in the end.
  lemma PageStaysThrough(c: Cache, projects: seq<Project>, sendings: seq<Sending>, from: nat, page: Page)
    requires Inv(c) && CanStep(c, ProjectsSnapshot(projects, sendings)) && PlainRoots(projects) && from <= |projects|
    requires Stays(ApplyAllDeferred(TakeSnapshot(c, projects), projects, from), page)
    requires forall k :: from <= k < |projects| ==> projects[k].canonicalRoot != page.canonicalRoot
    ensures var n := TakeStep(c, ProjectsSnapshot(projects, sendings)); n.ready ==> page in n.pages
  {
    var t := TakeSnapshot(c, projects);
    SnapshotKeeps(c, projects);
    AppliedAllLeavesPage(t, projects, from, |projects|, page);
    SnapshotApplied(c, projects);
    AskAllKeepsPage(ApplyAllDeferred(t, projects, |projects|), projects, sendings, |projects|, page);
  }

  lemma DueRequestIsDone(c: Cache, projects: seq<Project>, sendings: seq<Sending>, k: nat)
    requires Inv(c) && CanStep(c, ProjectsSnapshot(projects, sendings))
    requires k < |projects| && IsDue(c, projects[k]) && IdsAreOld(c)
    ensures var n := TakeStep(c, ProjectsSnapshot(projects, sendings));
            var root := projects[k].canonicalRoot;
            root in n.pending ==> n.pending[root].requestId != c.pending[root].requestId
  {
    var root := projects[k].canonicalRoot;
    var t := TakeSnapshot(c, projects);
    DeferredIsApplied(c, projects, k);
    AppliedStaysDone(t, projects, k + 1, |projects|, root);
    AskAllIsNew(ApplyAllDeferred(t, projects, |projects|), projects, sendings, |projects|, root);
    AppliedKeepsIds(t, projects, |projects|);
  }

  /** When a snapshot brings the revision that an answer was set aside for, the request is done, and every
      loaded page of the answer shows, unless the connection is lost on the way. */
  lemma DueAnswerShows(c: Cache, projects: seq<Project>, sendings: seq<Sending>, k: nat, told: ProtocolPage)
    requires Reachable(c) && CanStep(c, ProjectsSnapshot(projects, sendings)) && PlainRoots(projects)
    requires k < |projects| && IsDue(c, projects[k])
    ensures var n := TakeStep(c, ProjectsSnapshot(projects, sendings));
            var root := projects[k].canonicalRoot;
            && (root in n.pending ==> n.pending[root].requestId != c.pending[root].requestId)
            && var m := c.pending[root].deferredResult.value;
               (m.outcome.Pages? && SameDirectorySet(c.pending[root].directories, DirectoriesOf(m.outcome.pages))
                && told in m.outcome.pages && told.LoadedPage? && n.ready ==>
                  exists page :: page in n.pages && ShowsPage(page, root, projects[k].revision, told))
  {
    var root := projects[k].canonicalRoot;
    ReachableInv(c);
    var run: seq<Cache>, steps: seq<Step> :| IsRun(run, steps) && run[|run| - 1] == c;
    RunKeepsOldIds(run, steps, |run| - 1);
    DueRequestIsDone(c, projects, sendings, k);
    var m := c.pending[root].deferredResult.value;
    if m.outcome.Pages? && SameDirectorySet(c.pending[root].directories, DirectoriesOf(m.outcome.pages))
        && told in m.outcome.pages && told.LoadedPage? {
      var page := DuePage(c, projects, k, told);
      PageStaysThrough(c, projects, sendings, k + 1, page);
    }
  }

  lemma DuePage(c: Cache, projects: seq<Project>, k: nat, told: ProtocolPage) returns (page: Page)
    requires Inv(c) && c.ready && SnapshotOk(c.projects, projects) && PlainRoots(projects)
    requires k < |projects| && IsDue(c, projects[k]) && told.LoadedPage?
    requires var root := projects[k].canonicalRoot;
             var m := c.pending[root].deferredResult.value;
             && m.outcome.Pages? && told in m.outcome.pages
             && SameDirectorySet(c.pending[root].directories, DirectoriesOf(m.outcome.pages))
    ensures Stays(ApplyAllDeferred(TakeSnapshot(c, projects), projects, k + 1), page)
    ensures ShowsPage(page, projects[k].canonicalRoot, projects[k].revision, told)
    ensures forall j :: k < j < |projects| ==> projects[j].canonicalRoot != page.canonicalRoot
  {
    var root := projects[k].canonicalRoot;
    var t := TakeSnapshot(c, projects);
    var m := c.pending[root].deferredResult.value;
    SnapshotKeeps(c, projects);
    DeferredIsApplied(c, projects, k);
    var after := ApplyAllDeferred(t, projects, k + 1);
    var j :| 0 <= j < |m.outcome.pages| && m.outcome.pages[j] == told;
    assert RequestOk(root, c.pending[root], c.projects);
    page :| page in after.pages && ShowsPage(page, root, m.projectRevision, m.outcome.pages[j]);
    ApplyAllKeeps(t, projects, k + 1);
    LiveOf(projects, k);
  }

  /** A snapshot leaves the pages of a Project alone that is still live, at the same revision or waiting for
      an answer that is not due yet: all but those that are only known to be missing, which are asked for
      again. */
  lemma SnapshotKeepsPages(c: Cache, projects: seq<Project>, sendings: seq<Sending>, page: Page)
    requires Inv(c) && CanStep(c, ProjectsSnapshot(projects, sendings)) && PlainRoots(projects)
    requires page in c.pages && !page.status.Missing? && Live(projects, page.canonicalRoot).Some?
    requires var project := Live(projects, page.canonicalRoot).value;
             && !IsDue(c, project)
             && if page.canonicalRoot in c.pending then
                  project.revision <= c.pending[page.canonicalRoot].baseProjectRevision + 1
                else Live(c.projects, page.canonicalRoot) == Some(project)
    ensures var n := TakeStep(c, ProjectsSnapshot(projects, sendings)); n.ready ==> page in n.pages
  {
    var k := PageOfSnapshot(c, projects, page);
    PageStaysThrough(c, projects, sendings, k + 1, page);
  }

  lemma PageOfSnapshot(c: Cache, projects: seq<Project>, page: Page) returns (k: nat)
    requires Inv(c) && c.ready && SnapshotOk(c.projects, projects) && PlainRoots(projects)
    requires page in c.pages && !page.status.Missing? && Live(projects, page.canonicalRoot).Some?
    requires var project := Live(projects, page.canonicalRoot).value;
             && !IsDue(c, project)
             && if page.canonicalRoot in c.pending then
                  project.revision <= c.pending[page.canonicalRoot].baseProjectRevision + 1
                else Live(c.projects, page.canonicalRoot) == Some(project)
    ensures k < |projects| && projects[k].canonicalRoot == page.canonicalRoot
    ensures Stays(ApplyAllDeferred(TakeSnapshot(c, projects), projects, k + 1), page)
    ensures forall j :: k < j < |projects| ==> projects[j].canonicalRoot != page.canonicalRoot
  {
    var t := TakeSnapshot(c, projects);
    SnapshotKeeps(c, projects);
    assert PageOk(page, c.projects, c.pending);
    PlainLive(projects, page.canonicalRoot);
    assert Stays(t, page);
    k :| 0 <= k < |projects| && projects[k] == Live(projects, page.canonicalRoot).value;
    LiveOf(projects, k);
    AppliedAllLeavesPage(t, projects, 0, k, page);
    DueStaysDue(t, projects, k, k);
    TakenDue(c, projects, k);
    ApplyAllKeeps(t, projects, k);
    AppliedMovesChoice(ApplyAllDeferred(t, projects, k), projects[k]);
  }

  // ---------- What a snapshot does to what is chosen ----------

  predicate StaysExpanded(c: Cache, projects: seq<Project>, e: Entry) {
    var project := Live(projects, e.canonicalRoot);
    project.Some? && (e.directory == "" || !IsDue(c, project.value))
  }

  // The choice as a snapshot moves it along, and as an answer that is due may end it.
  ghost predicate ChoiceMoved(c: Cache, projects: seq<Project>, n: Cache) {
    && (forall e :: e in n.expanded ==> e in c.expanded && Live(projects, e.canonicalRoot).Some?)
    && (forall e :: e in c.expanded && StaysExpanded(c, projects, e) ==> e in n.expanded)
    && match c.destination
       case None => n.destination.None?
       case Some(d) =>
         if Live(projects, d.canonicalRoot).None? then n.destination.None?
         else
           var project := Live(projects, d.canonicalRoot).value;
           || n.destination == Some(Destination(d.canonicalRoot, project.name, project.revision, d.directory))
           || (n.destination.None? && IsDue(c, project) && d.directory != "")
  }

  // What applying one answer may do to the choice.
  lemma AppliedMovesChoice(c: Cache, project: Project)
    requires Coherent(c) && Live(c.projects, project.canonicalRoot) == Some(project)
    ensures var n := ApplyDeferred(c, project);
            && (!IsDue(c, project) ==> n == c)
            && (forall e :: e in n.expanded ==> e in c.expanded)
            && (forall e :: e in c.expanded && (e.canonicalRoot != project.canonicalRoot || e.directory == "") ==>
                  e in n.expanded)
            && (|| n.destination == c.destination
                || (n.destination.None? && c.destination.Some?
                    && c.destination.value.canonicalRoot == project.canonicalRoot
                    && c.destination.value.directory != ""))
  {
    if IsDue(c, project) {
      assert RequestOk(project.canonicalRoot, c.pending[project.canonicalRoot], c.projects);
      var m := c.pending[project.canonicalRoot].deferredResult.value;
      if c.destination.Some? && c.destination.value.canonicalRoot == project.canonicalRoot {
        assert c.destination.value.projectRevision == project.revision;
      }
    }
  }

  lemma {:induction false} AllAppliedMoveChoice(c: Cache, projects: seq<Project>, count: nat)
    requires Inv(c) && c.ready && SnapshotOk(c.projects, projects) && count <= |projects|
    ensures ChoiceMoved(c, projects, ApplyAllDeferred(TakeSnapshot(c, projects), projects, count))
  {
    if count == 0 {
      NothingAppliedYet(c, projects);
    } else {
      AllAppliedMoveChoice(c, projects, count - 1);
      NextMovesChoice(c, projects, count - 1);
    }
  }

  lemma NextMovesChoice(c: Cache, projects: seq<Project>, k: nat)
    requires Inv(c) && c.ready && SnapshotOk(c.projects, projects) && k < |projects|
    requires ChoiceMoved(c, projects, ApplyAllDeferred(TakeSnapshot(c, projects), projects, k))
    ensures ChoiceMoved(c, projects,
                        ApplyDeferred(ApplyAllDeferred(TakeSnapshot(c, projects), projects, k), projects[k]))
  {
    var t := TakeSnapshot(c, projects);
    SnapshotKeeps(c, projects);
    ApplyAllKeeps(t, projects, k);
    LiveOf(projects, k);
    DueStaysDue(t, projects, k, k);
    TakenDue(c, projects, k);
    OneMoreApplied(c, projects, ApplyAllDeferred(t, projects, k), projects[k]);
  }

  lemma OneMoreApplied(c: Cache, projects: seq<Project>, before: Cache, project: Project)
    requires Coherent(before) && before.projects == projects && Live(projects, project.canonicalRoot) == Some(project)
    requires ChoiceMoved(c, projects, before) && (IsDue(before, project) ==> IsDue(c, project))
    ensures ChoiceMoved(c, projects, ApplyDeferred(before, project))
  {
    AppliedMovesChoice(before, project);
    MovedOn(c, projects, before, ApplyDeferred(before, project), project);
  }

  lemma NothingAppliedYet(c: Cache, projects: seq<Project>)
    ensures ChoiceMoved(c, projects, TakeSnapshot(c, projects))
  {}

  lemma TakenDue(c: Cache, projects: seq<Project>, k: nat)
    requires k < |projects|
    ensures IsDue(TakeSnapshot(c, projects), projects[k]) ==> IsDue(c, projects[k])
  {}

  lemma MovedOn(c: Cache, projects: seq<Project>, before: Cache, after: Cache, project: Project)
    requires ChoiceMoved(c, projects, before) && Live(projects, project.canonicalRoot) == Some(project)
    requires after == before || IsDue(c, project)
    requires forall e :: e in after.expanded ==> e in before.expanded
    requires forall e :: e in before.expanded && (e.canonicalRoot != project.canonicalRoot || e.directory == "") ==>
               e in after.expanded
    requires || after.destination == before.destination
             || (after.destination.None? && before.destination.Some?
                 && before.destination.value.canonicalRoot == project.canonicalRoot
                 && before.destination.value.directory != "")
    ensures ChoiceMoved(c, projects, after)
  {}

  /** A snapshot moves the destination along with its live Project, name and revision, and drops it with a
      Project that is gone; entries stay expanded exactly while their Projects are live. Only an answer that
      the snapshot makes due can end either. */
  lemma SnapshotMovesChoice(c: Cache, projects: seq<Project>, sendings: seq<Sending>)
    requires Inv(c) && CanStep(c, ProjectsSnapshot(projects, sendings))
    ensures ChoiceMoved(c, projects, TakeStep(c, ProjectsSnapshot(projects, sendings)))
  {
    AllAppliedMoveChoice(c, projects, |projects|);
    AskAllIsNew(ApplyAllDeferred(TakeSnapshot(c, projects), projects, |projects|), projects, sendings, |projects|, "");
  }

  // ---------- A snapshot asks again ----------

  /** Nothing more is to be asked for: a request is pending, or no directory is wanted. */
  ghost predicate NothingToAsk(c: Cache, root: string) {
    && Live(c.projects, root).Some?
    && (root in c.pending || forall directory :: !Asked(c, root, None, directory))
  }

  lemma AskingLeavesNothing(c: Cache, root: string)
    requires Unique(c.pages) && c.ready && Live(c.projects, root).Some?
    ensures NothingToAsk(RequestDirectories(c, root, None, Sent), root)
  {
    if root !in c.pending {
      var wanted := WantedDirectories(c, root, None);
      if wanted == [] {
        forall directory
          ensures !Asked(c, root, None, directory)
        {
          AskedIsWanted(c, root, None, directory);
        }
      }
    }
  }

  // Asking for another Project's directories takes no page of this one away.
  lemma OtherAskingKeepsPages(c: Cache, root: string, sending: Sending, page: Page)
    requires Unique(c.pages) && page in c.pages && NUL !in page.canonicalRoot && NUL !in root
    requires page.canonicalRoot != root
    ensures var n := RequestDirectories(c, root, None, sending); n.ready || n == c ==> page in n.pages
  {
    var n := RequestDirectories(c, root, None, sending);
    if n != c && n.ready {
      var loading := LoadingPages(root, Live(c.projects, root).value.revision, WantedDirectories(c, root, None));
      LoadingAre(root, Live(c.projects, root).value.revision, WantedDirectories(c, root, None));
      KeysApart(page, root, loading);
    }
  }

  // Nor does it bring one.
  lemma OtherAskingBringsNone(c: Cache, root: string, sending: Sending, page: Page)
    requires page in RequestDirectories(c, root, None, sending).pages && page.canonicalRoot != root
    ensures page in c.pages
  {
    if page !in c.pages {
      LoadingAre(root, Live(c.projects, root).value.revision, WantedDirectories(c, root, None));
    }
  }

  lemma OtherAskingLeavesNothing(c: Cache, other: string, sending: Sending, root: string)
    requires Unique(c.pages) && NothingToAsk(c, root) && NUL !in root && NUL !in other && root != other
    ensures var n := RequestDirectories(c, other, None, sending); n.ready ==> NothingToAsk(n, root)
  {
    var n := RequestDirectories(c, other, None, sending);
    if n.ready && root !in c.pending {
      AskingKeepsChoice(c, other, None, sending);
      var revision := Live(c.projects, root).value.revision;
      forall directory
        ensures !Asked(n, root, None, directory)
      {
        assert !Asked(c, root, None, directory);
        if page :| PageAt(c.pages, page, root, directory, revision) && !page.status.Missing? {
          OtherAskingKeepsPages(c, other, sending, page);
          assert PageAt(n.pages, page, root, directory, revision);
        }
      }
    }
  }

  lemma {:induction false} AllAsked(c: Cache, projects: seq<Project>, sendings: seq<Sending>, count: nat, k: nat)
    requires Inv(c) && c.ready && c.projects == projects && PlainRoots(projects)
    requires k < count <= |projects| == |sendings| && sendings[k].Sent?
    ensures var n := RequestAll(c, projects, sendings, count); n.ready ==> NothingToAsk(n, projects[k].canonicalRoot)
    decreases count
  {
    RequestAllKeeps(c, projects, sendings, count - 1);
    StillThere(c, projects, sendings, count - 1);
    var before := RequestAll(c, projects, sendings, count - 1);
    if before.ready {
      if k < count - 1 {
        AllAsked(c, projects, sendings, count - 1, k);
      }
      NextAsked(before, projects, sendings, count - 1, k);
    }
  }

  lemma NextAsked(before: Cache, projects: seq<Project>, sendings: seq<Sending>, last: nat, k: nat)
    requires Inv(before) && before.ready && before.projects == projects && PlainRoots(projects)
    requires k <= last < |projects| == |sendings| && sendings[k].Sent?
    requires k < last ==> NothingToAsk(before, projects[k].canonicalRoot)
    ensures var n := RequestDirectories(before, projects[last].canonicalRoot, None, sendings[last]);
            n.ready ==> NothingToAsk(n, projects[k].canonicalRoot)
  {
    if k == last {
      LiveOf(projects, k);
      AskingLeavesNothing(before, projects[k].canonicalRoot);
    } else {
      assert projects[k].canonicalRoot != projects[last].canonicalRoot;
      OtherAskingLeavesNothing(before, projects[last].canonicalRoot, sendings[last], projects[k].canonicalRoot);
    }
  }

  // While the connection lasts, asking leaves the Projects.
  lemma {:induction false} StillThere(c: Cache, projects: seq<Project>, sendings: seq<Sending>, count: nat)
    requires count <= |projects| == |sendings|
    ensures var n := RequestAll(c, projects, sendings, count); n.ready ==> n.projects == c.projects && c.ready
  {
    if count == 0 {
    } else {
      StillThere(c, projects, sendings, count - 1);
    }
  }

  /** A snapshot leaves nothing unasked: for every Project whose request can be sent, a request is pending
      afterwards or no directory is wanted, unless the connection is lost on the way. */
  lemma SnapshotAsksAgain(c: Cache, projects: seq<Project>, sendings: seq<Sending>, k: nat)
    requires Inv(c) && CanStep(c, ProjectsSnapshot(projects, sendings)) && PlainRoots(projects)
    requires k < |projects| && sendings[k].Sent?
    ensures var n := TakeStep(c, ProjectsSnapshot(projects, sendings));
            n.ready ==> NothingToAsk(n, projects[k].canonicalRoot)
  {
    SnapshotApplied(c, projects);
    var applied := ApplyAllDeferred(TakeSnapshot(c, projects), projects, |projects|);
    AllAsked(applied, projects, sendings, |projects|, k);
  }
}
