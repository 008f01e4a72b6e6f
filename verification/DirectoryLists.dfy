/** Directory names and lists of them, as the plugin's directory cache handles them. */
module DirectoryLists {
  import opened Options
  import opened TextOrder

  function Insert(d: string, sorted: seq<string>): seq<string> {
    if sorted == [] || !Less(sorted[0], d) then [d] + sorted
    else [sorted[0]] + Insert(d, sorted[1..])
  }

  /** The directories without repetition, in order. */
  function UniqueDirectories(directories: seq<string>): seq<string> {
    if directories == [] then []
    else
      var rest := UniqueDirectories(directories[1..]);
      if directories[0] in directories[1..] then rest else Insert(directories[0], rest)
  }

  lemma {:induction false} InsertKeeps(d: string, sorted: seq<string>)
    requires Increasing(sorted) && d !in sorted
    ensures Increasing(Insert(d, sorted)) && |Insert(d, sorted)| == |sorted| + 1
    ensures forall x :: x in Insert(d, sorted) <==> x == d || x in sorted
    ensures Insert(d, sorted)[0] == d || (sorted != [] && Insert(d, sorted)[0] == sorted[0])
  {
    if sorted == [] {
    } else {
      LessTrichotomy(sorted[0], d);
      if Less(sorted[0], d) {
        InsertKeeps(d, sorted[1..]);
      }
    }
  }

  lemma {:induction false} UniqueIs(directories: seq<string>)
    ensures Increasing(UniqueDirectories(directories))
    ensures forall x :: x in UniqueDirectories(directories) <==> x in directories
    ensures |UniqueDirectories(directories)| <= |directories|
    ensures |UniqueDirectories(directories)| == |directories| <==> Distinct(directories)
  {
    if directories == [] {
    } else {
      UniqueIs(directories[1..]);
      if directories[0] in directories[1..] {
        var k :| 0 <= k < |directories| - 1 && directories[1..][k] == directories[0];
        assert directories[k + 1] == directories[0];
      } else {
        InsertKeeps(directories[0], UniqueDirectories(directories[1..]));
        assert Distinct(directories) ==> Distinct(directories[1..]);
        if Distinct(directories[1..]) {
          forall i, j | 0 <= i < j < |directories|
            ensures directories[i] != directories[j]
          {
            assert directories[j] == directories[1..][j - 1];
            if i > 0 {
              assert directories[i] == directories[1..][i - 1];
            }
          }
        }
      }
    }
  }

  // Entry by entry, with an entry past the end equal to no directory.
  predicate SameDirectorySet(left: seq<string>, right: seq<string>) {
    |left| == |right| && UniqueDirectories(left) <= UniqueDirectories(right)
  }

  /** For a request without repetition the comparison is exactly: as long, and the same directories. */
  lemma SameDirectorySetMeans(left: seq<string>, right: seq<string>)
    requires Distinct(left)
    ensures SameDirectorySet(left, right) <==> |left| == |right| && forall x :: x in left <==> x in right
  {
    UniqueIs(left);
    UniqueIs(right);
    var a, b := UniqueDirectories(left), UniqueDirectories(right);
    if SameDirectorySet(left, right) {
      assert a == b;
    }
    if |left| == |right| && forall x :: x in left <==> x in right {
      OrderIsCanonical(a, b);
    }
  }

  function LastSlash(directory: string): (at: int)
    ensures -1 <= at < |directory|
    ensures at >= 0 ==> directory[at] == '/'
    ensures forall k :: at < k < |directory| ==> directory[k] != '/'
  {
    if directory == "" then -1
    else if directory[|directory| - 1] == '/' then |directory| - 1
    else LastSlash(directory[..|directory| - 1])
  }

  function ParentDirectory(directory: string): string {
    var at := LastSlash(directory);
    if at == -1 then "" else directory[..at]
  }

  // The proper ancestors of a directory, outermost first, without the root of the Project.
  function ParentDirectories(directory: string, from: nat := 0): seq<string>
    requires from <= |directory|
    decreases |directory| - from
  {
    if from == |directory| then []
    else (if directory[from] == '/' then [directory[..from]] else []) + ParentDirectories(directory, from + 1)
  }

  lemma {:induction false} AncestorsAre(directory: string, from: nat, a: string)
    requires from <= |directory|
    ensures a in ParentDirectories(directory, from) <==>
              from <= |a| < |directory| && directory[|a|] == '/' && a == directory[..|a|]
    decreases |directory| - from
  {
    if from == |directory| {
    } else {
      AncestorsAre(directory, from + 1, a);
      assert a == directory[..from] ==> |a| == from;
    }
  }

  /** The immediate parent is the last of the ancestors, and every ancestor ends where a slash is. */
  lemma {:induction false} AncestorsOf(directory: string, from: nat)
    requires from <= |directory|
    ensures forall a :: a in ParentDirectories(directory, from) <==>
              exists k :: from <= k < |directory| && directory[k] == '/' && a == directory[..k]
    ensures from <= LastSlash(directory) ==>
              && ParentDirectories(directory, from) != []
              && ParentDirectories(directory, from)[|ParentDirectories(directory, from)| - 1]
                  == ParentDirectory(directory)
    ensures LastSlash(directory) < from ==> ParentDirectories(directory, from) == []
    decreases |directory| - from
  {
    if from == |directory| {
    } else {
      AncestorsOf(directory, from + 1);
    }
    forall a
      ensures a in ParentDirectories(directory, from) <==>
                exists k :: from <= k < |directory| && directory[k] == '/' && a == directory[..k]
    {
      AncestorsAre(directory, from, a);
    }
  }
}
