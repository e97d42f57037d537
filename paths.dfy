/**
 * Paths as the script handles them: a path is the sequence of its components,
 * a folder's job is the folder directly under the root that contains it, and
 * folders are ordered by the string `str()` gives them (components joined by
 * the Windows separator) in Python's code-point order.
 */
module Paths {
  import opened Text

  /** A path as its components, from the drive down. */
  type Path = seq<string>

  /** The separator `str()` puts between components on Windows. */
  const Sep: char := '\\'

  /** `p.name`: the last component (empty for the bare root). */
  function Name(p: Path): string {
    if p == [] then "" else p[|p| - 1]
  }

  /** `p.parent`: the path without its last component (the root is its own parent). */
  function Parent(p: Path): (q: Path)
    ensures q <= p
    ensures p != [] ==> q + [Name(p)] == p
  {
    if p == [] then [] else p[..|p| - 1]
  }

  /** Every folder lies strictly below the root, as the directories `os.walk` yields do. */
  predicate AllBelow(root: Path, dirs: seq<Path>) {
    forall i :: 0 <= i < |dirs| ==> root < dirs[i]
  }

  /** A sequence made of folders of a sequence below the root is below the root too. */
  lemma AllBelowSubset(root: Path, a: seq<Path>, b: seq<Path>)
    requires AllBelow(root, b)
    requires forall x :: x in a ==> x in b
    ensures AllBelow(root, a)
  {
    forall i | 0 <= i < |a|
      ensures root < a[i]
    {
      assert a[i] in a;
      var j :| 0 <= j < |b| && b[j] == a[i];
    }
  }

  lemma AllBelowSnoc(root: Path, dirs: seq<Path>, d: Path)
    requires AllBelow(root, dirs) && root < d
    ensures AllBelow(root, dirs + [d])
  {
  }

  /**
   * The job folder of `dir` (`ROOT_DIR / rel_to_root.parts[0]`, or the root
   * itself when `dir` is the root): the ancestor of `dir` one level below the
   * root.
   */
  function JobRoot(root: Path, dir: Path): (job: Path)
    requires root <= dir
    ensures root <= job && job <= dir
    ensures root < dir ==> |job| == |root| + 1
    ensures dir == root ==> job == root
  {
    var rel := dir[|root|..];
    if |rel| > 0 then root + [rel[0]] else root
  }

  /** Two folders below the root share a job exactly when they share their first component below it. */
  lemma SameJob(root: Path, a: Path, b: Path)
    requires root < a && root < b
    ensures JobRoot(root, a) == JobRoot(root, b) <==> a[|root|] == b[|root|]
  {
    var ja, jb := JobRoot(root, a), JobRoot(root, b);
    assert ja[|root|] == a[|root|] && jb[|root|] == b[|root|];
    if a[|root|] == b[|root|] {
      assert ja == root + [a[|root|]] && jb == root + [b[|root|]];
    }
  }

  /** The three parts of the progress header: job, the folder's parent below the job, folder name. */
  datatype Header = Header(jobRel: seq<string>, relParent: seq<string>, name: string)

  /**
   * `build_header_line` as written: the parent of `dir` is taken relative to
   * the job folder, which raises `ValueError` (here `None`) when the parent is
   * not inside the job folder. Each part, joined back onto the path it was
   * taken relative to, gives the path it was taken from.
   */
  function BuildHeaderAsWritten(root: Path, dir: Path): (h: Option<Header>)
    requires root <= dir
    ensures h.Some? <==> JobRoot(root, dir) <= Parent(dir)
    ensures h.Some? ==>
      && root + h.value.jobRel == JobRoot(root, dir)
      && JobRoot(root, dir) + h.value.relParent == Parent(dir)
      && h.value.name == Name(dir)
  {
    var job := JobRoot(root, dir);
    var parent := Parent(dir);
    if job <= parent then Some(Header(job[|root|..], parent[|job|..], Name(dir)))
    else None
  }

  /**
   * The header cannot be built for a folder directly under the root: its job
   * is the folder itself, and the root is not inside it. Everywhere deeper it
   * is built and names the folder's whole path below the root.
   */
  lemma HeaderAsWrittenFailsAtTop(root: Path, dir: Path)
    requires root < dir
    ensures BuildHeaderAsWritten(root, dir).None? <==> |dir| == |root| + 1
    ensures BuildHeaderAsWritten(root, dir).Some? ==>
      var h := BuildHeaderAsWritten(root, dir).value;
      h.jobRel + h.relParent + [h.name] == dir[|root|..]
  {
    var job := JobRoot(root, dir);
    var parent := Parent(dir);
    if |dir| == |root| + 1 {
      assert |parent| < |job|;
    } else {
      assert job == dir[..|root| + 1];
      assert job <= parent;
      var h := BuildHeaderAsWritten(root, dir).value;
      assert h.jobRel + h.relParent + [h.name] == dir[|root|..] by {
        assert job[|root|..] + parent[|job|..] == parent[|root|..];
        assert parent + [Name(dir)] == dir;
      }
    }
  }

  /** A concrete case: a `stills` folder kept directly in the script's folder. */
  lemma HeaderAsWrittenTopLevelStills(root: Path, dir: Path)
    requires root == ["C:", "Watermark"] && dir == root + ["stills"]
    ensures BuildHeaderAsWritten(root, dir).None?
  {
    HeaderAsWrittenFailsAtTop(root, dir);
  }

  /**
   * The header parts as evidently intended: a folder directly under the root
   * is its own job and is shown once; deeper folders as before.
   */
  function BuildHeader(root: Path, dir: Path): (h: Header)
    requires root < dir
    ensures h.jobRel + h.relParent + [h.name] == dir[|root|..]
    ensures h.name == Name(dir)
  {
    if |dir| == |root| + 1 then Header([], [], Name(dir))
    else
      var job := JobRoot(root, dir);
      var parent := Parent(dir);
      assert job == dir[..|root| + 1] && job <= parent;
      assert job[|root|..] + parent[|job|..] == parent[|root|..];
      Header(job[|root|..], parent[|job|..], Name(dir))
  }

  /** Wherever the header as written is built at all, the corrected one agrees with it. */
  lemma HeaderPartsAgree(root: Path, dir: Path)
    requires root < dir
    requires BuildHeaderAsWritten(root, dir).Some?
    ensures BuildHeaderAsWritten(root, dir).value == BuildHeader(root, dir)
  {
    HeaderAsWrittenFailsAtTop(root, dir);
  }

  /** `str(p)`, the sort key of every `sorted(..., key=lambda p: str(p))`. */
  function Key(p: Path): string {
    Join(p, Sep)
  }

  predicate KeyLe(a: Path, b: Path) {
    LexLe(Key(a), Key(b))
  }

  /** Ascending by string key. */
  predicate Sorted(s: seq<Path>) {
    forall i, j :: 0 <= i < j < |s| ==> KeyLe(s[i], s[j])
  }

  /** Insert into a sorted sequence, before the first element whose key is not smaller. */
  function Insert(x: Path, s: seq<Path>): (r: seq<Path>)
    requires Sorted(s)
    ensures Sorted(r)
    ensures multiset(r) == multiset(s) + multiset{x}
  {
    if s == [] || KeyLe(x, s[0]) then
      var r := [x] + s;
      assert Sorted(r) by {
        forall i, j | 0 <= i < j < |r|
          ensures KeyLe(r[i], r[j])
        {
          if i == 0 && j > 1 {
            LexLeTransitive(Key(x), Key(s[0]), Key(r[j]));
          }
        }
      }
      r
    else
      var rest := Insert(x, s[1..]);
      assert s == [s[0]] + s[1..];
      assert Sorted([s[0]] + rest) by {
        LexLeTotal(Key(x), Key(s[0]));
        forall k | 0 <= k < |rest|
          ensures KeyLe(s[0], rest[k])
        {
          assert rest[k] in multiset(rest);
          if rest[k] != x {
            assert rest[k] in multiset(s[1..]);
            var i :| 0 <= i < |s[1..]| && s[1..][i] == rest[k];
            assert s[i + 1] == rest[k];
          }
        }
      }
      [s[0]] + rest
  }

  /**
   * `sorted(s, key=str)`: an insertion sort, stable because each element goes
   * before the equal keys of the elements that followed it.
   */
  function SortPaths(s: seq<Path>): (r: seq<Path>)
    ensures Sorted(r)
    ensures multiset(r) == multiset(s)
  {
    if s == [] then []
    else
      assert s == [s[0]] + s[1..];
      Insert(s[0], SortPaths(s[1..]))
  }

  /** Sorting keeps exactly the paths it was given. */
  lemma SortedMembers(s: seq<Path>)
    ensures forall x :: x in SortPaths(s) <==> x in s
  {
    forall x
      ensures x in SortPaths(s) <==> x in s
    {
      assert x in SortPaths(s) <==> x in multiset(SortPaths(s));
    }
  }

  /** No path occurs twice. */
  predicate Distinct(s: seq<Path>) {
    forall i, j :: 0 <= i < j < |s| ==> s[i] != s[j]
  }

  /** In a sequence without repetitions every element is counted once. */
  lemma {:induction false} DistinctCounts(s: seq<Path>)
    requires Distinct(s)
    ensures forall x :: multiset(s)[x] == if x in s then 1 else 0
  {
    if s != [] {
      assert Distinct(s[1..]);
      DistinctCounts(s[1..]);
      assert s == [s[0]] + s[1..];
      assert s[0] !in s[1..];
    }
  }

  /** Conversely, a sequence whose elements are each counted at most once has no repetition. */
  lemma CountsDistinct(s: seq<Path>)
    requires forall x :: multiset(s)[x] <= 1
    ensures Distinct(s)
  {
    forall i, j | 0 <= i < j < |s|
      ensures s[i] != s[j]
    {
      assert s == s[..j] + s[j..];
      assert multiset(s) == multiset(s[..j]) + multiset(s[j..]);
      assert s[i] in multiset(s[..j]) && s[j] in multiset(s[j..]);
      assert multiset(s)[s[j]] == multiset(s[..j])[s[j]] + multiset(s[j..])[s[j]];
      assert multiset(s[..j])[s[i]] >= 1 && multiset(s[j..])[s[j]] >= 1;
    }
  }

  /** Reordering keeps a sequence free of repetitions. */
  lemma DistinctPermutation(a: seq<Path>, b: seq<Path>)
    requires Distinct(a) && multiset(a) == multiset(b)
    ensures Distinct(b)
  {
    DistinctCounts(a);
    CountsDistinct(b);
  }

  /** Two sequences without repetitions and with the same elements are permutations of each other. */
  lemma DistinctSameElements(a: seq<Path>, b: seq<Path>)
    requires Distinct(a) && Distinct(b)
    requires forall x :: x in a <==> x in b
    ensures multiset(a) == multiset(b)
  {
    DistinctCounts(a);
    DistinctCounts(b);
    assert forall x :: multiset(a)[x] == multiset(b)[x];
  }

  /** Joining two sequences without repetitions and without common elements. */
  lemma DistinctConcat(a: seq<Path>, b: seq<Path>)
    requires Distinct(a) && Distinct(b)
    requires forall x :: x in a ==> x !in b
    ensures Distinct(a + b)
  {
    forall i, j | 0 <= i < j < |a + b|
      ensures (a + b)[i] != (a + b)[j]
    {
      if i < |a| && |a| <= j {
        assert (a + b)[i] in a && (a + b)[j] in b;
      }
    }
  }
}
