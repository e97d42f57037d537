/**
 * The watermarking pass of `main`: the folders with images are visited job by
 * job, each job's folders in path order, and every image of a folder updates
 * the folder's record: written when its name yields a pole ID, skipped (and its
 * name remembered) otherwise.
 *
 * The functions here are the specification of that pass; the `Batch` module
 * runs it in place. The lemmas show that each record ends balanced, that every
 * folder with images is processed exactly once, and that the run totals agree
 * with the records.
 */
module Process {
  import opened Text
  import opened PoleId
  import opened Paths
  import opened Scan

  /**
   * Whether `watermark_image` writes the image named `name`: exactly when the
   * name yields a pole ID (the imaging work itself is not modelled).
   */
  predicate Watermarks(name: string) {
    GetPoleId(name).Some?
  }

  /**
   * One image's effect on its folder's record, where `writes` says whether
   * `watermark_image` writes an image of that name.
   */
  function RecordImage(rec: FolderRecord, name: string, writes: string -> bool): (r: FolderRecord)
    ensures r.found == rec.found
    ensures r.watermarked + r.skipped == rec.watermarked + rec.skipped + 1
    ensures r.watermarked == rec.watermarked + 1 <==> writes(name)
    ensures writes(name) ==> r.skipped == rec.skipped && r.skippedFiles == rec.skippedFiles
    ensures !writes(name) ==>
      r.watermarked == rec.watermarked && r.skipped == rec.skipped + 1 && r.skippedFiles == rec.skippedFiles + [name]
  {
    if writes(name) then rec.(watermarked := rec.watermarked + 1)
    else rec.(skipped := rec.skipped + 1, skippedFiles := rec.skippedFiles + [name])
  }

  /**
   * The images `names` of a folder processed in order, starting from `rec`:
   * `found` is kept, every image is counted as either watermarked or skipped,
   * and one name is remembered per skip.
   */
  function Tally(rec: FolderRecord, names: seq<string>, writes: string -> bool): (r: FolderRecord)
    ensures r.found == rec.found
    ensures r.watermarked + r.skipped == rec.watermarked + rec.skipped + |names|
    ensures |r.skippedFiles| - r.skipped == |rec.skippedFiles| - rec.skipped
  {
    if names == [] then rec
    else RecordImage(Tally(rec, names[..|names| - 1], writes), names[|names| - 1], writes)
  }

  /** The names of `names` that are not written, in order. */
  function Skips(names: seq<string>, writes: string -> bool): (s: seq<string>)
    ensures |s| <= |names|
  {
    if names == [] then []
    else
      var n := |names|;
      Skips(names[..n - 1], writes) + (if writes(names[n - 1]) then [] else [names[n - 1]])
  }

  /** A name is skipped exactly when it is one of the names and is not written. */
  lemma {:induction false} SkipsMembers(names: seq<string>, writes: string -> bool)
    ensures forall n :: n in Skips(names, writes) <==> n in names && !writes(n)
  {
    if names != [] {
      var k := |names|;
      SkipsMembers(names[..k - 1], writes);
      assert names == names[..k - 1] + [names[k - 1]];
    }
  }

  /** How many of the names are written. */
  function Stamped(names: seq<string>, writes: string -> bool): nat {
    if names == [] then 0
    else Stamped(names[..|names| - 1], writes) + (if writes(names[|names| - 1]) then 1 else 0)
  }

  /** One more image: the loop step of the per-folder processing. */
  lemma TallyStep(rec: FolderRecord, names: seq<string>, i: int, writes: string -> bool)
    requires 0 <= i < |names|
    ensures Tally(rec, names[..i + 1], writes) == RecordImage(Tally(rec, names[..i], writes), names[i], writes)
    ensures Stamped(names[..i + 1], writes) == Stamped(names[..i], writes) + (if writes(names[i]) then 1 else 0)
  {
    assert names[..i + 1][..i] == names[..i];
  }

  /** Every name is either written or skipped. */
  lemma {:induction false} StampedSkips(names: seq<string>, writes: string -> bool)
    ensures Stamped(names, writes) + |Skips(names, writes)| == |names|
  {
    if names != [] {
      StampedSkips(names[..|names| - 1], writes);
    }
  }

  /** In the run, the skipped names are exactly the names without a pole ID. */
  lemma SkipsUnidentified(names: seq<string>)
    ensures forall n :: n in Skips(names, Watermarks) <==> n in names && GetPoleId(n) == None
  {
    SkipsMembers(names, Watermarks);
  }

  /**
   * Processing a folder's images adds the written ones to `watermarked`, the
   * others to `skipped`, appends the skipped names in order, and leaves
   * `found` alone.
   */
  lemma {:induction false} TallyClosedForm(rec: FolderRecord, names: seq<string>, writes: string -> bool)
    ensures Tally(rec, names, writes) ==
      FolderRecord(rec.found, rec.watermarked + Stamped(names, writes), rec.skipped + |Skips(names, writes)|,
                   rec.skippedFiles + Skips(names, writes))
  {
    if names != [] {
      var n := |names|;
      TallyClosedForm(rec, names[..n - 1], writes);
      var skips := Skips(names[..n - 1], writes);
      if !writes(names[n - 1]) {
        assert rec.skippedFiles + skips + [names[n - 1]] == rec.skippedFiles + (skips + [names[n - 1]]);
      } else {
        assert skips + [] == skips;
      }
    }
  }

  /** A record whose counters add up: every image found is either watermarked or skipped, and each skip is named. */
  predicate Balanced(rec: FolderRecord) {
    rec.watermarked + rec.skipped == rec.found && |rec.skippedFiles| == rec.skipped
  }

  /**
   * A fresh record for a folder's images, once they are processed, is
   * balanced, counts the written images as watermarked and names exactly the
   * other images, in listing order.
   */
  lemma {:induction false} FolderBalanced(names: seq<string>, writes: string -> bool)
    ensures var r := Tally(FreshRecord(|names|), names, writes);
      && Balanced(r)
      && r.found == |names|
      && r.watermarked == Stamped(names, writes)
      && r.skippedFiles == Skips(names, writes)
  {
    var s := Skips(names, writes);
    var r := Tally(FreshRecord(|names|), names, writes);
    TallyClosedForm(FreshRecord(|names|), names, writes);
    assert r.skippedFiles == [] + s == s;
    assert r.watermarked == Stamped(names, writes);
    assert Balanced(r);
  }

  /** Three images of which only the first is written. */
  lemma TallyOfThree(a: string, b: string, c: string, writes: string -> bool)
    requires writes(a) && !writes(b) && !writes(c)
    ensures Tally(FreshRecord(3), [a, b, c], writes) == FolderRecord(3, 1, 2, [b, c])
  {
    var names := [a, b, c];
    assert names[..2] == [a, b] && [a, b][..1] == [a] && [a][..0] == [];
    assert Tally(FreshRecord(3), [a], writes) == FolderRecord(3, 1, 0, []);
    assert Tally(FreshRecord(3), [a, b], writes) == FolderRecord(3, 1, 1, [b]);
  }

  /**
   * A folder with a pole-ID image, an image without an underscore and an image
   * with the ignored prefix ends with one image written and the other two
   * named as skipped, in order.
   */
  lemma TallyExample(a: string, b: string, c: string)
    requires a == "603504_2025-11-25_xx.jpg" && b == "IMG0001.jpg" && c == "NoAsset_2025-11-25_xx.jpg"
    ensures Tally(FreshRecord(3), [a, b, c], Watermarks) == FolderRecord(3, 1, 2, [b, c])
  {
    GetPoleIdExampleDigits(a, "603504");
    GetPoleIdExampleNoUnderscore(b);
    GetPoleIdExampleIgnored(c, "NoAsset");
    TallyOfThree(a, b, c, Watermarks);
  }

  /** Every folder of `order` has a record and an image list. */
  predicate Ready(stats: map<Path, FolderRecord>, images: map<Path, seq<string>>, order: seq<Path>) {
    forall i :: 0 <= i < |order| ==> order[i] in stats && order[i] in images
  }

  /** The processing loop over the folders `order`, each folder's images tallied into its record. */
  function ProcessFolders(stats: map<Path, FolderRecord>, images: map<Path, seq<string>>, order: seq<Path>,
                          writes: string -> bool): (r: map<Path, FolderRecord>)
    requires Ready(stats, images, order)
    ensures r.Keys == stats.Keys
  {
    if order == [] then stats
    else
      var n := |order|;
      var prev := ProcessFolders(stats, images, order[..n - 1], writes);
      prev[order[n - 1] := Tally(prev[order[n - 1]], images[order[n - 1]], writes)]
  }

  /** The images written by the processing loop over `order`. */
  function ProcessedCount(images: map<Path, seq<string>>, order: seq<Path>, writes: string -> bool): nat
    requires forall i :: 0 <= i < |order| ==> order[i] in images
  {
    if order == [] then 0
    else ProcessedCount(images, order[..|order| - 1], writes) + Stamped(images[order[|order| - 1]], writes)
  }

  /**
   * When no folder is visited twice, each visited folder's record is its
   * starting record with the folder's images tallied once, and every other
   * record is untouched.
   */
  lemma {:induction false} ProcessFoldersAt(stats: map<Path, FolderRecord>, images: map<Path, seq<string>>, order: seq<Path>,
                                           writes: string -> bool, d: Path)
    requires Ready(stats, images, order) && Distinct(order) && d in stats
    ensures ProcessFolders(stats, images, order, writes)[d] ==
      if d in order then Tally(stats[d], images[d], writes) else stats[d]
  {
    if order != [] {
      var n := |order|;
      var prefix := order[..n - 1];
      assert Distinct(prefix);
      assert order[n - 1] !in prefix;
      assert order == prefix + [order[n - 1]];
      ProcessFoldersAt(stats, images, prefix, writes, d);
    }
  }

  /** The three counters of a record. */
  datatype Field = Found | Watermarked | Skipped

  function FieldOf(rec: FolderRecord, f: Field): nat {
    match f
    case Found => rec.found
    case Watermarked => rec.watermarked
    case Skipped => rec.skipped
  }

  /** Every key has a record. */
  predicate Keyed(stats: map<Path, FolderRecord>, keys: seq<Path>) {
    forall i :: 0 <= i < |keys| ==> keys[i] in stats
  }

  /** The sum of one counter over the records of `keys`, as `sum(... for stats in folder_stats.values())` forms it. */
  function SumField(stats: map<Path, FolderRecord>, keys: seq<Path>, f: Field): nat
    requires Keyed(stats, keys)
  {
    if keys == [] then 0
    else SumField(stats, keys[..|keys| - 1], f) + FieldOf(stats[keys[|keys| - 1]], f)
  }

  lemma {:induction false} SumFieldConcat(stats: map<Path, FolderRecord>, a: seq<Path>, b: seq<Path>, f: Field)
    requires Keyed(stats, a)
    requires Keyed(stats, b)
    ensures Keyed(stats, a + b)
    ensures SumField(stats, a + b, f) == SumField(stats, a, f) + SumField(stats, b, f)
  {
    assert forall i :: 0 <= i < |a + b| ==> (a + b)[i] in stats by {
      forall i | 0 <= i < |a + b|
        ensures (a + b)[i] in stats
      {
        if i < |a| {
          assert (a + b)[i] == a[i];
        } else {
          assert (a + b)[i] == b[i - |a|];
        }
      }
    }
    if b == [] {
      assert a + b == a;
    } else {
      var n := |b|;
      assert (a + b)[..|a + b| - 1] == a + b[..n - 1];
      SumFieldConcat(stats, a, b[..n - 1], f);
    }
  }

  /** A sum over the records does not depend on the order of the keys. */
  lemma {:induction false} SumFieldPermutation(stats: map<Path, FolderRecord>, a: seq<Path>, b: seq<Path>, f: Field)
    requires Keyed(stats, a)
    requires multiset(a) == multiset(b)
    ensures Keyed(stats, b)
    ensures SumField(stats, a, f) == SumField(stats, b, f)
    decreases |a|
  {
    assert forall i :: 0 <= i < |b| ==> b[i] in stats by {
      forall i | 0 <= i < |b|
        ensures b[i] in stats
      {
        assert b[i] in multiset(a);
      }
    }
    if a != [] {
      var n := |a|;
      var x := a[n - 1];
      assert x in multiset(b) by {
        assert x in a;
      }
      var k :| 0 <= k < |b| && b[k] == x;
      var rest := b[..k] + b[k + 1..];
      RemoveOne(a, b, k);
      SumFieldPermutation(stats, a[..n - 1], rest, f);
      SumFieldRemove(stats, b, k, f);
    }
  }

  /** Taking the last element off one sequence and an equal element off a permutation of it. */
  lemma RemoveOne(a: seq<Path>, b: seq<Path>, k: int)
    requires multiset(a) == multiset(b) && a != [] && 0 <= k < |b| && b[k] == a[|a| - 1]
    ensures multiset(a[..|a| - 1]) == multiset(b[..k] + b[k + 1..])
  {
    var n := |a|;
    var x := a[n - 1];
    assert a == a[..n - 1] + [x];
    assert b == b[..k] + [x] + b[k + 1..];
    var am, rm := multiset(a[..n - 1]), multiset(b[..k] + b[k + 1..]);
    assert am + multiset{x} == rm + multiset{x};
    forall y
      ensures am[y] == rm[y]
    {
      assert (am + multiset{x})[y] == (rm + multiset{x})[y];
    }
  }

  /** Summing with one key taken out. */
  lemma SumFieldRemove(stats: map<Path, FolderRecord>, b: seq<Path>, k: int, f: Field)
    requires Keyed(stats, b)
    requires 0 <= k < |b|
    ensures Keyed(stats, b[..k] + b[k + 1..])
    ensures SumField(stats, b, f) == SumField(stats, b[..k] + b[k + 1..], f) + FieldOf(stats[b[k]], f)
  {
    var x := b[k];
    assert b == b[..k] + [x] + b[k + 1..];
    SumFieldConcat(stats, b[..k], [x], f);
    SumFieldConcat(stats, b[..k] + [x], b[k + 1..], f);
    SumFieldConcat(stats, b[..k], b[k + 1..], f);
    assert SumField(stats, [x], f) == FieldOf(stats[x], f) by {
      assert [x][..0] == [];
    }
  }

  /** Over balanced records, the skipped images are the found ones less the watermarked ones. */
  lemma {:induction false} SumFieldBalanced(stats: map<Path, FolderRecord>, keys: seq<Path>)
    requires forall i :: 0 <= i < |keys| ==> keys[i] in stats && Balanced(stats[keys[i]])
    ensures SumField(stats, keys, Watermarked) + SumField(stats, keys, Skipped) == SumField(stats, keys, Found)
  {
    if keys != [] {
      SumFieldBalanced(stats, keys[..|keys| - 1]);
    }
  }

  /** Records that found each folder's image count sum to the image count of the folders. */
  lemma {:induction false} SumFieldCounts(stats: map<Path, FolderRecord>, listing: map<Path, seq<Entry>>, keys: seq<Path>)
    requires forall i :: 0 <= i < |keys| ==> keys[i] in stats && stats[keys[i]].found == Count(listing, keys[i])
    ensures SumField(stats, keys, Found) == SumCounts(listing, keys)
  {
    if keys != [] {
      SumFieldCounts(stats, listing, keys[..|keys| - 1]);
    }
  }

  /** Records that watermarked each folder's stamped images sum to the images the loop wrote. */
  lemma {:induction false} SumFieldStamped(stats: map<Path, FolderRecord>, images: map<Path, seq<string>>, keys: seq<Path>,
                                          writes: string -> bool)
    requires forall i :: 0 <= i < |keys| ==>
      keys[i] in stats && keys[i] in images && stats[keys[i]].watermarked == Stamped(images[keys[i]], writes)
    ensures SumField(stats, keys, Watermarked) == ProcessedCount(images, keys, writes)
  {
    if keys != [] {
      SumFieldStamped(stats, images, keys[..|keys| - 1], writes);
    }
  }

  /**
   * The visiting order of the watermarking pass: each job of `jobs` in turn,
   * followed by its folders in path order (a job without folders contributes
   * none, as the `defaultdict` gives it an empty list).
   */
  function Expand(jobs: seq<Path>, jobStills: map<Path, seq<Path>>): seq<Path> {
    if jobs == [] then []
    else (if jobs[0] in jobStills then SortPaths(jobStills[jobs[0]]) else []) + Expand(jobs[1..], jobStills)
  }

  /**
   * `stills_with_images`: the jobs in path order, each expanded into its
   * folders. A folder is visited exactly when one of the jobs lists it.
   */
  function ProcessOrder(st: ScanState): (order: seq<Path>)
    ensures forall x :: x in order <==> exists j :: j in st.jobKeys && j in st.jobStills && x in st.jobStills[j]
  {
    var jobs := SortPaths(st.jobKeys);
    ExpandAll(jobs, st.jobStills);
    SortedMembers(st.jobKeys);
    Expand(jobs, st.jobStills)
  }

  /** `ExpandMembers` for every folder at once. */
  lemma ExpandAll(jobs: seq<Path>, jobStills: map<Path, seq<Path>>)
    ensures forall x :: x in Expand(jobs, jobStills) <==> exists j :: j in jobs && j in jobStills && x in jobStills[j]
  {
    forall x
      ensures x in Expand(jobs, jobStills) <==> exists j :: j in jobs && j in jobStills && x in jobStills[j]
    {
      ExpandMembers(jobs, jobStills, x);
    }
  }

  /** A folder is visited exactly when it is listed under one of the jobs. */
  lemma {:induction false} ExpandMembers(jobs: seq<Path>, jobStills: map<Path, seq<Path>>, x: Path)
    ensures x in Expand(jobs, jobStills) <==> exists j :: j in jobs && j in jobStills && x in jobStills[j]
  {
    if jobs != [] {
      ExpandMembers(jobs[1..], jobStills, x);
      if jobs[0] in jobStills {
        assert x in SortPaths(jobStills[jobs[0]]) <==> x in multiset(jobStills[jobs[0]]);
      }
      if exists j :: j in jobs && j in jobStills && x in jobStills[j] {
        var j :| j in jobs && j in jobStills && x in jobStills[j];
        if j != jobs[0] {
          assert j in jobs[1..];
        }
      }
    }
  }

  /** A folder listed under the first job is not listed under the jobs after it. */
  lemma ExpandOthers(jobs: seq<Path>, jobStills: map<Path, seq<Path>>, x: Path)
    requires Distinct(jobs) && jobs != [] && jobs[0] in jobStills && x in jobStills[jobs[0]]
    requires forall j1, j2, x :: j1 in jobStills && j2 in jobStills && x in jobStills[j1] && x in jobStills[j2] ==> j1 == j2
    ensures x !in Expand(jobs[1..], jobStills)
  {
    forall j | j in jobs[1..] && j in jobStills
      ensures x !in jobStills[j]
    {
      var k :| 0 <= k < |jobs[1..]| && jobs[1..][k] == j;
      assert j == jobs[k + 1] != jobs[0];
    }
    ExpandMembers(jobs[1..], jobStills, x);
  }

  /**
   * The visiting order has no repetition when the jobs have none, no job lists
   * a folder twice, and no folder is listed under two jobs.
   */
  lemma {:induction false} ExpandDistinct(jobs: seq<Path>, jobStills: map<Path, seq<Path>>)
    requires Distinct(jobs)
    requires forall j :: j in jobStills ==> Distinct(jobStills[j])
    requires forall j1, j2, x :: j1 in jobStills && j2 in jobStills && x in jobStills[j1] && x in jobStills[j2] ==> j1 == j2
    ensures Distinct(Expand(jobs, jobStills))
  {
    if jobs != [] {
      var j0 := jobs[0];
      assert Distinct(jobs[1..]);
      ExpandDistinct(jobs[1..], jobStills);
      var head := if j0 in jobStills then SortPaths(jobStills[j0]) else [];
      if j0 in jobStills {
        DistinctPermutation(jobStills[j0], head);
      }
      forall x | x in head
        ensures x !in Expand(jobs[1..], jobStills)
      {
        assert x in multiset(jobStills[j0]);
        ExpandOthers(jobs, jobStills, x);
      }
      DistinctConcat(head, Expand(jobs[1..], jobStills));
    }
  }

  /**
   * After the scan, the watermarking pass visits every folder with images
   * exactly once: its order has no repetition and holds the same folders as
   * the records.
   */
  lemma ProcessOrderExact(root: Path, dirs: seq<Path>, listing: map<Path, seq<Entry>>)
    requires AllBelow(root, dirs) && Distinct(dirs)
    ensures var st := Scanned(root, dirs, listing);
      Distinct(ProcessOrder(st)) && multiset(ProcessOrder(st)) == multiset(st.folderKeys)
  {
    var st := Scanned(root, dirs, listing);
    ScannedInvariant(root, dirs, listing);
    var w := WithImages(listing, dirs);
    AllBelowSubset(root, w, dirs);
    WithImagesDistinct(listing, dirs);
    assert JobKeys(st) && JobStills(st, root, w);
    OrderOfJobs(st, root, w);
    DistinctSameElements(ProcessOrder(st), w);
  }

  /**
   * The visiting order of any state whose job side lists the folders of `w`:
   * no repetition, and exactly the folders of `w`.
   */
  lemma OrderOfJobs(st: ScanState, root: Path, w: seq<Path>)
    requires AllBelow(root, w) && Distinct(w)
    requires JobKeys(st) && JobStills(st, root, w)
    ensures Distinct(ProcessOrder(st))
    ensures forall x :: x in ProcessOrder(st) <==> x in w
  {
    var jobs := SortPaths(st.jobKeys);
    DistinctPermutation(st.jobKeys, jobs);
    forall j | j in st.jobStills
      ensures Distinct(st.jobStills[j])
    {
      InJobDistinct(root, w, j);
    }
    ExpandDistinct(jobs, st.jobStills);
    forall x
      ensures x in ProcessOrder(st) <==> x in w
    {
      OrderMember(st, root, w, x);
    }
  }

  /** One folder of `OrderOfJobs`. */
  lemma OrderMember(st: ScanState, root: Path, w: seq<Path>, x: Path)
    requires AllBelow(root, w)
    requires JobKeys(st) && JobStills(st, root, w)
    ensures x in ProcessOrder(st) <==> x in w
  {
    var jobs := SortPaths(st.jobKeys);
    ExpandMembers(jobs, st.jobStills, x);
    if x in w {
      var j := JobRoot(root, x);
      assert j in st.jobKeys;
      assert j in multiset(jobs);
    }
  }

  /** After the scan, every folder of the visiting order has a record and an image list. */
  lemma ProcessOrderReady(root: Path, dirs: seq<Path>, listing: map<Path, seq<Entry>>)
    requires AllBelow(root, dirs) && Distinct(dirs)
    ensures var st := Scanned(root, dirs, listing);
      Ready(st.folderStats, st.perStillsImages, ProcessOrder(st))
  {
    var st := Scanned(root, dirs, listing);
    ScannedInvariant(root, dirs, listing);
    ProcessOrderExact(root, dirs, listing);
    var order := ProcessOrder(st);
    forall i | 0 <= i < |order|
      ensures order[i] in st.folderStats && order[i] in st.perStillsImages
    {
      assert order[i] in multiset(st.folderKeys);
    }
  }

  /**
   * What a folder's record holds once its images are processed from a fresh
   * record: balanced, with the images found, written and skipped.
   */
  predicate ProcessedFrom(r: FolderRecord, listing: map<Path, seq<Entry>>, d: Path, writes: string -> bool) {
    && Balanced(r)
    && r.found == Count(listing, d)
    && r.watermarked == Stamped(ImagesOf(listing, d), writes)
    && r.skippedFiles == Skips(ImagesOf(listing, d), writes)
  }

  /**
   * Processing fresh records, each folder once: every record ends as its
   * folder's images tallied from the fresh record, hence balanced.
   */
  lemma ProcessedRecords(stats: map<Path, FolderRecord>, images: map<Path, seq<string>>, order: seq<Path>,
                         listing: map<Path, seq<Entry>>, writes: string -> bool)
    requires Ready(stats, images, order) && Distinct(order)
    requires forall d :: d in stats ==> d in order
    requires forall d :: d in stats ==> stats[d] == FreshRecord(Count(listing, d))
    requires forall d :: d in images ==> images[d] == ImagesOf(listing, d)
    ensures forall d :: d in stats ==> ProcessedFrom(ProcessFolders(stats, images, order, writes)[d], listing, d, writes)
  {
    forall d | d in stats
      ensures ProcessedFrom(ProcessFolders(stats, images, order, writes)[d], listing, d, writes)
    {
      var i :| 0 <= i < |order| && order[i] == d;
      ProcessedRecord(stats, images, order, listing, writes, d);
    }
  }

  /** One record of `ProcessedRecords`. */
  lemma ProcessedRecord(stats: map<Path, FolderRecord>, images: map<Path, seq<string>>, order: seq<Path>,
                        listing: map<Path, seq<Entry>>, writes: string -> bool, d: Path)
    requires Ready(stats, images, order) && Distinct(order)
    requires d in stats && d in order
    requires stats[d] == FreshRecord(Count(listing, d))
    requires images[d] == ImagesOf(listing, d)
    ensures ProcessFolders(stats, images, order, writes)[d] == Tally(FreshRecord(Count(listing, d)), ImagesOf(listing, d), writes)
    ensures ProcessedFrom(ProcessFolders(stats, images, order, writes)[d], listing, d, writes)
  {
    ProcessFoldersAt(stats, images, order, writes, d);
    FolderBalanced(ImagesOf(listing, d), writes);
  }

  /**
   * The sums over processed records: `found` sums to the images of the
   * folders, `watermarked` to the images the loop wrote, and `skipped` to the
   * difference.
   */
  lemma ProcessedSums(recs: map<Path, FolderRecord>, images: map<Path, seq<string>>, order: seq<Path>, keys: seq<Path>,
                      listing: map<Path, seq<Entry>>, writes: string -> bool)
    requires multiset(order) == multiset(keys)
    requires forall i :: 0 <= i < |keys| ==> keys[i] in recs && keys[i] in images
    requires forall d :: d in recs && d in images ==>
      && Balanced(recs[d])
      && recs[d].found == Count(listing, d)
      && recs[d].watermarked == Stamped(images[d], writes)
    ensures forall i :: 0 <= i < |order| ==> order[i] in images
    ensures SumField(recs, keys, Found) == SumCounts(listing, keys)
    ensures SumField(recs, keys, Watermarked) == ProcessedCount(images, order, writes)
    ensures SumField(recs, keys, Skipped) == SumCounts(listing, keys) - ProcessedCount(images, order, writes)
  {
    forall i | 0 <= i < |order|
      ensures order[i] in recs && order[i] in images
    {
      assert order[i] in multiset(keys);
    }
    SumFieldCounts(recs, listing, keys);
    SumFieldPermutation(recs, order, keys, Watermarked);
    SumFieldStamped(recs, images, order, writes);
    SumFieldBalanced(recs, keys);
  }

  /**
   * What the watermarking pass leaves after the scan `st`, visiting its
   * folders in `ProcessOrder`: the records are exactly the folders with
   * images, each processed from its fresh record; and summed over the records,
   * `found` gives the images found, `watermarked` the images written, and
   * `skipped` the difference.
   */
  ghost predicate Totals(st: ScanState, listing: map<Path, seq<Entry>>, writes: string -> bool) {
    var order := ProcessOrder(st);
    && Ready(st.folderStats, st.perStillsImages, order)
    && var recs := ProcessFolders(st.folderStats, st.perStillsImages, order, writes);
    && (forall d :: d in recs <==> d in st.folderKeys)
    && (forall d :: d in recs ==> ProcessedFrom(recs[d], listing, d, writes))
    && Keyed(recs, st.folderKeys)
    && SumField(recs, st.folderKeys, Found) == st.totalImages
    && SumField(recs, st.folderKeys, Watermarked) == ProcessedCount(st.perStillsImages, order, writes)
    && SumField(recs, st.folderKeys, Skipped) == st.totalImages - ProcessedCount(st.perStillsImages, order, writes)
  }

  /**
   * The records and totals after the scan and the watermarking pass: the
   * records are exactly the folders with images, each processed once from its
   * fresh record and balanced, naming its unwritten images in order; and
   * summed over the records, `found` gives the images found, `watermarked` the
   * images written, and `skipped` the difference.
   */
  lemma RunTotals(root: Path, dirs: seq<Path>, listing: map<Path, seq<Entry>>, writes: string -> bool)
    requires AllBelow(root, dirs) && Distinct(dirs)
    ensures Totals(Scanned(root, dirs, listing), listing, writes)
  {
    var st := Scanned(root, dirs, listing);
    ScannedInvariant(root, dirs, listing);
    ProcessOrderExact(root, dirs, listing);
    ProcessOrderReady(root, dirs, listing);
    var order := ProcessOrder(st);
    RecordsProcessed(st, order, dirs, listing, writes);
    var recs := ProcessFolders(st.folderStats, st.perStillsImages, order, writes);
    assert FoldersBuilt(st, dirs, listing);
    RecordsTotals(recs, st.perStillsImages, order, dirs, listing, writes);
  }

  /**
   * The records part of `RunTotals`, for any scan state whose folder side is
   * built from `dirs`, processed in an order of its folders.
   */
  lemma RecordsProcessed(st: ScanState, order: seq<Path>, dirs: seq<Path>, listing: map<Path, seq<Entry>>,
                         writes: string -> bool)
    requires FoldersBuilt(st, dirs, listing)
    requires Ready(st.folderStats, st.perStillsImages, order)
    requires Distinct(order) && multiset(order) == multiset(st.folderKeys)
    ensures var recs := ProcessFolders(st.folderStats, st.perStillsImages, order, writes);
      && (forall d :: d in recs <==> d in st.folderKeys)
      && (forall d :: d in recs ==> ProcessedFrom(recs[d], listing, d, writes))
  {
    assert forall d :: d in st.folderStats ==> d in order by {
      forall d | d in st.folderStats
        ensures d in order
      {
        assert d in multiset(st.folderKeys);
      }
    }
    ProcessedRecords(st.folderStats, st.perStillsImages, order, listing, writes);
  }

  /**
   * The sums part of `RunTotals`: records keyed by the folders with images of
   * `dirs`, each processed from its folder's images, sum to the images found,
   * the images written along `order`, and the difference.
   */
  lemma RecordsTotals(recs: map<Path, FolderRecord>, images: map<Path, seq<string>>, order: seq<Path>,
                      dirs: seq<Path>, listing: map<Path, seq<Entry>>, writes: string -> bool)
    requires forall d :: d in recs <==> d in WithImages(listing, dirs)
    requires forall d :: d in recs ==> ProcessedFrom(recs[d], listing, d, writes)
    requires forall d :: d in recs ==> d in images && images[d] == ImagesOf(listing, d)
    requires forall i :: 0 <= i < |order| ==> order[i] in images
    requires multiset(order) == multiset(WithImages(listing, dirs))
    ensures var keys := WithImages(listing, dirs);
      && Keyed(recs, keys)
      && SumField(recs, keys, Found) == SumCounts(listing, dirs)
      && SumField(recs, keys, Watermarked) == ProcessedCount(images, order, writes)
      && SumField(recs, keys, Skipped) == SumCounts(listing, dirs) - ProcessedCount(images, order, writes)
  {
    var keys := WithImages(listing, dirs);
    assert forall i :: 0 <= i < |keys| ==> keys[i] in recs && keys[i] in images by {
      forall i | 0 <= i < |keys|
        ensures keys[i] in recs && keys[i] in images
      {
        assert keys[i] in keys;
      }
    }
    forall d | d in recs && d in images
      ensures Balanced(recs[d]) && recs[d].found == Count(listing, d)
      ensures recs[d].watermarked == Stamped(images[d], writes)
    {
      assert ProcessedFrom(recs[d], listing, d, writes);
    }
    ProcessedSums(recs, images, order, keys, listing, writes);
    SumCountsWithImages(listing, dirs);
  }

  /** Once the scan has found a job, it has found images, and the watermarking pass has folders to visit. */
  lemma JobsMeanImages(root: Path, dirs: seq<Path>, listing: map<Path, seq<Entry>>)
    requires AllBelow(root, dirs) && Distinct(dirs)
    requires Scanned(root, dirs, listing).jobKeys != []
    ensures Scanned(root, dirs, listing).totalImages > 0
    ensures ProcessOrder(Scanned(root, dirs, listing)) != []
  {
    var st := Scanned(root, dirs, listing);
    ScannedInvariant(root, dirs, listing);
    var w := WithImages(listing, dirs);
    AllBelowSubset(root, w, dirs);
    assert st.folderKeys != [] by {
      var j := st.jobKeys[0];
      assert JobKeys(st) && JobStills(st, root, w);
      assert j in st.jobStills;
      assert st.jobStills[j][0] in InJob(root, w, j);
    }
    var d := st.folderKeys[0];
    assert d in w && Count(listing, d) > 0;
    ProcessOrderExact(root, dirs, listing);
    assert d in multiset(ProcessOrder(st));
    SumCountsWithImages(listing, dirs);
    SumCountsPositive(listing, w, d);
  }

  /** A folder with images makes the image count of any folders holding it positive. */
  lemma {:induction false} SumCountsPositive(listing: map<Path, seq<Entry>>, dirs: seq<Path>, d: Path)
    requires d in dirs && Count(listing, d) > 0
    ensures SumCounts(listing, dirs) > 0
  {
    var n := |dirs|;
    if dirs[n - 1] != d {
      assert d in dirs[..n - 1] by {
        assert dirs == dirs[..n - 1] + [dirs[n - 1]];
      }
      SumCountsPositive(listing, dirs[..n - 1], d);
    }
  }
}
