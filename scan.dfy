/**
 * The dry scan of `main`: every `stills` folder, visited in path order, has
 * its image files listed; folders with at least one image get a fresh record
 * and are grouped under their job, whose folder and image counts grow with
 * them; the image total counts every folder.
 *
 * `ScanStep` is one turn of the scan loop and `Scanned` the loop run over a
 * sequence of folders; `ScanInvariant` says, in terms of the folders alone,
 * what the scan has built, and `ScannedInvariant` proves it.
 */
module Scan {
  import opened Text
  import opened Paths

  /** The image types the script processes, compared after lower-casing. */
  const ImageExts: set<string> := {".jpg", ".jpeg", ".png", ".tif", ".tiff", ".bmp"}

  /** One child of a folder as `iterdir()` reports it. */
  datatype Entry = Entry(name: string, isFile: bool)

  /** `s.rfind('.')`: the index of the last dot, or -1. */
  function LastDot(s: string): (i: int)
    ensures -1 <= i < |s|
    ensures i >= 0 ==> s[i] == '.'
    ensures forall k :: i < k < |s| ==> s[k] != '.'
  {
    if s == [] then -1
    else if s[|s| - 1] == '.' then |s| - 1
    else LastDot(s[..|s| - 1])
  }

  /**
   * `PurePath.suffix`: from the last dot on, if that dot is neither first nor
   * last. A non-empty suffix is an extension that ends the name after a
   * non-empty stem.
   */
  function Suffix(name: string): (x: string)
    ensures x == "" || (IsExtension(x) && |x| < |name| && name[|name| - |x|..] == x)
  {
    var i := LastDot(name);
    if 0 < i < |name| - 1 then name[i..] else ""
  }

  /** A well-formed extension: a dot, then at least one character, none of them a dot. */
  predicate IsExtension(ext: string) {
    |ext| >= 2 && ext[0] == '.' && forall k :: 1 <= k < |ext| ==> ext[k] != '.'
  }

  /** A non-empty stem followed by an extension has exactly that extension as suffix. */
  lemma SuffixOf(stem: string, ext: string)
    requires stem != [] && IsExtension(ext)
    ensures Suffix(stem + ext) == ext
  {
    var name := stem + ext;
    var i := LastDot(name);
    assert name[|stem|] == '.';
    assert forall k :: |stem| < k < |name| ==> name[k] == ext[k - |stem|];
    assert name[i..] == ext;
  }

  /** `f.is_file() and f.suffix.lower() in IMAGE_EXTS`. */
  predicate IsImage(e: Entry) {
    e.isFile && Lower(Suffix(e.name)) in ImageExts
  }

  /** A file `stem + ext` is an image exactly when its extension, lower-cased, is listed. */
  lemma IsImageByExtension(stem: string, ext: string)
    requires stem != [] && IsExtension(ext)
    ensures IsImage(Entry(stem + ext, true)) <==> Lower(ext) in ImageExts
    ensures !IsImage(Entry(stem + ext, false))
  {
    SuffixOf(stem, ext);
  }

  /** The names of the image files of a folder listing, in listing order. */
  function ImageNames(entries: seq<Entry>): (names: seq<string>)
    ensures |names| <= |entries|
    ensures forall n :: n in names ==> exists e :: e in entries && IsImage(e) && e.name == n
  {
    if entries == [] then []
    else (if IsImage(entries[0]) then [entries[0].name] else []) + ImageNames(entries[1..])
  }

  /** Every image file of the listing has its name listed. */
  lemma {:induction false} ImageNamesComplete(entries: seq<Entry>)
    ensures forall e :: e in entries && IsImage(e) ==> e.name in ImageNames(entries)
  {
    if entries != [] {
      ImageNamesComplete(entries[1..]);
      forall e | e in entries && IsImage(e)
        ensures e.name in ImageNames(entries)
      {
        if e != entries[0] {
          assert e in entries[1..];
        }
      }
    }
  }

  /**
   * The names follow the listing order: the names of two listings one after
   * the other are the names of the first followed by those of the second.
   */
  lemma {:induction false} ImageNamesAppend(a: seq<Entry>, b: seq<Entry>)
    ensures ImageNames(a + b) == ImageNames(a) + ImageNames(b)
  {
    if a != [] {
      assert (a + b)[1..] == a[1..] + b;
      ImageNamesAppend(a[1..], b);
    } else {
      assert a + b == b;
    }
  }

  /** The image names of folder `d` (none for a folder that is not listed). */
  function ImagesOf(listing: map<Path, seq<Entry>>, d: Path): seq<string> {
    if d in listing then ImageNames(listing[d]) else []
  }

  function Count(listing: map<Path, seq<Entry>>, d: Path): nat {
    |ImagesOf(listing, d)|
  }

  /** The job statistics: how many folders with images, how many images. */
  datatype JobStat = JobStat(stills: nat, images: nat)

  /** The per-folder record: images found, watermarked, skipped, and the skipped names. */
  datatype FolderRecord = FolderRecord(found: nat, watermarked: nat, skipped: nat, skippedFiles: seq<string>)

  /** The record a folder with `count` images starts with. */
  function FreshRecord(count: nat): FolderRecord {
    FolderRecord(count, 0, 0, [])
  }

  /**
   * What the scan builds. The Python dictionaries are maps; `jobKeys` and
   * `folderKeys` keep the insertion order of `job_stats` and `folder_stats`.
   */
  datatype ScanState = ScanState(
    jobKeys: seq<Path>,
    jobStills: map<Path, seq<Path>>,
    jobStats: map<Path, JobStat>,
    perStillsImages: map<Path, seq<string>>,
    folderStats: map<Path, FolderRecord>,
    folderKeys: seq<Path>,
    totalImages: nat)

  const EmptyScan: ScanState := ScanState([], map[], map[], map[], map[], [], 0)

  /**
   * One turn of the scan loop, for folder `dir` whose image names are
   * `images`: the list and its count always go into the image lists and the
   * total; a folder with images also gets a fresh record, joins the end of its
   * job's folder list, and adds one folder and its images to its job's
   * statistics.
   */
  function ScanStep(st: ScanState, root: Path, dir: Path, images: seq<string>): (r: ScanState)
    requires root <= dir
    ensures r.perStillsImages == st.perStillsImages[dir := images]
    ensures r.totalImages == st.totalImages + |images|
    ensures r.folderStats == (if |images| == 0 then st.folderStats else st.folderStats[dir := FreshRecord(|images|)])
    ensures r.folderKeys == (if |images| == 0 || dir in st.folderStats then st.folderKeys else st.folderKeys + [dir])
    ensures |images| == 0 ==> r.jobKeys == st.jobKeys && r.jobStills == st.jobStills && r.jobStats == st.jobStats
    ensures |images| > 0 ==>
      var job := JobRoot(root, dir);
      var stills := if job in st.jobStills then st.jobStills[job] else [];
      var before := if job in st.jobStats then st.jobStats[job] else JobStat(0, 0);
      && r.jobStills == st.jobStills[job := stills + [dir]]
      && r.jobStats == st.jobStats[job := JobStat(before.stills + 1, before.images + |images|)]
      && r.jobKeys == (if job in st.jobStats then st.jobKeys else st.jobKeys + [job])
  {
    var st1 := st.(perStillsImages := st.perStillsImages[dir := images],
                   totalImages := st.totalImages + |images|);
    if |images| == 0 then st1 else AddFolder(st1, JobRoot(root, dir), dir, |images|)
  }

  /**
   * Tracking a folder with `count > 0` images: appended to its job's folder
   * list (`defaultdict(list)`), counted in its job's statistics
   * (`setdefault`), and given a fresh record.
   */
  function AddFolder(st: ScanState, job: Path, dir: Path, count: nat): ScanState {
    var stills := if job in st.jobStills then st.jobStills[job] else [];
    var stat := if job in st.jobStats then st.jobStats[job] else JobStat(0, 0);
    st.(jobKeys := if job in st.jobStats then st.jobKeys else st.jobKeys + [job],
        jobStills := st.jobStills[job := stills + [dir]],
        jobStats := st.jobStats[job := JobStat(stat.stills + 1, stat.images + count)],
        folderStats := st.folderStats[dir := FreshRecord(count)],
        folderKeys := if dir in st.folderStats then st.folderKeys else st.folderKeys + [dir])
  }

  /** The scan loop run over `dirs` in the given order. */
  function Scanned(root: Path, dirs: seq<Path>, listing: map<Path, seq<Entry>>): ScanState
    requires AllBelow(root, dirs)
  {
    if dirs == [] then EmptyScan
    else
      var n := |dirs|;
      ScanStep(Scanned(root, dirs[..n - 1], listing), root, dirs[n - 1], ImagesOf(listing, dirs[n - 1]))
  }

  /** Sorting keeps every folder below the root. */
  lemma SortedBelow(root: Path, dirs: seq<Path>)
    requires AllBelow(root, dirs)
    ensures AllBelow(root, SortPaths(dirs))
  {
    var sorted := SortPaths(dirs);
    forall i | 0 <= i < |sorted|
      ensures root < sorted[i]
    {
      assert sorted[i] in multiset(dirs);
    }
  }

  /** The scan of `main`: the folders are visited in path order. */
  function ScanAll(root: Path, stillsDirs: seq<Path>, listing: map<Path, seq<Entry>>): ScanState
    requires AllBelow(root, stillsDirs)
  {
    SortedBelow(root, stillsDirs);
    Scanned(root, SortPaths(stillsDirs), listing)
  }

  /** The scan over one more folder is one more step. */
  lemma ScannedNext(root: Path, dirs: seq<Path>, i: nat, listing: map<Path, seq<Entry>>)
    requires AllBelow(root, dirs) && i < |dirs|
    ensures AllBelow(root, dirs[..i]) && AllBelow(root, dirs[..i + 1])
    ensures Scanned(root, dirs[..i + 1], listing) ==
      ScanStep(Scanned(root, dirs[..i], listing), root, dirs[i], ImagesOf(listing, dirs[i]))
  {
    assert dirs[..i + 1][..i] == dirs[..i];
  }

  /** The folders with at least one image, in visiting order. */
  function WithImages(listing: map<Path, seq<Entry>>, dirs: seq<Path>): (w: seq<Path>)
    ensures forall d :: d in w <==> d in dirs && Count(listing, d) > 0
  {
    if dirs == [] then []
    else
      var n := |dirs|;
      assert dirs == dirs[..n - 1] + [dirs[n - 1]];
      WithImages(listing, dirs[..n - 1]) + (if Count(listing, dirs[n - 1]) > 0 then [dirs[n - 1]] else [])
  }

  /** The folders of `dirs` that belong to job `job`, in order. */
  function InJob(root: Path, dirs: seq<Path>, job: Path): (r: seq<Path>)
    requires AllBelow(root, dirs)
    ensures forall d :: d in r <==> d in dirs && JobRoot(root, d) == job
  {
    if dirs == [] then []
    else
      var n := |dirs|;
      assert dirs == dirs[..n - 1] + [dirs[n - 1]];
      InJob(root, dirs[..n - 1], job) + (if JobRoot(root, dirs[n - 1]) == job then [dirs[n - 1]] else [])
  }

  /** The number of images in the folders `dirs`. */
  function SumCounts(listing: map<Path, seq<Entry>>, dirs: seq<Path>): nat {
    if dirs == [] then 0
    else SumCounts(listing, dirs[..|dirs| - 1]) + Count(listing, dirs[|dirs| - 1])
  }

  lemma {:induction false} WithImagesDistinct(listing: map<Path, seq<Entry>>, dirs: seq<Path>)
    requires Distinct(dirs)
    ensures Distinct(WithImages(listing, dirs))
  {
    if dirs != [] {
      var n := |dirs|;
      WithImagesDistinct(listing, dirs[..n - 1]);
      var tail := if Count(listing, dirs[n - 1]) > 0 then [dirs[n - 1]] else [];
      assert dirs[n - 1] !in dirs[..n - 1];
      DistinctConcat(WithImages(listing, dirs[..n - 1]), tail);
    }
  }

  lemma {:induction false} InJobDistinct(root: Path, dirs: seq<Path>, job: Path)
    requires AllBelow(root, dirs) && Distinct(dirs)
    ensures Distinct(InJob(root, dirs, job))
  {
    if dirs != [] {
      var n := |dirs|;
      InJobDistinct(root, dirs[..n - 1], job);
      var tail := if JobRoot(root, dirs[n - 1]) == job then [dirs[n - 1]] else [];
      assert dirs[n - 1] !in dirs[..n - 1];
      DistinctConcat(InJob(root, dirs[..n - 1], job), tail);
    }
  }

  /** Images of the folders with images sum to the images of all folders. */
  lemma {:induction false} SumCountsWithImages(listing: map<Path, seq<Entry>>, dirs: seq<Path>)
    ensures SumCounts(listing, WithImages(listing, dirs)) == SumCounts(listing, dirs)
  {
    if dirs != [] {
      var n := |dirs|;
      var w := WithImages(listing, dirs[..n - 1]);
      SumCountsWithImages(listing, dirs[..n - 1]);
      if Count(listing, dirs[n - 1]) > 0 {
        assert (w + [dirs[n - 1]])[..|w|] == w;
      } else {
        assert w + [] == w;
      }
    }
  }

  /**
   * The folder side of what the scan over `dirs` has built: the records are
   * exactly the folders with images, in visiting order, each fresh with its
   * image count; every visited folder's image list is kept; the image total
   * counts all visited folders.
   */
  ghost predicate FoldersBuilt(st: ScanState, dirs: seq<Path>, listing: map<Path, seq<Entry>>) {
    RecordsBuilt(st, dirs, listing) && ImagesBuilt(st, dirs, listing)
  }

  /** The records part of `FoldersBuilt`. */
  ghost predicate RecordsBuilt(st: ScanState, dirs: seq<Path>, listing: map<Path, seq<Entry>>) {
    var w := WithImages(listing, dirs);
    && st.folderKeys == w
    && (forall d :: d in st.folderStats <==> d in w)
    && (forall d :: d in st.folderStats ==> st.folderStats[d] == FreshRecord(Count(listing, d)))
  }

  /** The image lists and total part of `FoldersBuilt`. */
  ghost predicate ImagesBuilt(st: ScanState, dirs: seq<Path>, listing: map<Path, seq<Entry>>) {
    && (forall d :: d in st.perStillsImages <==> d in dirs)
    && (forall d :: d in st.perStillsImages ==> st.perStillsImages[d] == ImagesOf(listing, d))
    && st.totalImages == SumCounts(listing, dirs)
  }

  /** Each job appears once in `job_stats`' order, and the three job dictionaries share their keys. */
  ghost predicate JobKeys(st: ScanState) {
    && Distinct(st.jobKeys)
    && (forall j :: j in st.jobKeys <==> j in st.jobStills)
    && (forall j :: j in st.jobStats <==> j in st.jobStills)
  }

  /** Each job lists its folders of `w`, in order, at least one, and every folder of `w` has its job. */
  ghost predicate JobStills(st: ScanState, root: Path, w: seq<Path>)
    requires AllBelow(root, w)
  {
    && (forall j :: j in st.jobStills ==> st.jobStills[j] == InJob(root, w, j) && st.jobStills[j] != [])
    && (forall d :: d in w ==> JobRoot(root, d) in st.jobStills)
  }

  /** Each job's statistics count its folders and their images. */
  ghost predicate JobTotals(st: ScanState, listing: map<Path, seq<Entry>>) {
    forall j :: j in st.jobStills ==>
      (j in st.jobStats && st.jobStats[j] == JobStat(|st.jobStills[j]|, SumCounts(listing, st.jobStills[j])))
  }

  /** The job side of what the scan has built, for the folders with images `w`. */
  ghost predicate JobsBuilt(st: ScanState, root: Path, w: seq<Path>, listing: map<Path, seq<Entry>>)
    requires AllBelow(root, w)
  {
    JobKeys(st) && JobStills(st, root, w) && JobTotals(st, listing)
  }

  /** What the scan over `dirs` has built, stated through the folders alone. */
  ghost predicate ScanInvariant(st: ScanState, root: Path, dirs: seq<Path>, listing: map<Path, seq<Entry>>)
    requires AllBelow(root, dirs)
  {
    var w := WithImages(listing, dirs);
    AllBelowSubset(root, w, dirs);
    FoldersBuilt(st, dirs, listing) && JobsBuilt(st, root, w, listing)
  }

  /** No folder of `w` belongs to a job that has no entry yet. */
  lemma {:induction false} InJobEmpty(root: Path, w: seq<Path>, job: Path)
    requires AllBelow(root, w)
    requires forall d :: d in w ==> JobRoot(root, d) != job
    ensures InJob(root, w, job) == []
  {
    if w != [] {
      InJobEmpty(root, w[..|w| - 1], job);
      assert w[|w| - 1] in w;
    }
  }

  /** The records part of one scan step, for any successor state with those fields. */
  lemma RecordsStep(st: ScanState, st': ScanState, dirs: seq<Path>, d: Path, listing: map<Path, seq<Entry>>)
    requires d !in dirs
    requires RecordsBuilt(st, dirs, listing)
    requires var n := Count(listing, d);
      && st'.folderStats == (if n == 0 then st.folderStats else st.folderStats[d := FreshRecord(n)])
      && st'.folderKeys == (if n == 0 || d in st.folderStats then st.folderKeys else st.folderKeys + [d])
    ensures RecordsBuilt(st', dirs + [d], listing)
  {
    var ds := dirs + [d];
    assert ds[..|ds| - 1] == dirs;
    assert d !in st.folderStats;
  }

  /** The image lists part of one scan step. */
  lemma ImagesStep(st: ScanState, st': ScanState, dirs: seq<Path>, d: Path, listing: map<Path, seq<Entry>>)
    requires ImagesBuilt(st, dirs, listing)
    requires st'.perStillsImages == st.perStillsImages[d := ImagesOf(listing, d)]
    requires st'.totalImages == st.totalImages + Count(listing, d)
    ensures ImagesBuilt(st', dirs + [d], listing)
  {
    var ds := dirs + [d];
    assert ds[..|ds| - 1] == dirs;
  }

  /** The folder side of one scan step. */
  lemma ScanStepFolders(st: ScanState, root: Path, dirs: seq<Path>, d: Path, listing: map<Path, seq<Entry>>)
    requires root < d && d !in dirs
    requires FoldersBuilt(st, dirs, listing)
    ensures FoldersBuilt(ScanStep(st, root, d, ImagesOf(listing, d)), dirs + [d], listing)
  {
    RecordsStep(st, ScanStep(st, root, d, ImagesOf(listing, d)), dirs, d, listing);
    ImagesStep(st, ScanStep(st, root, d, ImagesOf(listing, d)), dirs, d, listing);
  }

  /** Adding a folder keeps the job keys in step. */
  lemma AddFolderKeys(st: ScanState, job: Path, d: Path, count: nat)
    requires JobKeys(st)
    ensures JobKeys(AddFolder(st, job, d, count))
  {
    if job !in st.jobStills {
      DistinctConcat(st.jobKeys, [job]);
    }
  }

  /** Adding a folder with images extends its job's folder list and no other. */
  lemma AddFolderStills(st: ScanState, root: Path, w: seq<Path>, d: Path, count: nat)
    requires AllBelow(root, w) && root < d && d !in w
    requires JobStills(st, root, w)
    ensures AllBelow(root, w + [d])
    ensures JobStills(AddFolder(st, JobRoot(root, d), d, count), root, w + [d])
  {
    AllBelowSnoc(root, w, d);
    var w' := w + [d];
    var job := JobRoot(root, d);
    var st' := AddFolder(st, job, d, count);
    assert w'[..|w'| - 1] == w;
    if job !in st.jobStills {
      InJobEmpty(root, w, job);
    }
    forall j | j in st'.jobStills
      ensures st'.jobStills[j] == InJob(root, w', j)
    {
      if j != job {
        assert InJob(root, w', j) == InJob(root, w, j) + [];
      }
    }
  }

  /** Adding a folder of `count` images keeps every job's statistics right. */
  lemma AddFolderTotals(st: ScanState, job: Path, d: Path, listing: map<Path, seq<Entry>>)
    requires JobKeys(st) && JobTotals(st, listing)
    ensures JobTotals(AddFolder(st, job, d, Count(listing, d)), listing)
  {
    var st' := AddFolder(st, job, d, Count(listing, d));
    var old' := if job in st.jobStills then st.jobStills[job] else [];
    assert (old' + [d])[..|old'|] == old';
  }

  /** A folder with images is tracked through `AddFolder`. */
  lemma ScanStepTracks(st: ScanState, root: Path, dir: Path, images: seq<string>)
    requires root <= dir && |images| > 0
    ensures ScanStep(st, root, dir, images) ==
      AddFolder(st.(perStillsImages := st.perStillsImages[dir := images], totalImages := st.totalImages + |images|),
                JobRoot(root, dir), dir, |images|)
  {
  }

  /** A state whose every field is what a step over a folder with images makes of it is that step's result. */
  lemma ScanStepOf(st: ScanState, root: Path, dir: Path, images: seq<string>, st': ScanState)
    requires root <= dir && |images| > 0
    requires var job := JobRoot(root, dir);
      var stills := if job in st.jobStills then st.jobStills[job] else [];
      var stat := if job in st.jobStats then st.jobStats[job] else JobStat(0, 0);
      && st'.jobKeys == (if job in st.jobStats then st.jobKeys else st.jobKeys + [job])
      && st'.jobStills == st.jobStills[job := stills + [dir]]
      && st'.jobStats == st.jobStats[job := JobStat(stat.stills + 1, stat.images + |images|)]
      && st'.perStillsImages == st.perStillsImages[dir := images]
      && st'.folderStats == st.folderStats[dir := FreshRecord(|images|)]
      && st'.folderKeys == (if dir in st.folderStats then st.folderKeys else st.folderKeys + [dir])
      && st'.totalImages == st.totalImages + |images|
    ensures st' == ScanStep(st, root, dir, images)
  {
  }

  /** The job side depends on the three job dictionaries alone. */
  lemma JobsBuiltFrame(st: ScanState, st': ScanState, root: Path, w: seq<Path>, listing: map<Path, seq<Entry>>)
    requires AllBelow(root, w)
    requires st'.jobKeys == st.jobKeys && st'.jobStills == st.jobStills && st'.jobStats == st.jobStats
    requires JobsBuilt(st, root, w, listing)
    ensures JobsBuilt(st', root, w, listing)
  {
  }

  /** A folder without images leaves the job side as it was. */
  lemma ScanStepJobsNoImages(st: ScanState, root: Path, dirs: seq<Path>, d: Path, listing: map<Path, seq<Entry>>)
    requires AllBelow(root, WithImages(listing, dirs)) && root < d && d !in dirs
    requires Count(listing, d) == 0
    requires JobsBuilt(st, root, WithImages(listing, dirs), listing)
    ensures WithImages(listing, dirs + [d]) == WithImages(listing, dirs)
    ensures JobsBuilt(ScanStep(st, root, d, ImagesOf(listing, d)), root, WithImages(listing, dirs), listing)
  {
    var ds := dirs + [d];
    assert ds[..|ds| - 1] == dirs;
    assert WithImages(listing, ds) == WithImages(listing, dirs) + [];
    var st' := ScanStep(st, root, d, ImagesOf(listing, d));
    assert st'.jobKeys == st.jobKeys && st'.jobStills == st.jobStills && st'.jobStats == st.jobStats;
  }

  /** Adding a folder with images to its job keeps the job side. */
  lemma AddFolderJobs(st: ScanState, root: Path, w: seq<Path>, d: Path, listing: map<Path, seq<Entry>>)
    requires AllBelow(root, w) && root < d && d !in w
    requires JobsBuilt(st, root, w, listing)
    ensures AllBelow(root, w + [d])
    ensures JobsBuilt(AddFolder(st, JobRoot(root, d), d, Count(listing, d)), root, w + [d], listing)
  {
    AddFolderKeys(st, JobRoot(root, d), d, Count(listing, d));
    AddFolderStills(st, root, w, d, Count(listing, d));
    AddFolderTotals(st, JobRoot(root, d), d, listing);
  }

  /** A folder with images joins its job on the job side. */
  lemma ScanStepJobsImages(st: ScanState, root: Path, dirs: seq<Path>, d: Path, listing: map<Path, seq<Entry>>)
    requires AllBelow(root, WithImages(listing, dirs)) && root < d && d !in dirs
    requires Count(listing, d) > 0
    requires JobsBuilt(st, root, WithImages(listing, dirs), listing)
    ensures WithImages(listing, dirs + [d]) == WithImages(listing, dirs) + [d]
    ensures AllBelow(root, WithImages(listing, dirs) + [d])
    ensures JobsBuilt(ScanStep(st, root, d, ImagesOf(listing, d)), root, WithImages(listing, dirs) + [d], listing)
  {
    var ds := dirs + [d];
    assert WithImages(listing, ds) == WithImages(listing, dirs) + [d] by {
      assert ds[..|ds| - 1] == dirs;
    }
    var w := WithImages(listing, dirs);
    var images := ImagesOf(listing, d);
    var st1 := st.(perStillsImages := st.perStillsImages[d := images],
                   totalImages := st.totalImages + |images|);
    JobsBuiltFrame(st, st1, root, w, listing);
    assert d !in w;
    AddFolderJobs(st1, root, w, d, listing);
    ScanStepTracks(st, root, d, images);
  }

  /** The job side of one scan step. */
  lemma ScanStepJobs(st: ScanState, root: Path, dirs: seq<Path>, d: Path, listing: map<Path, seq<Entry>>)
    requires AllBelow(root, WithImages(listing, dirs)) && root < d && d !in dirs
    requires JobsBuilt(st, root, WithImages(listing, dirs), listing)
    ensures AllBelow(root, WithImages(listing, dirs + [d]))
    ensures JobsBuilt(ScanStep(st, root, d, ImagesOf(listing, d)), root, WithImages(listing, dirs + [d]), listing)
  {
    if Count(listing, d) == 0 {
      ScanStepJobsNoImages(st, root, dirs, d, listing);
    } else {
      ScanStepJobsImages(st, root, dirs, d, listing);
    }
  }

  /** One scan step keeps the invariant. */
  lemma ScanStepInvariant(st: ScanState, root: Path, dirs: seq<Path>, d: Path, listing: map<Path, seq<Entry>>)
    requires AllBelow(root, dirs) && root < d && d !in dirs
    requires ScanInvariant(st, root, dirs, listing)
    ensures AllBelow(root, dirs + [d])
    ensures ScanInvariant(ScanStep(st, root, d, ImagesOf(listing, d)), root, dirs + [d], listing)
  {
    AllBelowSnoc(root, dirs, d);
    AllBelowSubset(root, WithImages(listing, dirs), dirs);
    ScanStepFolders(st, root, dirs, d, listing);
    ScanStepJobs(st, root, dirs, d, listing);
  }

  /** The scan builds what `ScanInvariant` describes. */
  lemma {:induction false} ScannedInvariant(root: Path, dirs: seq<Path>, listing: map<Path, seq<Entry>>)
    requires AllBelow(root, dirs) && Distinct(dirs)
    ensures ScanInvariant(Scanned(root, dirs, listing), root, dirs, listing)
  {
    if dirs != [] {
      var n := |dirs|;
      var prefix, d := dirs[..n - 1], dirs[n - 1];
      assert dirs == prefix + [d];
      assert Distinct(prefix);
      assert d !in prefix;
      ScannedInvariant(root, prefix, listing);
      ScanStepInvariant(Scanned(root, prefix, listing), root, prefix, d, listing);
    }
  }
}
