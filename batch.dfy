/**
 * `main` as a state machine: the dictionaries and counters it builds are the
 * fields of a `Run`, which the scan loop, the confirmation and the processing
 * loops update in place. Each method is proved against the specification
 * functions of `Scan` and `Process`, whose properties are proved there.
 */
module Batch {
  import opened Text
  import opened PoleId
  import opened Paths
  import opened Scan
  import opened Process
  import opened Confirm
  import opened Report

  /** How a run ends. */
  datatype Outcome =
    | NoStillsFolders
    | NoImages
    | Declined
    | NotRecognised
    | Completed(logName: string, totalSkipped: nat)

  /** `watermark_image`: writes the image, and reports so, exactly when its name yields a pole ID. */
  method WatermarkImage(name: string) returns (written: bool)
    ensures written <==> GetPoleId(name) != None
  {
    var poleId := GetPoleId(name);
    written := poleId.Some?;
  }

  class Run {
    /** `ROOT_DIR`. */
    const root: Path
    var jobKeys: seq<Path>
    var jobStills: map<Path, seq<Path>>
    var jobStats: map<Path, JobStat>
    var perStillsImages: map<Path, seq<string>>
    var folderStats: map<Path, FolderRecord>
    var folderKeys: seq<Path>
    var totalImages: nat
    var totalProcessed: nat

    /** The scan's part of the state. */
    function State(): ScanState
      reads this
    {
      ScanState(jobKeys, jobStills, jobStats, perStillsImages, folderStats, folderKeys, totalImages)
    }

    constructor (root: Path)
      ensures this.root == root
      ensures State() == EmptyScan && totalProcessed == 0
    {
      this.root := root;
      jobKeys, jobStills, jobStats := [], map[], map[];
      perStillsImages, folderStats, folderKeys := map[], map[], [];
      totalImages, totalProcessed := 0, 0;
    }

    /** One turn of the scan loop: folder `dir`, whose image names are `images`. */
    method ScanFolder(dir: Path, images: seq<string>)
      requires root <= dir
      modifies this
      ensures State() == ScanStep(old(State()), root, dir, images)
      ensures totalProcessed == old(totalProcessed)
    {
      var count := |images|;
      if count == 0 {
        perStillsImages, totalImages := perStillsImages[dir := images], totalImages + count;
      } else {
        var job := JobRoot(root, dir);
        var stills := if job in jobStills then jobStills[job] else [];
        var stat := if job in jobStats then jobStats[job] else JobStat(0, 0);
        var keys := if job in jobStats then jobKeys else jobKeys + [job];
        var folders := if dir in folderStats then folderKeys else folderKeys + [dir];
        var newStills := jobStills[job := stills + [dir]];
        var newStats := jobStats[job := JobStat(stat.stills + 1, stat.images + count)];
        var allImages := perStillsImages[dir := images];
        var records := folderStats[dir := FreshRecord(count)];
        var total := totalImages + count;
        ScanStepOf(State(), root, dir, images, ScanState(keys, newStills, newStats, allImages, records, folders, total));
        jobKeys, jobStills, jobStats := keys, newStills, newStats;
        perStillsImages, folderStats, folderKeys, totalImages := allImages, records, folders, total;
      }
    }

    /** The scan loop over the `stills` folders, visited in path order. */
    method ScanFolders(stillsDirs: seq<Path>, listing: map<Path, seq<Entry>>)
      requires AllBelow(root, stillsDirs)
      requires State() == EmptyScan
      modifies this
      ensures State() == ScanAll(root, stillsDirs, listing)
      ensures totalProcessed == old(totalProcessed)
    {
      SortedBelow(root, stillsDirs);
      var sorted := SortPaths(stillsDirs);
      var i := 0;
      while i < |sorted|
        invariant 0 <= i <= |sorted|
        invariant State() == Scanned(root, sorted[..i], listing)
        invariant totalProcessed == old(totalProcessed)
      {
        ScannedNext(root, sorted, i, listing);
        ScanFolder(sorted[i], ImagesOf(listing, sorted[i]));
        i := i + 1;
      }
      assert sorted[..|sorted|] == sorted;
    }

    /**
     * One image of a folder: written or skipped, and counted into the folder's
     * record `stats` (returned as `next`) and, when written, into the run's total.
     */
    method ProcessImage(name: string, stats: FolderRecord) returns (next: FolderRecord)
      modifies `totalProcessed
      ensures next == RecordImage(stats, name, Watermarks)
      ensures totalProcessed == old(totalProcessed) + (if Watermarks(name) then 1 else 0)
    {
      var written := WatermarkImage(name);
      assert written == Watermarks(name);
      if written {
        totalProcessed := totalProcessed + 1;
        next := stats.(watermarked := stats.watermarked + 1);
      } else {
        next := stats.(skipped := stats.skipped + 1, skippedFiles := stats.skippedFiles + [name]);
      }
    }

    /**
     * The images of one folder, each written or skipped, counted into the
     * folder's record (held in `stats` while the loop runs).
     */
    method ProcessFolder(dir: Path)
      requires dir in folderStats && dir in perStillsImages
      modifies this
      ensures jobKeys == old(jobKeys) && jobStills == old(jobStills) && jobStats == old(jobStats)
      ensures perStillsImages == old(perStillsImages) && folderKeys == old(folderKeys)
      ensures totalImages == old(totalImages)
      ensures folderStats == old(folderStats)[dir := Tally(old(folderStats)[dir], perStillsImages[dir], Watermarks)]
      ensures totalProcessed == old(totalProcessed) + Stamped(perStillsImages[dir], Watermarks)
    {
      var images := perStillsImages[dir];
      var stats := folderStats[dir];
      ghost var start := stats;
      ghost var processed := totalProcessed;
      var i := 0;
      while i < |images|
        invariant 0 <= i <= |images|
        invariant stats == Tally(start, images[..i], Watermarks)
        invariant totalProcessed == processed + Stamped(images[..i], Watermarks)
        invariant unchanged(`jobKeys, `jobStills, `jobStats, `perStillsImages, `folderStats, `folderKeys, `totalImages)
      {
        TallyStep(start, images, i, Watermarks);
        stats := ProcessImage(images[i], stats);
        i := i + 1;
      }
      assert images[..|images|] == images;
      folderStats := folderStats[dir := stats];
    }

    /** The processing loop over the folders `order`. */
    method ProcessAll(order: seq<Path>)
      requires Ready(folderStats, perStillsImages, order)
      modifies this
      ensures jobKeys == old(jobKeys) && jobStills == old(jobStills) && jobStats == old(jobStats)
      ensures perStillsImages == old(perStillsImages) && folderKeys == old(folderKeys)
      ensures totalImages == old(totalImages)
      ensures folderStats == ProcessFolders(old(folderStats), perStillsImages, order, Watermarks)
      ensures totalProcessed == old(totalProcessed) + ProcessedCount(perStillsImages, order, Watermarks)
    {
      var i := 0;
      while i < |order|
        invariant 0 <= i <= |order|
        invariant Ready(old(folderStats), perStillsImages, order[..i])
        invariant folderStats == ProcessFolders(old(folderStats), perStillsImages, order[..i], Watermarks)
        invariant totalProcessed == old(totalProcessed) + ProcessedCount(perStillsImages, order[..i], Watermarks)
        invariant jobKeys == old(jobKeys) && jobStills == old(jobStills) && jobStats == old(jobStats)
        invariant perStillsImages == old(perStillsImages) && folderKeys == old(folderKeys)
        invariant totalImages == old(totalImages)
      {
        var dir := order[i];
        assert order[..i + 1][..i] == order[..i];
        ProcessFolder(dir);
        i := i + 1;
      }
      assert order[..|order|] == order;
    }

    /**
     * The state once the watermarking pass has run over what the scan `scan`
     * found: every folder of the visiting order processed into its record,
     * the images written counted, and the scan's other results kept.
     */
    ghost predicate Finished(scan: ScanState)
      reads this
    {
      && Ready(scan.folderStats, scan.perStillsImages, ProcessOrder(scan))
      && folderStats == ProcessFolders(scan.folderStats, scan.perStillsImages, ProcessOrder(scan), Watermarks)
      && totalProcessed == ProcessedCount(scan.perStillsImages, ProcessOrder(scan), Watermarks)
      && jobKeys == scan.jobKeys && jobStills == scan.jobStills && jobStats == scan.jobStats
      && perStillsImages == scan.perStillsImages && folderKeys == scan.folderKeys
      && totalImages == scan.totalImages
      && Keyed(folderStats, folderKeys)
    }

    /**
     * The confirmed part of the run after a scan of `dirs`: every folder with
     * images processed once, in order; then the log name and the skipped
     * total, which is the images found less the images written.
     */
    method WatermarkAndReport(ghost dirs: seq<Path>, listing: map<Path, seq<Entry>>, timestamp: string)
      returns (logName: string, totalSkipped: nat)
      requires AllBelow(root, dirs) && Distinct(dirs)
      requires State() == Scanned(root, dirs, listing) && totalProcessed == 0
      modifies this
      ensures Finished(old(State()))
      ensures logName == LogFileName(SortPaths(jobKeys), timestamp)
      ensures totalSkipped == TotalSkipped(folderStats, folderKeys)
      ensures totalSkipped == totalImages - totalProcessed
    {
      ghost var scan := State();
      RunTotals(root, dirs, listing, Watermarks);
      var order := Expand(SortPaths(jobKeys), jobStills);
      assert order == ProcessOrder(scan);
      ProcessAll(order);
      logName := LogFileName(SortPaths(jobKeys), timestamp);
      totalSkipped := TotalSkipped(folderStats, folderKeys);
    }

    /**
     * The whole run over the `stills` folders found below the root, their
     * listings, the operator's answer and the run's timestamp. It stops with
     * nothing processed when there is no `stills` folder, no image, or no
     * "yes"; otherwise it processes every folder with images once, in order,
     * and reports the log name and the skipped total.
     */
    method Execute(stillsDirs: seq<Path>, listing: map<Path, seq<Entry>>, answer: string, timestamp: string)
      returns (outcome: Outcome)
      requires AllBelow(root, stillsDirs) && Distinct(stillsDirs)
      requires State() == EmptyScan && totalProcessed == 0
      modifies this
      ensures outcome == NoStillsFolders <==> stillsDirs == []
      ensures stillsDirs != [] ==>
        var scan := ScanAll(root, stillsDirs, listing);
        && (outcome == NoImages <==> scan.jobKeys == [])
        && (outcome == Declined <==> scan.jobKeys != [] && Classify(answer) == Decline)
        && (outcome == NotRecognised <==> scan.jobKeys != [] && Classify(answer) == Unrecognised)
        && (outcome.Completed? <==> scan.jobKeys != [] && Classify(answer) == Proceed)
      ensures !outcome.Completed? ==> totalProcessed == 0
      ensures !outcome.Completed? && stillsDirs != [] ==> State() == ScanAll(root, stillsDirs, listing)
      ensures outcome.Completed? ==>
        && Finished(ScanAll(root, stillsDirs, listing))
        && outcome.logName == LogFileName(SortPaths(jobKeys), timestamp)
        && outcome.totalSkipped == TotalSkipped(folderStats, folderKeys)
        && outcome.totalSkipped == totalImages - totalProcessed
    {
      if stillsDirs == [] {
        return NoStillsFolders;
      }
      ScanFolders(stillsDirs, listing);
      if jobKeys == [] {
        return NoImages;
      }
      var decision := Classify(answer);
      if decision == Decline {
        return Declined;
      }
      if decision != Proceed {
        return NotRecognised;
      }
      ghost var sorted := SortPaths(stillsDirs);
      DistinctPermutation(stillsDirs, sorted);
      SortedBelow(root, stillsDirs);
      var logName, totalSkipped := WatermarkAndReport(sorted, listing, timestamp);
      outcome := Completed(logName, totalSkipped);
    }
  }
}
