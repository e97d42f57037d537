/**
 * The parts of `write_log` that are not text formatting: the choice of the
 * log file's name and the skipped-image total it reports.
 */
module Report {
  import opened Paths
  import opened Scan
  import opened Process

  /**
   * The log file name for the jobs `jobsSorted` (in path order) and the run's
   * `timestamp` (`%Y-%m-%d_%H-%M-%S`): named after the job when there is
   * exactly one, after the timestamp otherwise.
   */
  function LogFileName(jobsSorted: seq<Path>, timestamp: string): (name: string)
    ensures |name| >= 10 && name[|name| - 4..] == ".txt"
    ensures |jobsSorted| == 1 ==> name[..|name| - 10] == Name(jobsSorted[0])
    ensures |jobsSorted| == 1 ==> name[|name| - 10..] == " - Log.txt"
    ensures |jobsSorted| != 1 ==> |name| >= 20 && name[16..|name| - 4] == timestamp
    ensures |jobsSorted| != 1 ==> name[..16] == "Watermark Log - "
  {
    if |jobsSorted| == 1 then Name(jobsSorted[0]) + " - Log.txt"
    else "Watermark Log - " + timestamp + ".txt"
  }

  /**
   * Two runs get the same log name exactly when there is a single job (so a
   * rerun over the same job overwrites its log) or their timestamps agree.
   */
  lemma LogFileNameCollides(jobs: seq<Path>, t1: string, t2: string)
    ensures LogFileName(jobs, t1) == LogFileName(jobs, t2) <==> |jobs| == 1 || t1 == t2
  {
    if |jobs| != 1 && LogFileName(jobs, t1) == LogFileName(jobs, t2) {
      var pre := "Watermark Log - ";
      var a, b := pre + t1 + ".txt", pre + t2 + ".txt";
      assert |t1| == |t2|;
      forall i | 0 <= i < |t1|
        ensures t1[i] == t2[i]
      {
        assert a[|pre| + i] == t1[i] && b[|pre| + i] == t2[i];
      }
    }
  }

  /**
   * `sum(stats["skipped"] for stats in folder_stats.values())`. Over balanced
   * records it is the images found less the images watermarked.
   */
  function TotalSkipped(folderStats: map<Path, FolderRecord>, folderKeys: seq<Path>): (total: nat)
    requires Keyed(folderStats, folderKeys)
    ensures (forall i :: 0 <= i < |folderKeys| ==> Balanced(folderStats[folderKeys[i]])) ==>
      total + SumField(folderStats, folderKeys, Watermarked) == SumField(folderStats, folderKeys, Found)
  {
    if forall i :: 0 <= i < |folderKeys| ==> Balanced(folderStats[folderKeys[i]]) then
      SumFieldBalanced(folderStats, folderKeys);
      SumField(folderStats, folderKeys, Skipped)
    else
      SumField(folderStats, folderKeys, Skipped)
  }
}
