# Watermark: a verified model of the pole-ID watermarking batch

The script `watermark_log_test.py` walks the folder it lives in. It finds
every folder named `stills` and lists the image files of each one. It groups
the folders with images under their *job*, which is the folder directly under
the root that contains them. It shows what it found and asks the operator to
confirm. It then stamps each image with its *pole ID*, the part of the file
name before the first underscore, in the top-right corner, and writes the
result next to the `stills` folder. Every image is counted, per folder, as
watermarked or skipped. A log file records the totals.

This project models that batch in Dafny and proves what it computes:

- `PoleId`: the identifier extractor. A pole ID is returned exactly when the
  base name has an underscore and its head is not an ignored prefix in any
  casing. The three documented examples are proved.
- `Layout`: the font-size floor and the top-right placement of the text.
- `Paths`: the job of a folder and the progress header's parts. It also holds
  the ordering every `sorted(..., key=str)` uses: a stable insertion sort by
  the path's string, proved sorted and a permutation.
- `Scan`: the dry scan. It covers image recognition by suffix, a fresh record
  per folder with images, the job lists and the job statistics. The scan loop
  is a function of the visited folders, and `ScanInvariant` describes what it
  builds in terms of the folders alone.
- `Process`: the watermarking pass as specification functions. Each record
  ends balanced, every folder with images is visited exactly once, and the
  totals agree with the records.
- `Confirm`: the `[Y/N]` answer as `strip().lower()` sees it.
- `Report`: the log file's name and the skipped total it reports.
- `Batch`: `main` as a `Run` object whose dictionaries and counters are
  fields. The scan loop, the per-folder loops and the processing loop update
  them in place, and each method is proved against the functions above.

Python's dictionaries become maps plus a sequence of their keys in insertion
order. That sequence exists because the script sums over `.values()` and
sorts `.keys()`. Paths are sequences of components, and their sort key joins
the components with the Windows separator `\`. Whether `watermark_image`
writes an image is a parameter `writes` of the specification functions. The
run instantiates it with `Process.Watermarks`: the image is written exactly
when its name yields a pole ID.

## Model

| member | source | states |
|---|---|---|
| PoleId.BaseName | watermark_log_test.py:77 | the base name is the longest tail of the path without a `/` or `\`, and it is preceded by a separator when shorter than the path |
| PoleId.UpToUnderscore | watermark_log_test.py:83 | the head is a prefix of the name without an underscore, and is followed by an underscore whenever it is shorter than the name |
| PoleId.UpToUnderscoreUnique | watermark_log_test.py:83 | `split("_", 1)[0]` is the unique underscore-free prefix followed by an underscore |
| PoleId.GetPoleId | watermark_log_test.py:68-90 | no underscore in the base name gives no ID; a returned ID is never an ignored prefix after lower-casing |
| PoleId.GetPoleIdIs | watermark_log_test.py:68-90 | `p` is returned if and only if `p` has no underscore, `p + "_"` begins the base name, and `p` lower-cased is not ignored |
| PoleId.GetPoleIdIgnored | watermark_log_test.py:85-87 | a head that lower-cases to an ignored prefix gives no ID, whatever its casing |
| PoleId.GetPoleIdOfSplit | watermark_log_test.py:77-90 | the ID of `head_tail` is `head` with its case preserved, unless `head` is ignored |
| PoleId.GetPoleIdExampleDigits | watermark_log_test.py:73 | `603504_2025-11-25_xx.jpg` gives `603504` |
| PoleId.GetPoleIdExampleCase | watermark_log_test.py:74 | `D825042_2025-11-25_xx.jpg` gives `D825042`, capital kept |
| PoleId.GetPoleIdExampleIgnored | watermark_log_test.py:75 | `NoAsset_2025-11-25_xx.jpg` gives no ID |
| PoleId.GetPoleIdNoUnderscore | watermark_log_test.py:79-81 | a name with no underscore anywhere gives no ID |
| PoleId.GetPoleIdExampleNoUnderscore | watermark_log_test.py:79-81 | `IMG0001.jpg` (no underscore) gives no ID |
| Layout.FontSize | watermark_log_test.py:94 | the font size is the larger of 12 and the scaled size: never below either, and equal to one of them |
| Layout.Placement | watermark_log_test.py:123-128 | the text box ends `margin` pixels before the right edge, and the text starts `margin` pixels from the top |
| Layout.PlacementInside | watermark_log_test.py:123-128 | when the text and two margins fit in the width, the text lies inside the image at least `margin` from its left edge |
| Text.Lower | watermark_log_test.py:86 | lower-casing keeps the length and folds each character on its own |
| Text.StripPadded | watermark_log_test.py:339 | `strip()` removes exactly the blank padding around a stripped core |
| Text.LexLeTotal | watermark_log_test.py:184 | any two strings are comparable in code-point order |
| Text.LexLeTransitive | watermark_log_test.py:184 | code-point order is transitive |
| Text.LexLeAntisymmetric | watermark_log_test.py:184 | strings that each precede the other are equal |
| Paths.JobRoot | watermark_log_test.py:266-272 | the job of a folder below the root is its ancestor one level below the root; the root is its own job |
| Paths.SameJob | watermark_log_test.py:266-272 | two folders share a job if and only if they share their first component below the root |
| Paths.BuildHeaderAsWritten | watermark_log_test.py:159-166 | the header is built if and only if the folder's parent lies inside its job; then each part joined back onto the path it is relative to gives the path it came from, and the name is the folder's |
| Paths.HeaderAsWrittenFailsAtTop | watermark_log_test.py:159-166 | the header as written fails if and only if the folder is directly under the root; otherwise its parts spell the folder's path below the root |
| Paths.HeaderAsWrittenTopLevelStills | watermark_log_test.py:159-166 | a `stills` folder directly under the script's folder makes the header fail |
| Paths.BuildHeader | watermark_log_test.py:159-171 | the corrected header parts always spell the folder's path below the root and end with its name |
| Paths.HeaderPartsAgree | watermark_log_test.py:159-166 | wherever the header as written succeeds, the corrected one gives the same parts |
| Paths.Insert | watermark_log_test.py:265 | inserting into a sorted sequence keeps it sorted and adds exactly the new path |
| Paths.SortPaths | watermark_log_test.py:265 | `sorted(key=str)` gives a sequence sorted by string key that is a permutation of the input |
| Paths.DistinctPermutation | watermark_log_test.py:265 | sorting folders found once each keeps them found once each |
| Scan.LastDot | watermark_log_test.py:277 | the index found is a dot with no dot after it, or -1 when there is no dot |
| Scan.SuffixOf | watermark_log_test.py:277 | a non-empty stem followed by an extension has exactly that extension as its suffix |
| Scan.Suffix | watermark_log_test.py:277 | a non-empty suffix is an extension that ends the name after a non-empty stem |
| Scan.IsImageByExtension | watermark_log_test.py:275-278 | a file is an image if and only if its extension, lower-cased, is listed; a directory never is |
| Scan.ImageNames | watermark_log_test.py:275-278 | every listed image name belongs to an entry that is an image file, and there are no more names than entries |
| Scan.ImageNamesComplete | watermark_log_test.py:275-278 | conversely, every image file of the listing has its name listed |
| Scan.ImageNamesAppend | watermark_log_test.py:275-278 | the names keep the listing order: the names of two listings in a row are the first's names followed by the second's |
| Scan.WithImages | watermark_log_test.py:285-296 | a folder gets a record if and only if it was scanned and holds at least one image |
| Scan.InJob | watermark_log_test.py:286 | a job's list holds exactly the scanned folders with images whose job it is |
| Scan.SumCountsWithImages | watermark_log_test.py:281-282 | the total image count over all folders equals the count over the folders with images |
| Scan.ScanStep | watermark_log_test.py:279-296 | one turn of the scan loop stores the folder's image list and adds its count to the total; a folder with images also gets a fresh record with its count, is appended to its job's folder list (a new list for a new job), and adds one folder and its images to its job's statistics, a new job joining the end of the job keys; every other job's list and statistics are unchanged; a folder without images leaves the records and the jobs alone |
| Scan.ScanStepInvariant | watermark_log_test.py:265-296 | one turn of the scan loop keeps the scan invariant: fresh records for exactly the folders with images, job lists and job statistics that match them, and the image total |
| Scan.ScannedInvariant | watermark_log_test.py:265-296 | the scan over distinct folders builds exactly what the scan invariant describes |
| Process.RecordImage | watermark_log_test.py:400-405 | one image keeps `found`; a written image adds one to watermarked and leaves the skip count and list alone; a skipped one leaves watermarked alone, adds one to skipped and appends its name to the skip list |
| Process.Tally | watermark_log_test.py:398-405 | a folder's image loop keeps `found`, counts every image as either watermarked or skipped, and remembers one name per skip |
| Process.Skips | watermark_log_test.py:403-405 | there are never more skipped names than names |
| Process.SkipsMembers | watermark_log_test.py:403-405 | a name is among the skipped names if and only if it is one of the folder's names and is not written |
| Process.SkipsUnidentified | watermark_log_test.py:400-405 | in the run, the skipped names are exactly the folder's names that give no pole ID |
| Process.StampedSkips | watermark_log_test.py:398-405 | every image of a folder is either written or skipped, never both |
| Process.TallyClosedForm | watermark_log_test.py:398-405 | processing a folder's images adds the written ones to `watermarked`, the others to `skipped`, appends the skipped names in order and keeps `found` |
| Process.FolderBalanced | watermark_log_test.py:291-296 | a fresh record, once processed, satisfies found = watermarked + skipped and lists as many skipped names as it counts |
| Process.TallyExample | watermark_log_test.py:398-405 | a folder holding a pole-ID image, a name without an underscore and a `NoAsset_` image ends with 1 watermarked and 2 skipped, named in order |
| Process.ProcessFolders | watermark_log_test.py:391-405 | the processing loop keeps exactly the folders that have records |
| Process.ProcessFoldersAt | watermark_log_test.py:391-405 | when no folder is visited twice, each visited record is its starting record with its images processed once, and the others are untouched |
| Process.ProcessOrder | watermark_log_test.py:368-370 | a folder is in the visiting order if and only if one of the jobs lists it |
| Process.ExpandMembers | watermark_log_test.py:368-370 | a folder is visited if and only if it is listed under one of the jobs |
| Process.ExpandDistinct | watermark_log_test.py:368-370 | the visiting order repeats no folder when jobs are distinct and no folder is listed twice |
| Process.ProcessOrderExact | watermark_log_test.py:368-370 | after the scan, the visiting order holds each folder with a record exactly once |
| Process.ProcessOrderReady | watermark_log_test.py:391-394 | after the scan, every visited folder has a record and an image list |
| Process.SumFieldPermutation | watermark_log_test.py:195 | a sum over the records does not depend on the order of the keys |
| Process.RunTotals | watermark_log_test.py:195-208 | after the scan and the pass, the records are exactly the folders with images, each processed once and balanced; found sums to the images found, watermarked to the images written, and skipped to the difference |
| Process.JobsMeanImages | watermark_log_test.py:298-299 | once the scan has found a job it has found images and the pass has folders to visit, so the checks at lines 333 and 374 never fire |
| Confirm.Classify | watermark_log_test.py:339-354 | the answer declines if and only if it strips and lower-cases to `n` or `no`, and proceeds if and only if it does so to `y` or `yes` |
| Confirm.ClassifyPadded | watermark_log_test.py:339-354 | blanks around the answer never matter; after lower-casing, `n`/`no` declines, `y`/`yes` proceeds, and anything else is not recognised |
| Confirm.ClassifyYesPadded | watermark_log_test.py:352 | `" Yes\n"` proceeds |
| Confirm.ClassifyCapitalN | watermark_log_test.py:347 | `"N"` declines |
| Confirm.ClassifyBlank | watermark_log_test.py:352-354 | an empty or blank answer is not recognised |
| Confirm.ClassifyLonger | watermark_log_test.py:352-354 | `"yes please"` is not recognised |
| Report.LogFileName | watermark_log_test.py:184-191 | with one job the log name is the job's name followed by ` - Log.txt`; otherwise it is `Watermark Log - ` followed by the timestamp and `.txt` |
| Report.TotalSkipped | watermark_log_test.py:195 | over balanced records, the skipped total plus the watermarked total is the found total |
| Report.LogFileNameCollides | watermark_log_test.py:184-191 | two runs get the same log name if and only if there is a single job or their timestamps agree |
| Batch.WatermarkImage | watermark_log_test.py:105-113 | an image is written, and reported as written, if and only if its name gives a pole ID |
| Batch.Run.constructor | watermark_log_test.py:257-262 | the run starts with empty dictionaries and zero totals |
| Batch.Run.ScanFolder | watermark_log_test.py:266-296 | one turn of the scan loop updates the fields exactly as one scan step does |
| Batch.Run.ScanFolders | watermark_log_test.py:265-296 | the scan loop over the folders in path order leaves the state of the scan function |
| Batch.Run.ProcessImage | watermark_log_test.py:399-405 | one image counts into its folder's record and, when written, into the run total |
| Batch.Run.ProcessFolder | watermark_log_test.py:392-405 | a folder's image loop leaves its record as its images processed, adds the images written to the total, and changes nothing else |
| Batch.Run.ProcessAll | watermark_log_test.py:391-405 | the processing loop leaves the records of the pass, adds the images written, and keeps the scan's results |
| Batch.Run.WatermarkAndReport | watermark_log_test.py:184-195 | the confirmed run visits each folder with images once and reports the log name and a skipped total equal to images found less images written |
| Batch.Run.Execute | watermark_log_test.py:251-354 | the run stops with nothing processed if and only if there is no `stills` folder, no image, or no "yes"; otherwise it finishes the pass and reports as above |

## Left out

- Image decoding, drawing, font loading and saving (Pillow) are not modelled. `watermark_image` is reduced to whether it writes, and I/O errors raised while writing are not modelled.
- The floating-point ratios (`FONT_SIZE_RATIO`, `MARGIN_RATIO`) and the text box Pillow measures enter `Layout` as integer parameters.
- The folder walk (`os.walk`, `iterdir`, `is_file`) is replaced by parameters: the `stills` folders found and a listing of each folder's entries. The case-insensitive match of the name `stills` is left to whoever supplies those folders.
- The console output, the typewriter delays, random pauses, `perf_counter` timing and the text of the log file are left out. So are `datetime.now()` and `input()`: the run receives the timestamp string and the answer.
- Windows' case-insensitive path comparison and drive prefixes are not modelled; paths compare component by component.
- `Text.Lower` folds ASCII capitals only. The only non-ASCII characters whose lower case contains an ASCII letter are U+212A (to `k`) and U+0130 (to `i` followed by U+0307); neither can make a string equal to `noasset`, an image extension, `y`/`yes` or `n`/`no`.
- Batch.Run.Execute: the checks for zero images (line 333) and for an empty visiting order (line 374) are not coded, because `Process.JobsMeanImages` proves that neither can fire once line 298 has passed.
- Batch.Run.Execute: the progress headers are not built, so the run does not stop at line 382 or 414 where the header as written raises `ValueError` (see Findings).
- Report.LogFileName: a single-job log is named after the job alone, so a rerun over the same job overwrites the earlier log; `Report.LogFileNameCollides` states when two runs collide.

## Findings

| source | as written | input that shows it | evidently intended | confidence | as-written member | corrected member |
|---|---|---|---|---|---|---|
| watermark_log_test.py:159-166 | the job of a folder directly under the root is that folder itself, and `stills_dir.parent.relative_to(job_root_abs)` then asks for the root relative to a folder inside it, which raises `ValueError` | a `stills` folder directly under the script's folder with an image such as `603504_a.jpg` in it | the header shows the folder's path below the root, as it does for deeper folders | not executed | Paths.HeaderAsWrittenTopLevelStills | Paths.BuildHeader |
