# VideoProcessor, modelled in Dafny

This project models `VideoProcessor`, the core of a small video-download backend. The processor has two paths:

- **The metadata path.** `get_video_info` turns the extractor's record into a preview: a chosen thumbnail, a duration string such as `01:01:01`, and a list of quality labels such as `["1080p", "720p"]`. Missing fields take defaults, and an extractor failure is wrapped in a `ValueError`.
- **The download lifecycle.** `download_and_merge` goes through these steps:
  1. it makes a scratch directory under the configured temporary directory;
  2. it fetches the best video and audio streams into it and checks that each file exists and is not empty;
  3. it merges them with ffmpeg and checks the output;
  4. it removes the two stream files and returns the merged file's path together with a filename made safe from the video title.

  If anything goes wrong after the scratch directory exists, the whole directory is removed and the error is passed on. `cleanup_file` and `_cleanup_temp_files` remove files and directories and never raise.

The modules:

- `Wrappers` holds `Option` and `Result`; `Errors` models the Python exception kinds the processor raises.
- `Decimal` models `str(n)` and the `02d` format on naturals, with their readers.
- `Duration` models `_format_duration`.
- `QualityBuckets` models `_extract_qualities`.
- `Filename` models `_get_filename_from_url`.
- `Metadata` models `get_video_info` and its thumbnail choice.
- `FileSystem` models the filesystem as a map from path (a list of names) to entry (a directory, or a file with its size), together with `shutil.rmtree` and `os.remove` as the cleanups use them.
- `Processor` holds the class `VideoProcessor`. Its field `fs` is the filesystem and its methods update it in place.

External calls do not appear in the model as code. Each becomes an input recording what the call did:

- `mkdtemp` becomes its sequence of candidate names.
- The yt-dlp download becomes a `FetchOutcome`: the sizes of the files it wrote and whether it raised afterwards.
- The ffmpeg run becomes a `MergeOutcome`: the output size it wrote and whether it raised `ffmpeg.Error` or something else.
- The title lookup becomes a `TitleLookup`.
- `str.isalnum` becomes a parameter `isAlnum`.

The guarded block of `download_and_merge` is split into the helper methods `RunInScratch`, `MergeAndTidy` and `Abort` so that each proof stays small. They are parts of `download_and_merge`, not separate operations of the source.

Python's `//` and `%` by a positive divisor are floor operations, and so are Dafny's `/` and `%`, so negative durations are modelled exactly: -5 gives `59:55`.

## Model

| member | source | states |
|---|---|---|
| Duration.FormatDuration | utils/video_processor.py:145-157 | The result is "Unknown" exactly when the duration is missing or 0 (Python falsiness); any other result contains a colon. |
| Duration.DurationRoundTrip | utils/video_processor.py:150-157 | For a positive duration, reading the string back gives the same number of seconds. The string has three colon-separated fields exactly when the duration reaches an hour, and two otherwise. The last two fields are two digits each and read as the minutes and the seconds, both below 60. The hours field, when present, has at least two digits, has a leading zero only when it has exactly two, and reads as the whole hours. |
| Duration.DurationExampleSeconds | utils/video_processor.py:150-157 | 45 seconds is shown as "00:45". |
| Duration.DurationExampleHour | utils/video_processor.py:150-154 | 3661 seconds is shown as "01:01:01". |
| Duration.DurationExampleUnknown | utils/video_processor.py:147-148 | Both a missing duration and 0 give "Unknown". |
| Duration.DurationExampleNegative | utils/video_processor.py:150-157 | -5 seconds gives "59:55", because Python's floor division and modulo apply. |
| Decimal.NatToString | utils/video_processor.py:155 | `str(n)` is a non-empty string of digits with no leading zero; it has one digit exactly when n < 10. |
| Decimal.ParseNatToString | utils/video_processor.py:155 | Reading back the decimal digits of n gives n. |
| Decimal.Pad2 | utils/video_processor.py:155-157 | The `02d` form of n is all digits, at least two of them, and exactly two when n < 100. A form longer than two digits has no leading zero, so the padding goes to width two and no further. |
| Decimal.ParsePad2 | utils/video_processor.py:155-157 | Reading back the zero-padded two-digit form of n gives n. |
| QualityBuckets.Bucket | utils/video_processor.py:164-175 | A height gets a bucket exactly when it is present, non-zero and at least 360. The bucket is the largest of 1440, 1080, 720, 480 and 360 that does not exceed the height. |
| QualityBuckets.Qualities | utils/video_processor.py:159-177 | At most five labels result, one per bucket. The lemmas below characterise the result fully. |
| QualityBuckets.ExtractQualities | utils/video_processor.py:159-177 | The loop collects the set of buckets the formats reach, and the result is their labels in descending table order. |
| QualityBuckets.QualitiesMembers | utils/video_processor.py:163-175 | A label appears in the result exactly when some format's height falls in that label's bucket. |
| QualityBuckets.QualitiesSorted | utils/video_processor.py:177 | The labels are strictly decreasing by the number before "p", so no label appears twice. |
| QualityBuckets.QualitiesFromTable | utils/video_processor.py:166-175 | Every label is one of "1440p", "1080p", "720p", "480p" and "360p". |
| QualityBuckets.QualitiesOrderIndependent | utils/video_processor.py:161-177 | The result depends only on which formats occur, not on their order or repetition. |
| QualityBuckets.DescendingUnique | utils/video_processor.py:177 | Two strictly descending sequences with the same elements are equal. |
| QualityBuckets.SortedLabelsUnique | utils/video_processor.py:177 | Any list holding exactly the output's labels that strictly descends by numeric value is the output itself, so emitting the labels in table order gives what `sorted(..., reverse=True)` gives. |
| QualityBuckets.LabelValueOfLabel | utils/video_processor.py:177 | The sort key `int(x.replace('p', ''))` of a bucket's label is the bucket. |
| QualityBuckets.QualitiesExample | utils/video_processor.py:163-177 | Heights 144, 1080, 720, 2001 and 480 give ["1440p", "1080p", "720p", "480p"]. |
| Filename.RStrip | utils/video_processor.py:187 | The result is a prefix of the input that does not end in a space, and what was cut off is all spaces. |
| Filename.FilenameFromLookup | utils/video_processor.py:179-190 | Every generated filename ends in ".mp4". A lookup that raises gives exactly "downloaded_video.mp4". For a title, the name without its ".mp4" is the cleaned title. |
| Filename.FilenameStem | utils/video_processor.py:184-188 | The stem of the name given for a title holds only alphanumerics, spaces, hyphens and underscores, is a subsequence of the title, and does not end in a space. |
| Filename.KeepSafeKept | utils/video_processor.py:187 | The character filter keeps only alphanumerics, spaces, hyphens and underscores, and never lengthens the string. |
| Filename.KeepSafeSubsequence | utils/video_processor.py:187 | The filter's output is a subsequence of its input. |
| Filename.KeepSafeConcat | utils/video_processor.py:187 | Filtering a concatenation is the concatenation of the filtered parts, since the filter looks at one character at a time. |
| Filename.SafeTitleCharacters | utils/video_processor.py:187 | Every character of the cleaned title is alphanumeric or one of space, hyphen and underscore. The cleaned title does not end in a space. |
| Filename.SafeTitleShape | utils/video_processor.py:187 | What the character filter keeps is the cleaned title followed by spaces only, so `rstrip` removes trailing spaces and nothing else. |
| Filename.SafeTitleSubsequence | utils/video_processor.py:187 | The cleaned title is a subsequence of the original title: characters are only dropped, never reordered or invented. |
| Filename.SafeTitleIdempotent | utils/video_processor.py:187 | Cleaning an already cleaned title changes nothing. |
| Filename.FilenameDefaultTitle | utils/video_processor.py:185-188 | A record without a title gives "video.mp4". |
| Filename.FilenameExample | utils/video_processor.py:187-188 | The title "Cool Video! #1 (Official)" gives "Cool Video 1 Official.mp4". |
| Filename.FilenameEdgeExample | utils/video_processor.py:187-188 | A title with no kept character, such as "!!!", gives ".mp4". |
| Metadata.FirstWide | utils/video_processor.py:34-37 | The result is the index of the first thumbnail at least 480 wide (a missing width counts as 0), or the list length when there is none. |
| Metadata.BestThumbnail | utils/video_processor.py:30-39 | An empty list gives no thumbnail. Otherwise the chosen url is the url of one of the entries. |
| Metadata.SelectThumbnail | utils/video_processor.py:30-39 | The loop that stops at the first wide thumbnail computes `BestThumbnail`. |
| Metadata.BestThumbnailSpec | utils/video_processor.py:30-39 | An empty list gives no thumbnail. Otherwise the first wide entry's url is chosen if it is truthy. The first entry's url is chosen when that url is not truthy or when no entry is wide. |
| Metadata.GetVideoInfo | utils/video_processor.py:17-63 | An extractor failure becomes `ValueError("Failed to extract video information: " + message)`. Otherwise the record has every default of the code: "Unknown Title", "Unknown", 0 for the counts and the duration, and the request url. The thumbnail, the duration string and the quality labels come from their selectors. |
| FileSystem.CleanedTree | utils/video_processor.py:192-199 | The cleanup only removes entries and leaves the survivors unchanged. Everything outside the path survives. For a directory, nothing at or below it survives. For a missing path or a file, nothing changes. |
| FileSystem.CleanedFile | utils/video_processor.py:201-207 | Only the path itself can disappear, and every other entry is unchanged. It survives exactly when it is a directory. |
| FileSystem.AbsentHasNothingUnder | utils/video_processor.py:67 | In a well-formed tree nothing lies below a path that does not exist, so a fresh scratch directory is empty. |
| FileSystem.CleanupsWellFormed | utils/video_processor.py:192-207 | Both cleanups keep the tree well formed. |
| FileSystem.CleanupsIdempotent | utils/video_processor.py:192-207 | Running either cleanup twice has the same effect as running it once. |
| FileSystem.RemoveTreeRestores | utils/video_processor.py:84-87 | Removing the scratch directory undoes any writes below it if nothing was there before. |
| FileSystem.CleanupAfterSuccessKeepsDir | utils/video_processor.py:201-207 | In a well-formed tree, removing the one file written into a freshly made directory leaves the directory in place and empty, and the rest of the tree as it was. |
| Processor.SuccessCleanupLeavesEmptyDir | utils/video_processor.py:77-82 | After a successful job, `cleanup_file` on the returned merged file leaves the scratch directory in place and empty, and the rest of the filesystem as it was before the job. |
| Processor.FirstFree | utils/video_processor.py:67 | No name is found exactly when every candidate is taken. A name that is found is a candidate under the base directory and is not yet taken. |
| Processor.ScratchError | utils/video_processor.py:67 | When `mkdtemp` makes no directory it raises an OSError: "Not a directory" when the base or one of its ancestors is a file, "No such file or directory" when the base is otherwise missing, and "No usable temporary directory name found" when the base is a directory whose candidate names are all taken. |
| Processor.ScratchDir | utils/video_processor.py:67 | There is no scratch directory exactly when the base is not a directory or every candidate is taken. Otherwise it is a fresh candidate under the base. |
| Processor.StreamError | utils/video_processor.py:106-114 | The streams pass exactly when the download raised nothing and both files are non-empty. A download exception passes through unchanged. A missing or empty video gives the video `ValueError` whatever the audio is. A good video with a missing or empty audio gives the audio `ValueError`, and the audio error occurs only then. |
| Processor.MergeFailure | utils/video_processor.py:124-143 | The merge passes exactly when ffmpeg raised nothing and the output is non-empty. An `ffmpeg.Error` becomes the `ValueError` "Failed to merge video and audio: " followed by its message. Any other exception passes through unchanged, and every non-`ValueError` comes from one. When nothing was raised but the output is missing or empty, the error is the plain "Failed to merge video and audio". |
| Processor.JobError | utils/video_processor.py:106-143 | A job succeeds exactly when the download raised nothing, both stream files are non-empty, ffmpeg raised nothing and the output is non-empty. A stream error takes precedence over any merge outcome, because the merge never runs after one. When the streams pass, the job's error is the merge's. |
| Processor.VideoProcessor.constructor | utils/video_processor.py:13-15 | A missing or empty temporary directory falls back to the system's. An omitted size limit is 2 GiB. The size limit and the filesystem are stored. |
| Processor.VideoProcessor.MakeScratchDir | utils/video_processor.py:67 | It creates the first free candidate under the temporary directory as a new, empty directory and changes nothing else. If the base directory is missing or every name is taken, it raises the OSError `ScratchError` describes and changes nothing. |
| Processor.VideoProcessor.DownloadSeparateStreams | utils/video_processor.py:89-116 | The files the download wrote are in place. An exception from the download passes through. Otherwise the video file is checked first, then the audio file, each with its own ValueError. On success it returns both paths. |
| Processor.VideoProcessor.MergeVideoAudio | utils/video_processor.py:118-143 | The output ffmpeg wrote is in place. An `ffmpeg.Error` becomes `ValueError("Failed to merge video and audio: " + message)`, and any other exception passes through. A missing or empty output raises `ValueError("Failed to merge video and audio")`. |
| Processor.VideoProcessor.CleanupTempFiles | utils/video_processor.py:192-199 | A directory is removed with everything below it, and anything else is left alone. It never fails. |
| Processor.VideoProcessor.CleanupFile | utils/video_processor.py:201-207 | A file is removed, and anything else is left alone. It never fails. |
| Processor.VideoProcessor.DownloadAndMerge | utils/video_processor.py:65-87 | A failure of `mkdtemp` raises OSError and changes nothing. Any later failure raises the job's error and leaves the filesystem exactly as it was before the call. On success it returns the merged file and the sanitised name, and the only change is the scratch directory holding the non-empty merged file. |

## Left out

- yt-dlp, ffmpeg and `tempfile.mkdtemp` are not modelled as code. Each becomes an input recording what it did: the sizes of the files it wrote among those the code checks, the exception it raised, or the candidate names.
- Python's Unicode `str.isalnum` is a parameter of the model. Only the worked examples fix it, to ASCII letters and digits.
- Filename.RStrip: strips trailing spaces only, not every Unicode whitespace character. The filter has already removed every other whitespace character, because `isalnum` is false on whitespace.
- Async execution, the progress callback and logging are not modelled. The logged messages of the cleanups carry no state.
- `max_file_size` is stored but never consulted in the processor. The size check in `app.py` is not part of this model, and neither is the rest of `app.py` or `start.py`.
- Metadata.GetVideoInfo: a key that is present with the value `None` is modelled as absent. The code would return `None` for such a field, or raise inside the `try` for a `None` width, which then becomes the wrapped `ValueError`. Exceptions raised by the record processing itself are not modelled.
- Duration.FormatDuration: takes an integer; durations reported as floating-point numbers are not modelled.
- Processor.VideoProcessor.CleanupTempFiles: always removes the whole subtree. A real `rmtree` can fail part-way, on a permission error or a busy file, leaving some entries behind; the `except` at line 198 then only logs. The model has no such failure, and DownloadAndMerge's promise that a failed job leaves the filesystem exactly as before rests on this.
- Processor.VideoProcessor.CleanupFile: always removes a file that exists. A real `os.remove` can fail, on a permission error or a busy file, and the `except` at line 206 then only logs and leaves the file; the model has no such failure.
- Processor.ScratchError: the Python exception classes `FileNotFoundError`, `NotADirectoryError` and `FileExistsError` are all modelled as `OSError`, each with its description only; the errno and the path that Python's message carries are not modelled. Permission errors from `mkdir` are not modelled.
- Processor.VideoProcessor.DownloadAndMerge: an `os.remove` of a stream file that itself failed is not modelled. The stream files are regular files that were just checked.
- Processor.VideoProcessor.DownloadAndMerge: the download tools are modelled as writing only the three files the code looks for: `video.mp4`, `audio.m4a` and `merged_video.mp4`, all in the scratch directory. The yt-dlp options at lines 94-104 are not interpreted; in particular the model does not check that the output-template keys `video` and `audio` make yt-dlp write to those paths. Files the tools write anywhere else, inside the scratch directory or outside it, are not modelled. The promises that a failure restores the filesystem and that success adds only the merged file rest on this.
- Processor.VideoProcessor.DownloadAndMerge: `except Exception` at line 84 does not catch `BaseException`s such as `KeyboardInterrupt` or `SystemExit`. These would escape without cleanup; the model has no such exceptions.
- Processor.VideoProcessor.MergeVideoAudio: the logging call at line 142 decodes ffmpeg's stderr. A decoding failure there would raise `UnicodeDecodeError` in place of the reworded merge error; the model assumes the decoding succeeds.

## Notes on the code

- The highest quality bucket is 1440p; there is no 2160p bucket.
- A successful job removes only the two stream files; the scratch directory stays, holding the merged file.
- A title with no kept character gives the name ".mp4", not "downloaded_video.mp4".
