/**
 * The download lifecycle of `VideoProcessor`: a scratch directory is made under the configured
 * temporary directory, the video and audio streams are fetched into it, merged with ffmpeg, and
 * the stream files are removed; on any error after the scratch directory exists, the whole
 * directory is removed and the error is passed on.
 */
module Processor {
  import opened Wrappers
  import opened Errors
  import opened FileSystem
  import opened Filename

  /** 2 GiB, the default size limit of a processor. */
  const DEFAULT_MAX_FILE_SIZE: nat := 2 * 1024 * 1024 * 1024

  const VIDEO_NAME := "video.mp4"
  const AUDIO_NAME := "audio.m4a"
  const MERGED_NAME := "merged_video.mp4"

  const VIDEO_STREAM_ERROR := "Failed to download video stream"
  const AUDIO_STREAM_ERROR := "Failed to download audio stream"
  const MERGE_ERROR := "Failed to merge video and audio"

  /**
   * The errors `tempfile.mkdtemp` raises, by their description: a component of the base path is
   * missing (`FileNotFoundError`), a component is a file (`NotADirectoryError`), or every
   * candidate name is taken (`FileExistsError`).
   */
  const NO_SUCH_DIRECTORY := "No such file or directory"
  const NOT_A_DIRECTORY := "Not a directory"
  const NO_FREE_NAME := "No usable temporary directory name found"

  /**
   * What the stream download leaves behind: the size of each file it wrote (None when it wrote
   * none) and the message of the exception it raised afterwards, if any.
   */
  datatype FetchOutcome = FetchOutcome(videoSize: Option<nat>, audioSize: Option<nat>, raised: Option<string>)

  /** An exception from the merge step: ffmpeg's own error type, or any other exception. */
  datatype ToolError = FfmpegError(message: string) | OtherToolError(message: string)

  /** What the ffmpeg run leaves behind: the size of the output it wrote, and what it raised. */
  datatype MergeOutcome = MergeOutcome(outputSize: Option<nat>, raised: Option<ToolError>)

  /** A tool produced a file that passes the existence-and-size check. */
  predicate Produced(size: Option<nat>)
  {
    size.Some? && size.value > 0
  }

  /** The first candidate name not yet taken under `base`. */
  function FirstFree(t: Tree, base: Path, names: seq<string>): (r: Option<Path>)
    ensures r.None? <==> forall n :: n in names ==> Join(base, n) in t
    ensures r.Some? ==> r.value !in t && exists n :: n in names && r.value == Join(base, n)
  {
    if names == [] then None
    else if Join(base, names[0]) !in t then Some(Join(base, names[0]))
    else FirstFree(t, base, names[1..])
  }

  /** The directory `mkdtemp(dir=base)` creates, trying the candidate names in order. */
  function ScratchDir(t: Tree, base: Path, names: seq<string>): (r: Option<Path>)
    ensures r.None? <==> !IsDir(t, base) || forall n :: n in names ==> Join(base, n) in t
    ensures r.Some? ==> r.value !in t && exists n :: n in names && r.value == Join(base, n)
  {
    if IsDir(t, base) then FirstFree(t, base, names) else None
  }

  /** Some prefix of `p`, `p` itself included, is a regular file. */
  predicate FileOnPath(t: Tree, p: Path)
  {
    (p in t && t[p].File?) || (|p| > 0 && FileOnPath(t, Parent(p)))
  }

  /** The error `mkdtemp(dir=base)` raises when `ScratchDir` finds no directory to make. */
  function ScratchError(t: Tree, base: Path): (r: Exception)
    ensures r.OSError?
    ensures r.message == NO_FREE_NAME <==> IsDir(t, base)
    ensures r.message == NOT_A_DIRECTORY <==> !IsDir(t, base) && FileOnPath(t, base)
    ensures r.message == NO_SUCH_DIRECTORY <==> !IsDir(t, base) && !FileOnPath(t, base)
  {
    if IsDir(t, base) then OSError(NO_FREE_NAME)
    else if FileOnPath(t, base) then OSError(NOT_A_DIRECTORY)
    else OSError(NO_SUCH_DIRECTORY)
  }

  /** The error the stream step raises, checked in the order the code checks: exception, video, audio. */
  function StreamError(fetch: FetchOutcome): (r: Option<Exception>)
    ensures r.None? <==> fetch.raised.None? && Produced(fetch.videoSize) && Produced(fetch.audioSize)
    ensures fetch.raised.Some? ==> r == Some(External(fetch.raised.value))
    ensures fetch.raised.None? && !Produced(fetch.videoSize) ==> r == Some(ValueError(VIDEO_STREAM_ERROR))
    ensures r == Some(ValueError(AUDIO_STREAM_ERROR)) ==> Produced(fetch.videoSize)
    ensures fetch.raised.None? && Produced(fetch.videoSize) && !Produced(fetch.audioSize) ==>
      r == Some(ValueError(AUDIO_STREAM_ERROR))
  {
    if fetch.raised.Some? then Some(External(fetch.raised.value))
    else if !Produced(fetch.videoSize) then Some(ValueError(VIDEO_STREAM_ERROR))
    else if !Produced(fetch.audioSize) then Some(ValueError(AUDIO_STREAM_ERROR))
    else None
  }

  /** The error the merge step raises: ffmpeg errors are reworded, others pass through unchanged. */
  function MergeFailure(merge: MergeOutcome): (r: Option<Exception>)
    ensures r.None? <==> merge.raised.None? && Produced(merge.outputSize)
    ensures r.Some? && r.value.ValueError? ==> MERGE_ERROR <= r.value.message
    ensures r.Some? && !r.value.ValueError? ==>
      merge.raised.Some? && merge.raised.value.OtherToolError? && r.value == External(merge.raised.value.message)
    ensures merge.raised.Some? && merge.raised.value.OtherToolError? ==> r == Some(External(merge.raised.value.message))
    ensures merge.raised.Some? && merge.raised.value.FfmpegError? ==>
      r == Some(ValueError(MERGE_ERROR + ": " + merge.raised.value.message))
    ensures merge.raised.None? && !Produced(merge.outputSize) ==> r == Some(ValueError(MERGE_ERROR))
  {
    if merge.raised.Some? then
      match merge.raised.value
      case FfmpegError(m) => Some(ValueError(MERGE_ERROR + ": " + m))
      case OtherToolError(m) => Some(External(m))
    else if !Produced(merge.outputSize) then Some(ValueError(MERGE_ERROR))
    else None
  }

  /** The error a whole job ends with once the scratch directory exists; the merge runs only after good streams. */
  function JobError(fetch: FetchOutcome, merge: MergeOutcome): (r: Option<Exception>)
    ensures r.None? <==>
      fetch.raised.None? && Produced(fetch.videoSize) && Produced(fetch.audioSize) &&
      merge.raised.None? && Produced(merge.outputSize)
    ensures StreamError(fetch).Some? ==> r == StreamError(fetch)
    ensures StreamError(fetch).None? ==> r == MergeFailure(merge)
  {
    if StreamError(fetch).Some? then StreamError(fetch) else MergeFailure(merge)
  }

  /**
   * The filesystem a successful job leaves: the scratch directory holding only the merged file,
   * once both stream files are removed.
   */
  lemma SuccessState(t: Tree, dir: Path, videoSize: nat, audioSize: nat, outputSize: nat)
    requires EmptyDir(t, dir)
    ensures
      var video := Join(dir, VIDEO_NAME);
      var audio := Join(dir, AUDIO_NAME);
      var output := Join(dir, MERGED_NAME);
      (t[video := File(videoSize)][audio := File(audioSize)] - {video} - {audio})[output := File(outputSize)]
        == t[output := File(outputSize)]
  {
    var video := Join(dir, VIDEO_NAME);
    var audio := Join(dir, AUDIO_NAME);
    var output := Join(dir, MERGED_NAME);
    JoinFacts(dir, VIDEO_NAME, MERGED_NAME);
    JoinFacts(dir, AUDIO_NAME, MERGED_NAME);
    JoinFacts(dir, VIDEO_NAME, AUDIO_NAME);
    assert video !in t && audio !in t;
  }

  /**
   * After a successful `download_and_merge`, the caller's `cleanup_file` on the returned path
   * leaves the scratch directory in place and empty: the directory itself is never removed.
   */
  lemma SuccessCleanupLeavesEmptyDir(t: Tree, base: Path, names: seq<string>, n: nat)
    requires WellFormed(t) && ScratchDir(t, base, names).Some?
    ensures var dir := ScratchDir(t, base, names).value;
      var after := CleanedFile(t[dir := Dir][Join(dir, MERGED_NAME) := File(n)], Join(dir, MERGED_NAME));
      after == t[dir := Dir] && IsDir(after, dir) && EmptyDir(after, dir)
  {
    CleanupAfterSuccessKeepsDir(t, ScratchDir(t, base, names).value, MERGED_NAME, n);
  }

  class VideoProcessor {
    /** The directory scratch directories are made in. */
    const tempDir: Path
    /** Stored by the constructor; the lifecycle itself never consults it. */
    const maxFileSize: nat
    /** The character test `str.isalnum` the filename sanitiser uses. */
    const isAlnum: char -> bool
    /** The filesystem as the processor sees it. */
    var fs: Tree

    ghost predicate Valid()
      reads this
    {
      WellFormed(fs)
    }

    /**
     * A missing or empty `tempDir` (the empty path stands for the empty string) falls back to
     * the system's temporary directory; an omitted `maxFileSize` takes the 2 GiB default.
     */
    constructor (tempDir: Option<Path>, systemTempDir: Path, maxFileSize: Option<nat>, isAlnum: char -> bool, fs: Tree)
      requires WellFormed(fs)
      ensures Valid()
      ensures this.tempDir == (if tempDir.None? || tempDir.value == [] then systemTempDir else tempDir.value)
      ensures this.maxFileSize == maxFileSize.GetOr(DEFAULT_MAX_FILE_SIZE)
      ensures this.isAlnum == isAlnum && this.fs == fs
    {
      this.tempDir := if tempDir.None? || tempDir.value == [] then systemTempDir else tempDir.value;
      this.maxFileSize := maxFileSize.GetOr(DEFAULT_MAX_FILE_SIZE);
      this.isAlnum := isAlnum;
      this.fs := fs;
    }

    /** `tempfile.mkdtemp(dir=self.temp_dir)`: a fresh, empty directory, or an OSError and no change. */
    method MakeScratchDir(names: seq<string>) returns (r: Result<Path, Exception>)
      requires Valid()
      modifies this`fs
      ensures Valid()
      ensures r.Failure? <==> ScratchDir(old(fs), tempDir, names).None?
      ensures r.Failure? ==> r.error == ScratchError(old(fs), tempDir) && fs == old(fs)
      ensures r.Success? ==>
        r.value == ScratchDir(old(fs), tempDir, names).value && r.value !in old(fs) &&
        |r.value| > 0 && Parent(r.value) == tempDir &&
        fs == old(fs)[r.value := Dir] && EmptyDir(fs, r.value) &&
        (forall p :: p in old(fs) ==> !Under(p, r.value)) && AgreesOutside(old(fs), fs, r.value)
    {
      var d := ScratchDir(fs, tempDir, names);
      if d.None? {
        return Failure(ScratchError(fs, tempDir));
      }
      var n :| n in names && d.value == Join(tempDir, n);
      JoinFacts(tempDir, n, n);
      AbsentHasNothingUnder(fs, d.value);
      PutWellFormed(fs, tempDir, n, Dir);
      PutAgrees(fs, fs, d.value, d.value, Dir);
      fs := fs[d.value := Dir];
      return Success(d.value);
    }

    /**
     * `_download_separate_streams`: the download writes whatever it writes into `dir` and may
     * then raise; otherwise each expected file is checked, video first.
     */
    method DownloadSeparateStreams(dir: Path, fetch: FetchOutcome) returns (r: Result<(Path, Path), Exception>)
      requires Valid() && IsDir(fs, dir) && EmptyDir(fs, dir)
      modifies this`fs
      ensures Valid()
      ensures fs == Written(Written(old(fs), Join(dir, VIDEO_NAME), fetch.videoSize), Join(dir, AUDIO_NAME), fetch.audioSize)
      ensures NonEmptyFile(fs, Join(dir, VIDEO_NAME)) <==> Produced(fetch.videoSize)
      ensures NonEmptyFile(fs, Join(dir, AUDIO_NAME)) <==> Produced(fetch.audioSize)
      ensures r.Failure? <==> StreamError(fetch).Some?
      ensures r.Failure? ==> r.error == StreamError(fetch).value
      ensures r.Success? ==> r.value == (Join(dir, VIDEO_NAME), Join(dir, AUDIO_NAME))
      ensures IsDir(fs, dir) && AgreesOutside(old(fs), fs, dir)
    {
      var video := Join(dir, VIDEO_NAME);
      var audio := Join(dir, AUDIO_NAME);
      JoinFacts(dir, VIDEO_NAME, AUDIO_NAME);
      JoinFacts(dir, AUDIO_NAME, VIDEO_NAME);
      WrittenWellFormed(fs, dir, VIDEO_NAME, fetch.videoSize);
      WrittenAgrees(fs, fs, dir, video, fetch.videoSize);
      fs := Written(fs, video, fetch.videoSize);
      WrittenWellFormed(fs, dir, AUDIO_NAME, fetch.audioSize);
      WrittenAgrees(old(fs), fs, dir, audio, fetch.audioSize);
      fs := Written(fs, audio, fetch.audioSize);
      if fetch.raised.Some? {
        return Failure(External(fetch.raised.value));
      }
      if !NonEmptyFile(fs, video) {
        return Failure(ValueError(VIDEO_STREAM_ERROR));
      }
      if !NonEmptyFile(fs, audio) {
        return Failure(ValueError(AUDIO_STREAM_ERROR));
      }
      return Success((video, audio));
    }

    /**
     * `_merge_video_audio`: ffmpeg writes the merged file into `dir` (overwriting any earlier
     * one) and may raise; otherwise the output is checked.
     */
    method MergeVideoAudio(video: Path, audio: Path, dir: Path, merge: MergeOutcome) returns (r: Result<Path, Exception>)
      requires Valid() && IsDir(fs, dir) && !IsDir(fs, Join(dir, MERGED_NAME))
      modifies this`fs
      ensures Valid()
      ensures fs == Written(old(fs), Join(dir, MERGED_NAME), merge.outputSize)
      ensures merge.raised.Some? ==> r == Failure(MergeFailure(merge).value)
      ensures merge.raised.None? ==>
        r == if NonEmptyFile(fs, Join(dir, MERGED_NAME)) then Success(Join(dir, MERGED_NAME)) else Failure(ValueError(MERGE_ERROR))
      ensures Join(dir, MERGED_NAME) !in old(fs) ==>
        (NonEmptyFile(fs, Join(dir, MERGED_NAME)) <==> Produced(merge.outputSize)) &&
        (r.Failure? <==> MergeFailure(merge).Some?) &&
        (r.Failure? ==> r.error == MergeFailure(merge).value)
      ensures IsDir(fs, dir) && AgreesOutside(old(fs), fs, dir)
    {
      var output := Join(dir, MERGED_NAME);
      JoinFacts(dir, MERGED_NAME, MERGED_NAME);
      WrittenWellFormed(fs, dir, MERGED_NAME, merge.outputSize);
      WrittenAgrees(fs, fs, dir, output, merge.outputSize);
      fs := Written(fs, output, merge.outputSize);
      if merge.raised.Some? {
        match merge.raised.value
        case FfmpegError(m) => return Failure(ValueError(MERGE_ERROR + ": " + m));
        case OtherToolError(m) => return Failure(External(m));
      }
      if !NonEmptyFile(fs, output) {
        return Failure(ValueError(MERGE_ERROR));
      }
      return Success(output);
    }

    /** `_cleanup_temp_files`: never raises. */
    method CleanupTempFiles(dir: Path)
      requires Valid()
      modifies this`fs
      ensures Valid() && fs == CleanedTree(old(fs), dir)
    {
      CleanupsWellFormed(fs, dir);
      if dir in fs {
        if fs[dir].Dir? {
          fs := RemoveTree(fs, dir);
        }
      }
    }

    /** `cleanup_file`: never raises. */
    method CleanupFile(path: Path)
      requires Valid()
      modifies this`fs
      ensures Valid() && fs == CleanedFile(old(fs), path)
    {
      CleanupsWellFormed(fs, path);
      if path in fs {
        if fs[path].File? {
          fs := fs - {path};
        }
      }
    }

    /**
     * The guarded part of `download_and_merge`, run in a fresh scratch directory: fetch, merge and
     * remove the stream files; on any error the scratch directory is removed and the error passed on.
     */
    method RunInScratch(dir: Path, fetch: FetchOutcome, merge: MergeOutcome) returns (r: Result<Path, Exception>)
      requires Valid() && IsDir(fs, dir) && EmptyDir(fs, dir)
      modifies this`fs
      ensures Valid()
      ensures JobError(fetch, merge).Some? ==>
        r == Failure(JobError(fetch, merge).value) &&
        AgreesOutside(old(fs), fs, dir) && forall p :: p in fs ==> !Under(p, dir)
      ensures JobError(fetch, merge).None? ==>
        r == Success(Join(dir, MERGED_NAME)) &&
        fs == old(fs)[Join(dir, MERGED_NAME) := File(merge.outputSize.value)]
    {
      ghost var fs1 := fs;
      var streams := DownloadSeparateStreams(dir, fetch);
      if streams.Failure? {
        Abort(dir);
        return Failure(streams.error);
      }
      ghost var fs2 := fs;
      JoinFacts(dir, VIDEO_NAME, AUDIO_NAME);
      r := MergeAndTidy(dir, streams.value.0, streams.value.1, merge);
      if r.Failure? {
        AgreesTransitive(fs1, fs2, fs, dir);
      } else {
        SuccessState(fs1, dir, fetch.videoSize.value, fetch.audioSize.value, merge.outputSize.value);
      }
    }

    /**
     * The rest of the guarded part once both streams are on disk: merge, then remove the stream
     * files (`if os.path.exists(f): os.remove(f)` for each); on an error, remove the scratch directory.
     */
    method MergeAndTidy(dir: Path, video: Path, audio: Path, merge: MergeOutcome) returns (r: Result<Path, Exception>)
      requires Valid() && IsDir(fs, dir)
      requires video == Join(dir, VIDEO_NAME) && audio == Join(dir, AUDIO_NAME)
      requires NonEmptyFile(fs, video) && NonEmptyFile(fs, audio)
      requires forall p | p in fs && Under(p, dir) :: p == dir || p == video || p == audio
      modifies this`fs
      ensures Valid()
      ensures MergeFailure(merge).Some? ==>
        r == Failure(MergeFailure(merge).value) &&
        AgreesOutside(old(fs), fs, dir) && forall p :: p in fs ==> !Under(p, dir)
      ensures MergeFailure(merge).None? ==>
        r == Success(Join(dir, MERGED_NAME)) &&
        fs == (old(fs) - {video} - {audio})[Join(dir, MERGED_NAME) := File(merge.outputSize.value)]
    {
      JoinFacts(dir, VIDEO_NAME, MERGED_NAME);
      JoinFacts(dir, AUDIO_NAME, MERGED_NAME);
      assert Join(dir, MERGED_NAME) !in fs;
      var merged := MergeVideoAudio(video, audio, dir, merge);
      if merged.Failure? {
        Abort(dir);
        return Failure(merged.error);
      }
      if video in fs {
        RemoveFileWellFormed(fs, video);
        fs := fs - {video};
      }
      if audio in fs {
        RemoveFileWellFormed(fs, audio);
        fs := fs - {audio};
      }
      return Success(merged.value);
    }

    /** The cleanup on the error path, described by what it leaves: nothing at or below `dir`, everything else as it was. */
    method Abort(dir: Path)
      requires Valid() && IsDir(fs, dir)
      modifies this`fs
      ensures Valid() && AgreesOutside(old(fs), fs, dir) && forall p :: p in fs ==> !Under(p, dir)
    {
      CleanupTempFiles(dir);
    }

    /**
     * `download_and_merge`: on success the merged file and the sanitised filename; the scratch
     * directory stays, holding only the merged file. On any failure after the scratch directory
     * is made the filesystem is exactly as before the call.
     */
    method DownloadAndMerge(names: seq<string>, fetch: FetchOutcome, merge: MergeOutcome, lookup: TitleLookup)
      returns (r: Result<(Path, string), Exception>)
      requires Valid()
      modifies this`fs
      ensures Valid()
      ensures ScratchDir(old(fs), tempDir, names).None? ==>
        r == Failure(ScratchError(old(fs), tempDir)) && fs == old(fs)
      ensures ScratchDir(old(fs), tempDir, names).Some? && JobError(fetch, merge).Some? ==>
        r == Failure(JobError(fetch, merge).value) && fs == old(fs)
      ensures ScratchDir(old(fs), tempDir, names).Some? && JobError(fetch, merge).None? ==>
        var dir := ScratchDir(old(fs), tempDir, names).value;
        var output := Join(dir, MERGED_NAME);
        r == Success((output, FilenameFromLookup(isAlnum, lookup))) &&
        fs == old(fs)[dir := Dir][output := File(merge.outputSize.value)]
    {
      ghost var fs0 := fs;
      var made := MakeScratchDir(names);
      if made.Failure? {
        return Failure(made.error);
      }
      var dir := made.value;
      ghost var fs1 := fs;
      var job := RunInScratch(dir, fetch, merge);
      if job.Failure? {
        AgreesTransitive(fs0, fs1, fs, dir);
        ClearedRestores(fs0, fs, dir);
        return Failure(job.error);
      }
      return Success((job.value, FilenameFromLookup(isAlnum, lookup)));
    }
  }
}
