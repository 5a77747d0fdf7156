/** The top-level metadata_extractor.py, the earlier form of the extractor. Its extraction
    and output functions match the backend's apart from progress messages, so they are
    shared; what differs is `scan_directory`, which walks the directory twice: once to
    count the audio files and once to extract them. */
module LegacyMetadataExtractor {
  import opened Wrappers
  import opened Text
  import opened Json
  import opened MetadataExtractor

  /** The first pass: `total_files`, the number of audio names in the walk. */
  method CountAudioFiles(walk: seq<WalkEntry>) returns (total: nat)
    ensures total == |AudioFiles(walk)|
  {
    total := 0;
    for i := 0 to |walk|
      invariant total == |AudioFiles(walk[..i])|
    {
      assert walk[..i + 1][..i] == walk[..i];
      var entry := walk[i];
      ghost var before := AudioFiles(walk[..i]);
      for j := 0 to |entry.files|
        invariant total == |before + AudioFilesIn(entry.root, entry.files[..j])|
      {
        assert entry.files[..j + 1][..j] == entry.files[..j];
        if IsAudioName(entry.files[j]) {
          total := total + 1;
        }
      }
      assert entry.files[..|entry.files|] == entry.files;
    }
    assert walk[..|walk|] == walk;
  }

  /** `scan_directory(directory, calculate_missing_bpm)` of the earlier extractor: the
      records of the audio files in walk order, `total_files` and `processed_files`. */
  method ScanDirectory(directory: string, isDir: bool, walk: seq<WalkEntry>, media: Media, enabled: bool)
    returns (r: Result<seq<Object>, ScanError>, totalFiles: nat, processedFiles: nat)
    ensures r.Failure? <==> !isDir
    ensures r.Failure? ==> r.error == NotADirectory(directory)
    ensures r.Success? ==> totalFiles == |AudioFiles(walk)|
    ensures r.Success? ==> r.value == ScanResults(AudioFiles(walk), media, enabled)
    ensures r.Success? ==> processedFiles == |r.value|
    ensures r.Success? && totalFiles > 0 ==> processedFiles == totalFiles
  {
    processedFiles := 0;
    totalFiles := 0;
    if !isDir {
      return Failure(NotADirectory(directory)), totalFiles, processedFiles;
    }
    totalFiles := CountAudioFiles(walk);
    var results: seq<Object> := [];
    if totalFiles == 0 {
      return Success(results), totalFiles, processedFiles;
    }
    for i := 0 to |walk|
      invariant results == ScanResults(AudioFiles(walk[..i]), media, enabled)
      invariant processedFiles == |results|
    {
      assert walk[..i + 1][..i] == walk[..i];
      var entry := walk[i];
      ghost var before := AudioFiles(walk[..i]);
      for j := 0 to |entry.files|
        invariant results == ScanResults(before + AudioFilesIn(entry.root, entry.files[..j]), media, enabled)
        invariant processedFiles == |results|
      {
        WalkStep(before, entry.root, entry.files, j, media, enabled);
        var file := entry.files[j];
        var filePath := PathJoin(entry.root, file);
        if IsMp3Name(file) {
          processedFiles := processedFiles + 1;
          var metadata := ExtractMp3Metadata(filePath, media, enabled);
          results := results + [metadata];
        } else if IsMp4Name(file) {
          processedFiles := processedFiles + 1;
          var metadata := ExtractMp4Metadata(filePath, media, enabled);
          results := results + [metadata];
        }
      }
      assert entry.files[..|entry.files|] == entry.files;
    }
    assert walk[..|walk|] == walk;
    return Success(results), totalFiles, processedFiles;
  }

  /** One file of the second pass: an audio file adds its record; any other name adds
      nothing. */
  lemma WalkStep(before: seq<AudioFile>, root: string, files: seq<string>, j: nat, media: Media, enabled: bool)
    requires j < |files|
    ensures ScanResults(before + AudioFilesIn(root, files[..j + 1]), media, enabled)
         == ScanResults(before + AudioFilesIn(root, files[..j]), media, enabled)
            + (if IsAudioName(files[j]) then [Extract(AudioFile(PathJoin(root, files[j]), IsMp3Name(files[j])), media, enabled)] else [])
  {
    assert files[..j + 1][..j] == files[..j];
    var collected := before + AudioFilesIn(root, files[..j]);
    if IsAudioName(files[j]) {
      var f := AudioFile(PathJoin(root, files[j]), IsMp3Name(files[j]));
      assert before + AudioFilesIn(root, files[..j + 1]) == collected + [f];
      ScanResultsSnoc(collected, f, media, enabled);
    }
  }
}
