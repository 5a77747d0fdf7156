/** backend/metadata_extractor.py: reading the tags of local MP3 and MP4 files into
    metadata records, filling in a computed BPM where the tags have none, walking a
    directory for audio files, and the shape of the saved JSON output. */
module MetadataExtractor {
  import opened Wrappers
  import opened Json
  import opened Text

  // ================================================================ files as read

  /** `audio.info`: the stream properties mutagen reports. */
  datatype AudioInfo = AudioInfo(length: real, bitrate: int, sampleRate: int, channels: int)

  /** An opened MP3 file: its stream info and its ID3 frames, each as `str(frame)`. */
  datatype Mp3File = Mp3File(info: AudioInfo, tags: map<string, string>)

  /** An MP4 tag value: a list of values (each as `str(element)`) or a single value. */
  datatype Mp4Value = ListValue(items: seq<string>) | ScalarValue(text: string)

  /** An opened MP4 file: its stream info and its tags. */
  datatype Mp4File = Mp4File(info: AudioInfo, tags: map<string, Mp4Value>)

  /** What the extractors read from outside: opening a file as MP3 (with its ID3 tags) or as
      MP4 (failing with the exception's message), and `calculate_bpm`, which yields the
      rounded tempo or `None`. */
  datatype Media = Media(
    readMp3: string -> Result<Mp3File, string>,
    readMp4: string -> Result<Mp4File, string>,
    calcBpm: string -> Option<int>)

  // ================================================================ tag mapping

  /** One entry of a `tag_mapping`: the metadata key and the tag IDs tried in order. */
  datatype TagRule = TagRule(key: string, ids: seq<string>)

  /** `str(e)` for the `IndexError` of `value[0]` on an empty list. */
  const IndexErrorMessage := "list index out of range"

  /** The ID3 `tag_mapping` of `extract_mp3_metadata`. */
  function Mp3TagMapping(): (mapping: seq<TagRule>)
    ensures |mapping| == 11
    ensures forall i :: 0 <= i < |mapping| ==> |mapping[i].ids| >= 1
  {
    [
      TagRule("title", ["TIT2"]),
      TagRule("artist", ["TPE1"]),
      TagRule("album", ["TALB"]),
      TagRule("year", ["TDRC", "TYER"]),
      TagRule("genre", ["TCON"]),
      TagRule("track_number", ["TRCK"]),
      TagRule("bpm", ["TBPM"]),
      TagRule("key", ["TKEY"]),
      TagRule("composer", ["TCOM"]),
      TagRule("publisher", ["TPUB"]),
      TagRule("initial_key", ["TKEY"])
    ]
  }

  /** The MP4 `tag_mapping` of `extract_mp4_metadata` (`\U{00A9}` is the copyright sign). */
  function Mp4TagMapping(): (mapping: seq<TagRule>)
    ensures |mapping| == 11
    ensures forall i :: 0 <= i < |mapping| ==> |mapping[i].ids| >= 1
  {
    [
      TagRule("title", ["\U{00A9}nam"]),
      TagRule("artist", ["\U{00A9}ART"]),
      TagRule("album", ["\U{00A9}alb"]),
      TagRule("year", ["\U{00A9}day"]),
      TagRule("genre", ["\U{00A9}gen", "gnre"]),
      TagRule("track_number", ["trkn"]),
      TagRule("bpm", ["tmpo"]),
      TagRule("composer", ["\U{00A9}wrt"]),
      TagRule("comment", ["\U{00A9}cmt"]),
      TagRule("copyright", ["cprt"]),
      TagRule("album_artist", ["aART"])
    ]
  }

  /** The first of `ids` that is present in `tags` (the inner loop's `break`). */
  function FirstTag<V>(ids: seq<string>, tags: map<string, V>): (r: Option<string>)
    ensures r.None? <==> forall k :: 0 <= k < |ids| ==> ids[k] !in tags
    ensures r.Some? ==> r.value in tags && exists k :: 0 <= k < |ids| && ids[k] == r.value
                                                     && forall j :: 0 <= j < k ==> ids[j] !in tags
    decreases |ids|
  {
    if |ids| == 0 then None
    else if ids[0] in tags then
      Some(ids[0])
    else
      var r := FirstTag(ids[1..], tags);
      assert forall k :: 0 <= k < |ids| - 1 ==> ids[1..][k] == ids[k + 1];
      if r.Some? then
        var k :| 0 <= k < |ids| - 1 && ids[1..][k] == r.value && forall j :: 0 <= j < k ==> ids[1..][j] !in tags;
        assert ids[k + 1] == r.value && forall j :: 0 <= j < k + 1 ==> ids[j] !in tags;
        r
      else r
  }

  /** `str(tags[tag_id])` for an ID3 frame: always defined. */
  function Mp3Text(frame: string): Option<string> {
    Some(frame)
  }

  /** `str(value[0])` for a list (undefined on an empty one) and `str(value)` otherwise. */
  function Mp4Text(value: Mp4Value): (r: Option<string>)
    ensures r.None? <==> value == ListValue([])
  {
    match value
    case ListValue(items) => if |items| == 0 then None else Some(items[0])
    case ScalarValue(text) => Some(text)
  }

  /** The `metadata` dict after the tag loop has run over the entries of `mapping`, in
      order: each key whose tag list has a present tag is set to that tag's text; an
      `IndexError` on the way is the failure. */
  function TagFields<V>(mapping: seq<TagRule>, tags: map<string, V>, render: V -> Option<string>, metadata: Object)
    : (r: Result<Object, string>)
    ensures r.Failure? ==> r.error == IndexErrorMessage
    ensures r.Success? ==> metadata.Keys <= r.value.Keys <= metadata.Keys + RuleKeys(mapping)
    decreases |mapping|
  {
    if |mapping| == 0 then Success(metadata)
    else
      match TagFields(mapping[..|mapping| - 1], tags, render, metadata)
      case Failure(e) => Failure(e)
      case Success(m) => SetFromTags(Last(mapping), tags, render, m)
  }

  /** The inner loop for one entry. */
  function SetFromTags<V>(rule: TagRule, tags: map<string, V>, render: V -> Option<string>, m: Object)
    : (r: Result<Object, string>)
    ensures r.Failure? <==> FirstTag(rule.ids, tags).Some? && render(tags[FirstTag(rule.ids, tags).value]).None?
    ensures r.Failure? ==> r.error == IndexErrorMessage
    ensures r.Success? ==> r.value.Keys == m.Keys + (if FirstTag(rule.ids, tags).Some? then {rule.key} else {})
    ensures r.Success? ==> forall k :: k in m && k != rule.key ==> r.value[k] == m[k]
  {
    match FirstTag(rule.ids, tags)
    case None => Success(m)
    case Some(id) =>
      match render(tags[id])
      case None => Failure(IndexErrorMessage)
      case Some(text) => Success(m[rule.key := JStr(text)])
  }

  /** The nested `for` loops with `break` over a `tag_mapping`. */
  method ApplyTagMapping<V>(metadata0: Object, mapping: seq<TagRule>, tags: map<string, V>, render: V -> Option<string>)
    returns (r: Result<Object, string>)
    ensures r == TagFields(mapping, tags, render, metadata0)
  {
    var metadata := metadata0;
    for i := 0 to |mapping|
      invariant TagFields(mapping[..i], tags, render, metadata0) == Success(metadata)
    {
      assert mapping[..i + 1][..i] == mapping[..i];
      var step := ApplyTagRule(mapping[i], tags, render, metadata);
      if step.Failure? {
        TagFieldsFailureStays(mapping[..i + 1], mapping[i + 1..], tags, render, metadata0);
        assert mapping[..i + 1] + mapping[i + 1..] == mapping;
        return step;
      }
      metadata := step.value;
    }
    assert mapping[..|mapping|] == mapping;
    return Success(metadata);
  }

  /** The inner `for tag_id in tag_ids` loop of one entry, which stops at the first tag
      present. */
  method ApplyTagRule<V>(rule: TagRule, tags: map<string, V>, render: V -> Option<string>, metadata: Object)
    returns (r: Result<Object, string>)
    ensures r == SetFromTags(rule, tags, render, metadata)
  {
    var j := 0;
    while j < |rule.ids|
      invariant 0 <= j <= |rule.ids|
      invariant FirstTag(rule.ids, tags) == FirstTag(rule.ids[j..], tags)
    {
      var id := rule.ids[j];
      if id in tags {
        var text := render(tags[id]);
        if text.None? {
          return Failure(IndexErrorMessage);
        }
        return Success(metadata[rule.key := JStr(text.value)]);
      }
      assert rule.ids[j..][1..] == rule.ids[j + 1..];
      j := j + 1;
    }
    return Success(metadata);
  }

  /** Once an entry has failed, later entries change nothing. */
  lemma {:induction false} TagFieldsFailureStays<V>(front: seq<TagRule>, back: seq<TagRule>, tags: map<string, V>,
                                                   render: V -> Option<string>, metadata: Object)
    requires TagFields(front, tags, render, metadata).Failure?
    ensures TagFields(front + back, tags, render, metadata) == TagFields(front, tags, render, metadata)
    decreases |back|
  {
    if |back| == 0 {
      assert front + back == front;
    } else {
      var init := back[..|back| - 1];
      TagFieldsFailureStays(front, init, tags, render, metadata);
      assert (front + back)[..|front + back| - 1] == front + init;
    }
  }

  function RuleKeys(mapping: seq<TagRule>): set<string> {
    set i | 0 <= i < |mapping| :: mapping[i].key
  }

  predicate DistinctKeys(mapping: seq<TagRule>) {
    forall i, j :: 0 <= i < j < |mapping| ==> mapping[i].key != mapping[j].key
  }

  /** The loop succeeds exactly when no entry's first present tag renders as an error. */
  lemma {:induction false} TagFieldsSucceeds<V>(mapping: seq<TagRule>, tags: map<string, V>,
                                               render: V -> Option<string>, metadata: Object)
    ensures TagFields(mapping, tags, render, metadata).Success? <==>
      forall i :: 0 <= i < |mapping| && FirstTag(mapping[i].ids, tags).Some? ==>
        render(tags[FirstTag(mapping[i].ids, tags).value]).Some?
    decreases |mapping|
  {
    if |mapping| > 0 {
      var init := mapping[..|mapping| - 1];
      TagFieldsSucceeds(init, tags, render, metadata);
      assert forall i :: 0 <= i < |init| ==> init[i] == mapping[i];
    }
  }

  /** Keys no entry names keep their values from before the loop. */
  lemma {:induction false} TagFieldsKeepsOtherKeys<V>(mapping: seq<TagRule>, tags: map<string, V>,
                                                     render: V -> Option<string>, metadata: Object, k: string)
    requires TagFields(mapping, tags, render, metadata).Success? && k !in RuleKeys(mapping)
    ensures k in TagFields(mapping, tags, render, metadata).value <==> k in metadata
    ensures k in metadata ==> TagFields(mapping, tags, render, metadata).value[k] == metadata[k]
    decreases |mapping|
  {
    if |mapping| > 0 {
      var init := mapping[..|mapping| - 1];
      assert RuleKeys(init) <= RuleKeys(mapping) by {
        forall x | x in RuleKeys(init) ensures x in RuleKeys(mapping) {
          var i :| 0 <= i < |init| && init[i].key == x;
          assert mapping[i] == init[i];
        }
      }
      assert Last(mapping).key in RuleKeys(mapping);
      TagFieldsKeepsOtherKeys(init, tags, render, metadata, k);
    }
  }

  /** With distinct keys, entry `i`'s key holds the text of its first present tag, and is
      left as it was before the loop when none of its tags is present. */
  lemma {:induction false} TagFieldsFirstMatch<V>(mapping: seq<TagRule>, tags: map<string, V>,
                                                 render: V -> Option<string>, metadata: Object, i: nat)
    requires i < |mapping| && DistinctKeys(mapping)
    requires TagFields(mapping, tags, render, metadata).Success?
    ensures var m := TagFields(mapping, tags, render, metadata).value;
      var key := mapping[i].key;
      match FirstTag(mapping[i].ids, tags)
      case Some(id) => render(tags[id]).Some? && key in m && m[key] == JStr(render(tags[id]).value)
      case None => (key in m <==> key in metadata) && (key in metadata ==> m[key] == metadata[key])
    decreases |mapping|
  {
    var init := mapping[..|mapping| - 1];
    assert forall j :: 0 <= j < |init| ==> init[j] == mapping[j];
    if i < |mapping| - 1 {
      TagFieldsFirstMatch(init, tags, render, metadata, i);
      assert mapping[i].key != Last(mapping).key;
    } else {
      assert init == mapping[..i];
      if FirstTag(mapping[i].ids, tags).None? {
        forall j | 0 <= j < |init| ensures init[j].key != mapping[i].key {
          assert init[j] == mapping[j];
        }
        assert mapping[i].key !in RuleKeys(init);
        TagFieldsKeepsOtherKeys(init, tags, render, metadata, mapping[i].key);
      }
    }
  }

  lemma Mp3TagMappingDistinct()
    ensures DistinctKeys(Mp3TagMapping())
  {
    var mapping := Mp3TagMapping();
    forall i | 0 <= i < |mapping| ensures forall j :: i < j < |mapping| ==> mapping[i].key != mapping[j].key {
    }
  }

  lemma Mp4TagMappingDistinct()
    ensures DistinctKeys(Mp4TagMapping())
  {
    var mapping := Mp4TagMapping();
    forall i | 0 <= i < |mapping| ensures forall j :: i < j < |mapping| ==> mapping[i].key != mapping[j].key {
    }
  }

  // ================================================================ records

  /** The fields every successful record starts with. */
  function BaseFields(path: string, fileType: string, info: AudioInfo): (m: Object)
    ensures m.Keys == BaseKeys()
  {
    map[
      "file_path" := JStr(path),
      "file_type" := JStr(fileType),
      "duration" := JReal(info.length),
      "bitrate" := JInt(info.bitrate),
      "sample_rate" := JInt(info.sampleRate),
      "channels" := JInt(info.channels)
    ]
  }

  function BaseKeys(): set<string> {
    {"file_path", "file_type", "duration", "bitrate", "sample_rate", "channels"}
  }

  /** The record of a failed extraction: `{"file_path": ..., "error": str(e)}`. */
  function ErrorRecord(path: string, message: string): (m: Object)
    ensures m.Keys == {"file_path", "error"}
    ensures m["file_path"] == JStr(path) && m["error"] == JStr(message)
  {
    map["file_path" := JStr(path), "error" := JStr(message)]
  }

  /** The BPM fallback: only when tagging left `bpm` unset and calculation is enabled, a
      truthy computed BPM is stored as its decimal string, with `bpm_calculated` set. */
  function WithBpm(metadata: Object, path: string, enabled: bool, calcBpm: string -> Option<int>): (m: Object)
    ensures "bpm" in metadata || !enabled ==> m == metadata
  {
    if "bpm" !in metadata && enabled then
      match calcBpm(path)
      case Some(bpm) =>
        if bpm != 0 then metadata["bpm" := JStr(IntToString(bpm))]["bpm_calculated" := JBool(true)]
        else metadata
      case None => metadata
    else metadata
  }

  /** The BPM is computed exactly when it is missing and calculation is enabled, and marked
      as computed exactly when that yields a non-zero value, which is then stored as its
      decimal digits. */
  lemma WithBpmRule(metadata: Object, path: string, enabled: bool, calcBpm: string -> Option<int>)
    requires "bpm_calculated" !in metadata
    ensures var m := WithBpm(metadata, path, enabled, calcBpm);
      var computed := "bpm" !in metadata && enabled && calcBpm(path).Some? && calcBpm(path).value != 0;
      && ("bpm_calculated" in m <==> computed)
      && (computed ==> m == metadata["bpm" := JStr(IntToString(calcBpm(path).value))]["bpm_calculated" := JBool(true)])
      && (!computed ==> m == metadata)
  {
  }

  /** A positive computed BPM reads back as the same number. */
  lemma ComputedBpmReadsBack(metadata: Object, path: string, calcBpm: string -> Option<int>)
    requires "bpm" !in metadata && calcBpm(path).Some? && calcBpm(path).value > 0
    ensures var m := WithBpm(metadata, path, true, calcBpm);
      && m["bpm"].JStr?
      && (forall i :: 0 <= i < |m["bpm"].s| ==> IsDigit(m["bpm"].s[i]))
      && DecimalValue(m["bpm"].s) == calcBpm(path).value
  {
    NatToStringRoundTrip(calcBpm(path).value);
  }

  /** The record of a file that opened: the base fields, the tag loop over `mapping`, then
      the BPM fallback; an error in the tag loop gives the error record. */
  function TaggedRecord<V>(path: string, fileType: string, info: AudioInfo, mapping: seq<TagRule>,
                           tags: map<string, V>, render: V -> Option<string>,
                           enabled: bool, calcBpm: string -> Option<int>): (r: Object)
    ensures TagFields(mapping, tags, render, BaseFields(path, fileType, info)).Failure? ==>
      r == ErrorRecord(path, IndexErrorMessage)
  {
    match TagFields(mapping, tags, render, BaseFields(path, fileType, info))
    case Failure(message) => ErrorRecord(path, message)
    case Success(metadata) => WithBpm(metadata, path, enabled, calcBpm)
  }

  /** `extract_mp3_metadata(file_path, calculate_missing_bpm)`. */
  function ExtractMp3(path: string, media: Media, enabled: bool): (r: Object)
    ensures media.readMp3(path).Failure? ==>
      r.Keys == {"file_path", "error"} && r["error"] == JStr(media.readMp3(path).error)
  {
    match media.readMp3(path)
    case Failure(message) => ErrorRecord(path, message)
    case Success(file) => TaggedRecord(path, "mp3", file.info, Mp3TagMapping(), file.tags, Mp3Text, enabled, media.calcBpm)
  }

  /** `extract_mp4_metadata(file_path, calculate_missing_bpm)`. */
  function ExtractMp4(path: string, media: Media, enabled: bool): (r: Object)
    ensures media.readMp4(path).Failure? ==>
      r.Keys == {"file_path", "error"} && r["error"] == JStr(media.readMp4(path).error)
  {
    match media.readMp4(path)
    case Failure(message) => ErrorRecord(path, message)
    case Success(file) => TaggedRecord(path, "mp4", file.info, Mp4TagMapping(), file.tags, Mp4Text, enabled, media.calcBpm)
  }

  /** `extract_mp3_metadata`: the base fields, the tag loop, then the BPM fallback; any
      failure gives the error record. */
  method ExtractMp3Metadata(path: string, media: Media, enabled: bool) returns (metadata: Object)
    ensures metadata == ExtractMp3(path, media, enabled)
  {
    var audio := media.readMp3(path);
    if audio.Failure? {
      return ErrorRecord(path, audio.error);
    }
    metadata := TaggedMetadata(path, "mp3", audio.value.info, Mp3TagMapping(), audio.value.tags, Mp3Text,
                               enabled, media.calcBpm);
  }

  /** `extract_mp4_metadata`: as for MP3, with list-valued tags read at their first element. */
  method ExtractMp4Metadata(path: string, media: Media, enabled: bool) returns (metadata: Object)
    ensures metadata == ExtractMp4(path, media, enabled)
  {
    var audio := media.readMp4(path);
    if audio.Failure? {
      return ErrorRecord(path, audio.error);
    }
    metadata := TaggedMetadata(path, "mp4", audio.value.info, Mp4TagMapping(), audio.value.tags, Mp4Text,
                               enabled, media.calcBpm);
  }

  /** The body of both extractors once the file has opened: the tag loop over the base
      fields, then the BPM fallback. */
  method TaggedMetadata<V>(path: string, fileType: string, info: AudioInfo, mapping: seq<TagRule>,
                           tags: map<string, V>, render: V -> Option<string>,
                           enabled: bool, calcBpm: string -> Option<int>) returns (metadata: Object)
    ensures metadata == TaggedRecord(path, fileType, info, mapping, tags, render, enabled, calcBpm)
  {
    var tagged := ApplyTagMapping(BaseFields(path, fileType, info), mapping, tags, render);
    if tagged.Failure? {
      return ErrorRecord(path, tagged.error);
    }
    metadata := tagged.value;
    if "bpm" !in metadata && enabled {
      var bpm := calcBpm(path);
      if bpm.Some? && bpm.value != 0 {
        metadata := metadata["bpm" := JStr(IntToString(bpm.value))];
        metadata := metadata["bpm_calculated" := JBool(true)];
      }
    }
  }

  /** Reading ID3 frames never fails, so an MP3 that opens always gets a full record. */
  lemma Mp3TaggingSucceeds(tags: map<string, string>, metadata: Object)
    ensures TagFields(Mp3TagMapping(), tags, Mp3Text, metadata).Success?
  {
    TagFieldsSucceeds(Mp3TagMapping(), tags, Mp3Text, metadata);
  }

  /** `year` is the `TDRC` frame when there is one, else the `TYER` frame, else unset. */
  lemma Mp3YearPrefersTdrc(tags: map<string, string>, metadata: Object)
    requires "year" !in metadata
    ensures var m := TagFields(Mp3TagMapping(), tags, Mp3Text, metadata);
      && m.Success?
      && ("TDRC" in tags ==> "year" in m.value && m.value["year"] == JStr(tags["TDRC"]))
      && ("TDRC" !in tags && "TYER" in tags ==> "year" in m.value && m.value["year"] == JStr(tags["TYER"]))
      && ("TDRC" !in tags && "TYER" !in tags ==> "year" !in m.value)
  {
    Mp3TaggingSucceeds(tags, metadata);
    Mp3TagMappingDistinct();
    var mapping := Mp3TagMapping();
    assert mapping[3] == TagRule("year", ["TDRC", "TYER"]);
    TagFieldsFirstMatch(mapping, tags, Mp3Text, metadata, 3);
  }

  /** `genre` is the `\U{00A9}gen` tag when there is one, else the `gnre` tag, else unset. */
  lemma Mp4GenrePrefersGen(tags: map<string, Mp4Value>, metadata: Object)
    requires "genre" !in metadata
    requires TagFields(Mp4TagMapping(), tags, Mp4Text, metadata).Success?
    ensures var m := TagFields(Mp4TagMapping(), tags, Mp4Text, metadata).value;
      && ("\U{00A9}gen" in tags ==> Mp4Text(tags["\U{00A9}gen"]).Some? && "genre" in m && m["genre"] == JStr(Mp4Text(tags["\U{00A9}gen"]).value))
      && ("\U{00A9}gen" !in tags && "gnre" in tags ==> Mp4Text(tags["gnre"]).Some? && "genre" in m && m["genre"] == JStr(Mp4Text(tags["gnre"]).value))
      && ("\U{00A9}gen" !in tags && "gnre" !in tags ==> "genre" !in m)
  {
    Mp4TagMappingDistinct();
    var mapping := Mp4TagMapping();
    assert mapping[4] == TagRule("genre", ["\U{00A9}gen", "gnre"]);
    TagFieldsFirstMatch(mapping, tags, Mp4Text, metadata, 4);
  }

  /** An MP4 extraction fails exactly when the first present tag of some entry is an empty
      list. */
  lemma Mp4TaggingFailsOnEmptyList(tags: map<string, Mp4Value>, metadata: Object)
    ensures TagFields(Mp4TagMapping(), tags, Mp4Text, metadata).Failure? <==>
      exists i :: 0 <= i < |Mp4TagMapping()| && FirstTag(Mp4TagMapping()[i].ids, tags).Some?
        && tags[FirstTag(Mp4TagMapping()[i].ids, tags).value] == ListValue([])
  {
    TagFieldsSucceeds(Mp4TagMapping(), tags, Mp4Text, metadata);
  }

  /** A record is either the error record or carries the file type and no `error`; it is
      marked `bpm_calculated` only as `True`, and only with a `bpm` next to it. */
  predicate RecordShape(m: Object, path: string, fileType: string) {
    && "file_path" in m && m["file_path"] == JStr(path)
    && (m.Keys == {"file_path", "error"} || ("file_type" in m && m["file_type"] == JStr(fileType) && "error" !in m))
    && ("bpm_calculated" in m ==> m["bpm_calculated"] == JBool(true) && "bpm" in m)
  }

  lemma ExtractMp3Shape(path: string, media: Media, enabled: bool)
    ensures RecordShape(ExtractMp3(path, media, enabled), path, "mp3")
  {
    if media.readMp3(path).Success? {
      var file := media.readMp3(path).value;
      Mp3TagMappingKeys();
      TaggedRecordShape(path, "mp3", file.info, Mp3TagMapping(), file.tags, Mp3Text, enabled, media.calcBpm);
    }
  }

  lemma ExtractMp4Shape(path: string, media: Media, enabled: bool)
    ensures RecordShape(ExtractMp4(path, media, enabled), path, "mp4")
  {
    if media.readMp4(path).Success? {
      var file := media.readMp4(path).value;
      Mp4TagMappingKeys();
      TaggedRecordShape(path, "mp4", file.info, Mp4TagMapping(), file.tags, Mp4Text, enabled, media.calcBpm);
    }
  }

  lemma TaggedRecordShape<V>(path: string, fileType: string, info: AudioInfo, mapping: seq<TagRule>,
                             tags: map<string, V>, render: V -> Option<string>,
                             enabled: bool, calcBpm: string -> Option<int>)
    requires RuleKeys(mapping) !! {"file_path", "file_type", "error", "bpm_calculated"}
    ensures RecordShape(TaggedRecord(path, fileType, info, mapping, tags, render, enabled, calcBpm), path, fileType)
  {
    var base := BaseFields(path, fileType, info);
    if TagFields(mapping, tags, render, base).Success? {
      TaggedShape(mapping, tags, render, base, path, fileType);
    }
  }

  lemma Mp3TagMappingKeys()
    ensures RuleKeys(Mp3TagMapping()) !! {"file_path", "file_type", "error", "bpm_calculated"}
  {
  }

  lemma Mp4TagMappingKeys()
    ensures RuleKeys(Mp4TagMapping()) !! {"file_path", "file_type", "error", "bpm_calculated"}
  {
  }

  /** After tagging, the base fields the mapping does not name are as they were. */
  lemma TaggedShape<V>(mapping: seq<TagRule>, tags: map<string, V>, render: V -> Option<string>,
                       base: Object, path: string, fileType: string)
    requires "file_path" in base && "file_type" in base
    requires RuleKeys(mapping) !! {"file_path", "file_type", "error", "bpm_calculated"}
    requires TagFields(mapping, tags, render, base).Success?
    ensures var m := TagFields(mapping, tags, render, base).value;
      && "file_path" in m && m["file_path"] == base["file_path"]
      && "file_type" in m && m["file_type"] == base["file_type"]
      && ("error" in m <==> "error" in base) && ("bpm_calculated" in m <==> "bpm_calculated" in base)
  {
    TagFieldsKeepsOtherKeys(mapping, tags, render, base, "file_path");
    TagFieldsKeepsOtherKeys(mapping, tags, render, base, "file_type");
    TagFieldsKeepsOtherKeys(mapping, tags, render, base, "error");
    TagFieldsKeepsOtherKeys(mapping, tags, render, base, "bpm_calculated");
  }

  // ================================================================ directory walk

  /** One `(root, dirs, files)` triple of `os.walk`, without the sub-directory names. */
  datatype WalkEntry = WalkEntry(root: string, files: seq<string>)

  /** An entry of `audio_files`: `(file_path, is_mp3)`. */
  datatype AudioFile = AudioFile(path: string, isMp3: bool)

  /** `os.path.join(root, name)` for a relative name. */
  function PathJoin(root: string, name: string): string {
    if root == "" || EndsWith(root, "/") then root + name else root + "/" + name
  }

  predicate IsMp3Name(name: string) {
    EndsWith(Lower(name), ".mp3")
  }

  predicate IsMp4Name(name: string) {
    EndsWith(Lower(name), ".mp4") || EndsWith(Lower(name), ".m4a")
  }

  /** `file.lower().endswith((".mp3", ".mp4", ".m4a"))`. */
  predicate IsAudioName(name: string) {
    IsMp3Name(name) || IsMp4Name(name)
  }

  /** A name is audio and MP4 exactly when it is audio and not MP3 (the three endings
      exclude one another). */
  lemma Mp3AndMp4Exclusive(name: string)
    ensures !(IsMp3Name(name) && IsMp4Name(name))
  {
    var l := Lower(name);
    if 4 <= |l| {
      var tail := l[|l| - 4..];
      assert IsMp3Name(name) ==> tail == ".mp3";
      assert EndsWith(l, ".mp4") ==> tail == ".mp4";
      assert EndsWith(l, ".m4a") ==> tail == ".m4a";
    }
  }

  /** Extensions are recognised whatever their case. */
  lemma ExtensionCaseInsensitive(stem: string)
    ensures IsMp3Name(stem + ".MP3") && IsMp3Name(stem + ".mp3") && IsMp3Name(stem + ".Mp3")
    ensures IsMp4Name(stem + ".M4A") && IsMp4Name(stem + ".MP4")
  {
    forall ext: string | ext in [".MP3", ".mp3", ".Mp3", ".M4A", ".MP4"]
      ensures Lower(stem + ext)[|stem|..] == Lower(ext)
    {
      assert forall i :: |stem| <= i < |stem + ext| ==> Lower(stem + ext)[i] == LowerChar(ext[i - |stem|]);
    }
    assert Lower(".MP3") == ".mp3" && Lower(".mp3") == ".mp3" && Lower(".Mp3") == ".mp3";
    assert Lower(".M4A") == ".m4a" && Lower(".MP4") == ".mp4";
  }

  /** The audio files of one directory listing, in order. */
  function AudioFilesIn(root: string, files: seq<string>): seq<AudioFile>
    decreases |files|
  {
    if |files| == 0 then []
    else
      var rest := AudioFilesIn(root, files[..|files| - 1]);
      var name := Last(files);
      if IsAudioName(name) then rest + [AudioFile(PathJoin(root, name), IsMp3Name(name))] else rest
  }

  /** `audio_files` after the walk: the audio files of each listing, listing after listing. */
  function AudioFiles(walk: seq<WalkEntry>): seq<AudioFile>
    decreases |walk|
  {
    if |walk| == 0 then []
    else AudioFiles(walk[..|walk| - 1]) + AudioFilesIn(Last(walk).root, Last(walk).files)
  }

  /** Exactly the audio names of a listing are collected, joined to their directory and
      flagged MP3 exactly when they end in `.mp3`. */
  lemma {:induction false} AudioFilesInMembers(root: string, files: seq<string>, f: AudioFile)
    ensures f in AudioFilesIn(root, files) <==>
      exists j :: 0 <= j < |files| && IsAudioName(files[j])
        && f == AudioFile(PathJoin(root, files[j]), IsMp3Name(files[j]))
    decreases |files|
  {
    if |files| > 0 {
      var init := files[..|files| - 1];
      AudioFilesInMembers(root, init, f);
      assert forall j :: 0 <= j < |init| ==> init[j] == files[j];
      if f in AudioFilesIn(root, files) && f !in AudioFilesIn(root, init) {
        assert files[|files| - 1] == Last(files);
      }
    }
  }

  /** The number of audio names in a listing. */
  function CountAudio(files: seq<string>): nat
    decreases |files|
  {
    if |files| == 0 then 0
    else CountAudio(files[..|files| - 1]) + (if IsAudioName(Last(files)) then 1 else 0)
  }

  lemma {:induction false} AudioFilesInLength(root: string, files: seq<string>)
    ensures |AudioFilesIn(root, files)| == CountAudio(files)
    decreases |files|
  {
    if |files| > 0 {
      AudioFilesInLength(root, files[..|files| - 1]);
    }
  }

  /** The first pass of `scan_directory`: the nested loops over the walk that append
      `(file_path, is_mp3)` for every audio name. */
  method CollectAudioFiles(walk: seq<WalkEntry>) returns (audioFiles: seq<AudioFile>)
    ensures audioFiles == AudioFiles(walk)
  {
    audioFiles := [];
    for i := 0 to |walk|
      invariant audioFiles == AudioFiles(walk[..i])
    {
      assert walk[..i + 1][..i] == walk[..i];
      var entry := walk[i];
      ghost var before := audioFiles;
      for j := 0 to |entry.files|
        invariant audioFiles == before + AudioFilesIn(entry.root, entry.files[..j])
      {
        assert entry.files[..j + 1][..j] == entry.files[..j];
        var file := entry.files[j];
        if IsAudioName(file) {
          var filePath := PathJoin(entry.root, file);
          audioFiles := audioFiles + [AudioFile(filePath, IsMp3Name(file))];
        }
      }
      assert entry.files[..|entry.files|] == entry.files;
    }
    assert walk[..|walk|] == walk;
  }

  // ================================================================ scanning

  /** The record for one collected file. */
  function Extract(f: AudioFile, media: Media, enabled: bool): Object {
    if f.isMp3 then ExtractMp3(f.path, media, enabled) else ExtractMp4(f.path, media, enabled)
  }

  /** `results`: one record per collected file, in order. */
  function ScanResults(files: seq<AudioFile>, media: Media, enabled: bool): (results: seq<Object>)
    ensures |results| == |files|
    ensures forall k :: 0 <= k < |files| ==> results[k] == Extract(files[k], media, enabled)
  {
    seq(|files|, k requires 0 <= k < |files| => Extract(files[k], media, enabled))
  }

  /** One more file appends its record. */
  lemma ScanResultsSnoc(files: seq<AudioFile>, f: AudioFile, media: Media, enabled: bool)
    ensures ScanResults(files + [f], media, enabled) == ScanResults(files, media, enabled) + [Extract(f, media, enabled)]
  {
  }

  /** The loop of `scan_directory` after `k` files has the records of the first `k`. */
  lemma ScanStep(files: seq<AudioFile>, k: nat, media: Media, enabled: bool)
    requires k < |files|
    ensures ScanResults(files[..k + 1], media, enabled)
      == ScanResults(files[..k], media, enabled) + [Extract(files[k], media, enabled)]
  {
    assert files[..k + 1] == files[..k] + [files[k]];
    ScanResultsSnoc(files[..k], files[k], media, enabled);
  }

  lemma CountStep(results: seq<Object>, metadata: Object)
    ensures CalculatedCount(results + [metadata])
      == CalculatedCount(results) + (if MarkedCalculated(metadata) then 1 else 0)
  {
    assert (results + [metadata])[..|results|] == results;
  }

  /** The extractor `scan_directory` picks by the `is_mp3` flag. */
  method ExtractMetadata(file: AudioFile, media: Media, enabled: bool) returns (metadata: Object)
    ensures metadata == Extract(file, media, enabled)
  {
    if file.isMp3 {
      metadata := ExtractMp3Metadata(file.path, media, enabled);
    } else {
      metadata := ExtractMp4Metadata(file.path, media, enabled);
    }
  }

  /** `if metadata.get("bpm_calculated"):` */
  predicate MarkedCalculated(metadata: Object) {
    Truthy(Get(metadata, "bpm_calculated", JNull))
  }

  /** The number of records marked as having a computed BPM. */
  function CalculatedCount(results: seq<Object>): (n: nat)
    ensures n <= |results|
    decreases |results|
  {
    if |results| == 0 then 0
    else CalculatedCount(results[..|results| - 1]) + (if MarkedCalculated(Last(results)) then 1 else 0)
  }

  /** Why `scan_directory` exits: the path is not a directory (`sys.exit(1)`). */
  datatype ScanError = NotADirectory(directory: string)

  /** `scan_directory(directory, calculate_missing_bpm)`, given whether the path is a
      directory and its walk: the records of its audio files in walk order, and the
      `processed_with_bpm_calc` counter. */
  method ScanDirectory(directory: string, isDir: bool, walk: seq<WalkEntry>, media: Media, enabled: bool)
    returns (r: Result<seq<Object>, ScanError>, bpmCalculated: nat)
    ensures r.Failure? <==> !isDir
    ensures r.Failure? ==> r.error == NotADirectory(directory) && bpmCalculated == 0
    ensures r.Success? ==> r.value == ScanResults(AudioFiles(walk), media, enabled)
    ensures r.Success? ==> bpmCalculated == CalculatedCount(r.value)
  {
    bpmCalculated := 0;
    if !isDir {
      return Failure(NotADirectory(directory)), 0;
    }
    var audioFiles := CollectAudioFiles(walk);
    var results: seq<Object> := [];
    if |audioFiles| == 0 {
      return Success(results), 0;
    }
    for k := 0 to |audioFiles|
      invariant results == ScanResults(audioFiles[..k], media, enabled)
      invariant bpmCalculated == CalculatedCount(results)
    {
      var metadata := ExtractMetadata(audioFiles[k], media, enabled);
      if MarkedCalculated(metadata) {
        bpmCalculated := bpmCalculated + 1;
      }
      ScanStep(audioFiles, k, media, enabled);
      CountStep(results, metadata);
      results := results + [metadata];
    }
    assert audioFiles[..|audioFiles|] == audioFiles;
    return Success(results), bpmCalculated;
  }

  // ================================================================ saved output

  /** The `output` dict `save_metadata` writes, given the clock's timestamp and
      `platform.system()`. */
  function SaveOutput(metadata: seq<Object>, timestamp: string, system: string): (out: Object)
    ensures out.Keys == {"timestamp", "system", "file_count", "metadata"}
    ensures out["file_count"] == JInt(|metadata|)
  {
    map[
      "timestamp" := JStr(timestamp),
      "system" := JStr(system),
      "file_count" := JInt(|metadata|),
      "metadata" := JList(seq(|metadata|, i requires 0 <= i < |metadata| => JObj(metadata[i])))
    ]
  }

  /** Reading a list of JSON objects back as records. */
  function Records(v: Json): Option<seq<Object>>
    decreases v
  {
    match v
    case JList(items) =>
      if forall i :: 0 <= i < |items| ==> items[i].JObj? then
        Some(seq(|items|, i requires 0 <= i < |items| => items[i].fields))
      else None
    case _ => None
  }

  /** The saved output embeds the metadata unchanged: reading it back gives the records. */
  lemma SavedMetadataReadsBack(metadata: seq<Object>, timestamp: string, system: string)
    ensures Records(SaveOutput(metadata, timestamp, system)["metadata"]) == Some(metadata)
  {
    var items := SaveOutput(metadata, timestamp, system)["metadata"].items;
    assert forall i :: 0 <= i < |items| ==> items[i] == JObj(metadata[i]);
    assert seq(|items|, i requires 0 <= i < |items| => items[i].fields) == metadata;
  }

  /** `sum(1 for item in metadata if item.get("bpm_calculated") == True)`. */
  function CalculatedBpmCount(metadata: seq<Object>): (n: nat)
    ensures n <= |metadata|
    decreases |metadata|
  {
    if |metadata| == 0 then 0
    else
      CalculatedBpmCount(metadata[..|metadata| - 1])
        + (if EqualsTrue(Get(Last(metadata), "bpm_calculated", JNull)) then 1 else 0)
  }

  /** For extracted records `== True` and truthiness agree on `bpm_calculated`, so the saved
      summary counts what the scan counted. */
  lemma {:induction false} SummaryMatchesScanCounter(files: seq<AudioFile>, media: Media, enabled: bool)
    ensures CalculatedBpmCount(ScanResults(files, media, enabled)) == CalculatedCount(ScanResults(files, media, enabled))
    decreases |files|
  {
    if |files| > 0 {
      var init := files[..|files| - 1];
      SummaryMatchesScanCounter(init, media, enabled);
      var results := ScanResults(files, media, enabled);
      assert results[..|results| - 1] == ScanResults(init, media, enabled);
      var f := Last(files);
      if f.isMp3 {
        ExtractMp3Shape(f.path, media, enabled);
      } else {
        ExtractMp4Shape(f.path, media, enabled);
      }
    }
  }
}
