# Catalogue ingestion, modelled in Dafny

The repository's Python ingestion scripts collect track metadata for a music catalogue:

- `backend/spotify_meta.py` reads a Spotify playlist reference (web link, `spotify:` URI or
  bare 22-character ID) and turns the playlist's items into CSV rows, with the audio features
  and the musical key and mode names when features are available;
- `backend/soundcloud_meta.py` checks a SoundCloud playlist link, gathers the playlist's tracks
  across pages (adding `client_id` to every request) and turns them into CSV rows, with
  defaults for missing fields and the publisher fields when present;
- both name their CSV file after a sanitised playlist title;
- `backend/metadata_extractor.py` walks a directory for `.mp3`, `.mp4` and `.m4a` files,
  reads their tags through first-match tag tables, computes a missing BPM on request, falls
  back to an error record when a file cannot be read, and saves the records as JSON with a
  file count;
- the top-level `metadata_extractor.py` is the earlier copy of that extractor: its extraction
  and saving functions are the backend's (apart from progress messages) and are shared in the
  model; its `scan_directory` walks twice, counting `total_files` first and then updating
  `processed_files` as it extracts.

Modules follow the files: `SpotifyMeta`, `SoundCloudMeta`, `SafeFilename` (the comprehension
both scripts use), `MetadataExtractor` (the backend extractor) and `LegacyMetadataExtractor`
(the two-pass scan). `Text` holds Python's string operations (`in`, `split`, `"".join`,
`strip`, `lower`, `endswith`, `str(int)`), `Json` the decoded JSON values with Python
truthiness and `dict.get`, `Wrappers` Option, Result and the "append each result, stop at
the first exception" loop.

Conventions:

- An exception that escapes a function is a `Failure` (`ValueError` on a bad link, a
  `KeyError` on an unknown key or mode code, an `AttributeError` on a non-dict `user`, an
  HTTP error, `sys.exit(1)` on a missing directory).
- Remote services and file readers are function parameters: `sp.artist` and the Soundcharts
  feature lookup, the SoundCloud page and track fetches (`None` where `raise_for_status` raises
  or the status is not 200), mutagen's MP3/ID3 and MP4 readers, and `calculate_bpm`.
- `urlparse` is not re-implemented: its `(scheme, netloc, path)` is an input. `os.walk` is an
  input sequence of `(root, files)` entries and `os.path.isdir` a boolean.
- Loops of the source are methods with loop invariants, proved equal to recursive functions
  on which the properties are proved as lemmas.

## Model

The earlier copy's extraction and saving code (metadata_extractor.py:37-144 and 192-233)
is the backend's line for line apart from progress messages. So the `MetadataExtractor` rows
below model it too: its tag tables at 53-71 and 103-130, its BPM rule at 74-81 and 133-140,
its error records at 84-85 and 143-144, and its output at 200-206 and 212-214.

| member | source | states |
|---|---|---|
| Text.Contains | backend/spotify_meta.py:18 | Python's `sub in s`: true exactly when `sub` occurs at some index of `s` |
| Text.Split | backend/spotify_meta.py:19 | `str.split(sep)` yields at least one piece |
| Text.SplitPiecesFree | backend/spotify_meta.py:19 | no piece of a split contains the separator |
| Text.SplitSingle | backend/spotify_meta.py:27 | a split has one piece exactly when the separator does not occur, and that piece is the whole string |
| Text.JoinSplit | backend/spotify_meta.py:19 | joining the pieces of a split with the separator gives back the string |
| Text.SplitJoin | backend/spotify_meta.py:19 | splitting a join of separator-free pieces gives back the pieces |
| Text.SplitLastPiece | backend/spotify_meta.py:27 | the last piece of `prefix + sep + last` is `last` when `last` has no separator |
| Text.Join | backend/spotify_meta.py:137 | `sep.join(parts)` of no parts is empty; otherwise it starts with the first part and ends with the last |
| Text.IndexOf | backend/spotify_meta.py:21 | `list.index`: absent exactly when the value is not in the list, else the first position holding it |
| Text.Strip | backend/spotify_meta.py:30-31 | `str.strip()`: the characters between the leading and trailing whitespace, unchanged, with non-whitespace ends |
| Text.StripIdempotent | backend/spotify_meta.py:30-31 | stripping twice is stripping once |
| Text.Lower | backend/metadata_extractor.py:163 | the ASCII lowering keeps the length |
| Text.NatToString | backend/metadata_extractor.py:81 | `str(n)` of a natural: non-empty digits without a leading zero |
| Text.IntToString | backend/metadata_extractor.py:81 | `str(n)` starts with `-` exactly for negative `n` |
| Text.NatToStringRoundTrip | backend/metadata_extractor.py:81 | reading back the decimal digits of `str(n)` gives `n` |
| Wrappers.MapResults | backend/soundcloud_meta.py:94-145 | the appending loop yields one result per element when it succeeds |
| Wrappers.MapResultsMeaning | backend/soundcloud_meta.py:94-145 | the loop succeeds iff every element does, then holds each element's result at its position; else it fails with the first failing element's error |
| Wrappers.MapResultsFailureStays | backend/soundcloud_meta.py:94-145 | once the loop has raised, later elements change nothing |
| Wrappers.MapResultsSnoc | backend/soundcloud_meta.py:106-143 | one more element appends its result or ends the loop with its error |
| Json.EqualsTrueIsTruthy | backend/metadata_extractor.py:192 | a value `== True` is truthy, but a truthy value such as `2` need not equal `True`: the two `bpm_calculated` tests differ in general |
| Json.GetAfterUpdate | backend/soundcloud_meta.py:107-127 | `d.get(key, default)` after setting a key: the new value there, the old lookup elsewhere |
| SafeFilename.SafeName | backend/spotify_meta.py:284-286 | the sanitised name has the title's length, keeps every allowed character (alphanumeric, space, `-`, `_`) in place and replaces every other one by `_` |
| SafeFilename.SafeNameFixesAllowed | backend/spotify_meta.py:284-286 | a title made only of allowed characters is unchanged |
| SafeFilename.SafeNameIdempotent | backend/soundcloud_meta.py:182 | sanitising twice is sanitising once |
| SafeFilename.SafeNameHasNoPathSyntax | backend/soundcloud_meta.py:182-183 | the sanitised name has no `/`, `\` or `.`, so the file lands in the working directory |
| SafeFilename.OutputFile | backend/spotify_meta.py:287 | the output file is the sanitised name followed by the suffix (`_metadata.csv`, `_soundcloud_metadata.csv`): its first characters are exactly `SafeName` of the title, the rest is the suffix, and it has no `/` |
| SpotifyMeta.PlaylistIdFromUrl | backend/spotify_meta.py:12-35 | a web link succeeds iff a segment follows the first `playlist` segment and yields a slash-free ID; a `spotify:` playlist URI yields a colon-free suffix of its path, the whole path when it has no colon; anything else succeeds iff its stripped length is 22 and yields it stripped; every failure is the `ValueError` message |
| SpotifyMeta.IdAfterPlaylist | backend/spotify_meta.py:19-23 | success iff a segment follows the first `playlist`, and then the result is the segment after a `playlist` segment |
| SpotifyMeta.OpenUrlBySegments | backend/spotify_meta.py:18-23 | a web link's result depends on its path segments alone |
| SpotifyMeta.SplitLastPieceIsSuffix | backend/spotify_meta.py:27 | the text after the last separator is a suffix of the path |
| SpotifyMeta.OpenUrlYieldsId | backend/spotify_meta.py:18-23 | `open.spotify.com` with path `before/playlist/id/after` yields `id` |
| SpotifyMeta.NoSlashInSegments | backend/spotify_meta.py:19 | the segments of such a path hold no `/` |
| SpotifyMeta.IdAfterFirstPlaylist | backend/spotify_meta.py:20-23 | the segment after the first `playlist` is taken |
| SpotifyMeta.IndexOfAfterPrefix | backend/spotify_meta.py:21 | the first occurrence of a value lies right after a prefix without it |
| SpotifyMeta.OpenUrlWithoutIdFails | backend/spotify_meta.py:18-35 | a web link ending at its first `playlist` segment raises `ValueError`, whatever its length: it never reaches the bare-ID rule |
| SpotifyMeta.OpenUrlWithoutPlaylistFails | backend/spotify_meta.py:18-35 | a web link with no `playlist` segment raises `ValueError` |
| SpotifyMeta.PlaylistUriYieldsLastSegment | backend/spotify_meta.py:26-27 | `spotify:` URI `prefix:id` yields `id` |
| SpotifyMeta.BareIdRule | backend/spotify_meta.py:30-35 | any other reference is returned stripped exactly when its stripped length is 22, else `ValueError` |
| SpotifyMeta.OpenUrlEmptyIdAccepted | backend/spotify_meta.py:18-23 | as written, a web link ending in `/playlist/` yields the empty ID |
| SpotifyMeta.KeyName | backend/spotify_meta.py:184-198 | codes 0 to 11 name a pitch, -1 is `Unknown`, any other code is a `KeyError` |
| SpotifyMeta.ModeName | backend/spotify_meta.py:199 | 0 is Minor, 1 is Major, -1 is Unknown, any other code is a `KeyError` |
| SpotifyMeta.KeyNamesDistinct | backend/spotify_meta.py:184-196 | the twelve pitch codes name twelve different pitches |
| SpotifyMeta.IntKey | backend/spotify_meta.py:201-202 | the integer dict key a decoded value finds is exactly the integer it compares equal to in Python |
| SpotifyMeta.KeyNameOf | backend/spotify_meta.py:201 | `keys[code]` is the pitch name of any integer the code equals, and a `KeyError` when it equals none |
| SpotifyMeta.ModeNameOf | backend/spotify_meta.py:202 | `modes[code]` likewise |
| SpotifyMeta.CodeLookupsAsPython | backend/spotify_meta.py:201-206 | `5.0` and `True` find the keys 5 and 1 and `-1.0` the `Unknown` mode, while `None`, a string or `5.5` raises `KeyError` |
| SpotifyMeta.ArtistNames | backend/spotify_meta.py:137 | one name per artist, in order |
| SpotifyMeta.Genres | backend/spotify_meta.py:141-147 | `[]` without artists or when `sp.artist` of the first artist raises; otherwise its `genres` entry, or `[]` when the entry is missing |
| SpotifyMeta.AudioFieldsOf | backend/spotify_meta.py:165-209 | the feature columns succeed iff both decoded codes find an entry of their tables (the key's `KeyError` first); `key_mode` is `"<key> <mode>"` when neither code equals -1, else `Unknown` |
| SpotifyMeta.TrackRecord | backend/spotify_meta.py:134-209 | a track's record fails iff features exist and their key or mode lookup fails, with that lookup's error |
| SpotifyMeta.TrackRecordFields | backend/spotify_meta.py:137-209 | the record's artist is the names joined by `", "`; title, album, `duration_ms` and `explicit` are the track's; `.get` fields take their defaults; genres are `Genres` of the track (so `[]` without artists); the feature columns are present exactly when features exist |
| SpotifyMeta.Present | backend/spotify_meta.py:126-131 | the kept tracks are no more than the items |
| SpotifyMeta.PresentStep | backend/spotify_meta.py:126-131 | no items keep no tracks, and one more item adds its track, or nothing when it is `None`: exactly one track per non-`None` item, in order |
| SpotifyMeta.PresentMembers | backend/spotify_meta.py:126-131 | a track is kept exactly when some item holds it |
| SpotifyMeta.PresentAllTracks | backend/spotify_meta.py:126-131 | without `None` items every track is kept, in order |
| SpotifyMeta.PresentPrefix | backend/spotify_meta.py:126-131 | the tracks of a prefix of the items are a prefix of the tracks |
| SpotifyMeta.TrackMetadata | backend/spotify_meta.py:122-213 | one record per non-`None` track (the `Present` tracks, pinned by `PresentStep`), in order, each the track's record; or the first lookup error met, all records before it succeeding |
| SpotifyMeta.FirstFailure | backend/spotify_meta.py:126-213 | when the loop stops at an item with a failing record, that track is the first kept track whose record fails |
| SoundCloudMeta.PlaylistPathFromUrl | backend/soundcloud_meta.py:18-31 | success iff the host contains `soundcloud.com`, then the path unchanged; else the `ValueError` message |
| SoundCloudMeta.WithClientId | backend/soundcloud_meta.py:60-64 | the link is a prefix of the result, followed by `&` when it already had `?` (else `?`) and `client_id=<id>` |
| SoundCloudMeta.WithClientIdTwice | backend/soundcloud_meta.py:73-77 | a link that already carries a query gets `&client_id=` |
| SoundCloudMeta.InitialTracks | backend/soundcloud_meta.py:50-68 | non-empty inline tracks are used as they are; else, with a truthy `tracks_uri`, the request goes to it with `client_id` added, fails exactly when that fetch fails and otherwise yields the fetched `collection`; else none |
| SoundCloudMeta.FollowPages | backend/soundcloud_meta.py:71-83 | at most `fuel` pages are fetched; an HTTP failure names the link whose fetch failed |
| SoundCloudMeta.FollowPagesStep | backend/soundcloud_meta.py:72-83 | one pass: the fetched page, then the pages from its `next_href` |
| SoundCloudMeta.FollowPagesChain | backend/soundcloud_meta.py:71-83 | the pages form a chain: none without `next_href`; the first from the playlist's link, each next from its predecessor's `next_href`, the last without one |
| SoundCloudMeta.CollectionsSnoc | backend/soundcloud_meta.py:82 | no pages add no tracks, and one more page adds its `collection` at the end |
| SoundCloudMeta.AllTracks | backend/soundcloud_meta.py:48-88 | what `get_playlist_tracks` returns: it fails exactly when the initial request or a page request fails, and otherwise is the initial tracks followed by the collections of the pages reached from `next_href`, in order |
| SoundCloudMeta.PlaylistTracks | backend/soundcloud_meta.py:48-88 | the initial tracks followed by each page's `collection` in order, stopping when `next_href` is unset, or the first fetch failure |
| SoundCloudMeta.GatherEnd | backend/soundcloud_meta.py:72 | the loop ends with the tracks gathered when `next_href` is unset, or with the failure of the next request |
| SoundCloudMeta.GatherStep | backend/soundcloud_meta.py:79-83 | a fetched page's collection joins the tracks and gathering continues from its `next_href` |
| SoundCloudMeta.InlineTracksTakePriority | backend/soundcloud_meta.py:53-57 | with non-empty inline tracks, `tracks_uri` does not matter and the inline tracks start the result |
| SoundCloudMeta.NoPaginationWithoutNextHref | backend/soundcloud_meta.py:71-72 | without the playlist's `next_href`, the result is the initial tracks |
| SoundCloudMeta.Resolve | backend/soundcloud_meta.py:97-103 | a track is skipped iff it lacks `title`, has `id` and its fetch fails; a track needing the fetch becomes exactly the fetched object; a track with a title is used as it is |
| SoundCloudMeta.Resolved | backend/soundcloud_meta.py:94-103 | no more tracks remain than were given |
| SoundCloudMeta.ResolvedKeepsCompleteTracks | backend/soundcloud_meta.py:94-103 | tracks that need no fetch are all kept, unchanged and in order |
| SoundCloudMeta.ResolvedAppend | backend/soundcloud_meta.py:94-103 | each track is resolved on its own: resolving a concatenation concatenates the results |
| SoundCloudMeta.ResolvedStep | backend/soundcloud_meta.py:94-103 | one more track adds its resolved form or nothing |
| SoundCloudMeta.TrackMetadataFailureStays | backend/soundcloud_meta.py:94-145 | after a record has raised, later tracks change nothing |
| SoundCloudMeta.TrackMetadataStep | backend/soundcloud_meta.py:94-143 | a skipped track adds nothing, a resolved one adds its record, a failing one ends the loop with its error |
| SoundCloudMeta.DurationSeconds | backend/soundcloud_meta.py:111 | true division by 1000 is defined exactly on numbers and booleans, gives `i / 1000` for an int and `x / 1000` for a float, and otherwise raises for `duration` |
| SoundCloudMeta.BoolDurationAsInt | backend/soundcloud_meta.py:111 | a boolean duration divides as the integer 0 or 1 |
| SoundCloudMeta.UserOf | backend/soundcloud_meta.py:108-109 | `track.get("user", {})`: `{}` without `user`, the `user` dict when it is one, and the `AttributeError` of `.get` on anything else |
| SoundCloudMeta.PublisherOf | backend/soundcloud_meta.py:132-133 | the publisher metadata is used exactly when it is present, truthy and a dict, then as that dict; a present, truthy non-dict raises |
| SoundCloudMeta.FieldsKeys | backend/soundcloud_meta.py:106-129 | a dict literal has exactly the keys of its entries |
| SoundCloudMeta.FieldsFollowRules | backend/soundcloud_meta.py:106-129 | with distinct keys, each entry's key holds the source's value under the entry's key or its default |
| SoundCloudMeta.FollowsRulesUpdate | backend/soundcloud_meta.py:111 | setting a key no entry names keeps every entry |
| SoundCloudMeta.FollowsRulesMergeLeft | backend/soundcloud_meta.py:134-141 | merging in keys no entry names keeps every entry |
| SoundCloudMeta.FollowsRulesMergeRight | backend/soundcloud_meta.py:134-141 | the merged-in entries are kept |
| SoundCloudMeta.BaseRulesDistinct | backend/soundcloud_meta.py:106-129 | the record literal names each key once |
| SoundCloudMeta.PublisherRulesDistinct | backend/soundcloud_meta.py:134-141 | the publisher update names each key once |
| SoundCloudMeta.PublisherRules | backend/soundcloud_meta.py:134-141 | the six publisher entries each read the publisher metadata under their own key |
| SoundCloudMeta.RuleKeysApart | backend/soundcloud_meta.py:106-141 | `duration` and the publisher keys overwrite no base field |
| SoundCloudMeta.TrackRecord | backend/soundcloud_meta.py:106-141 | the record fails iff `user` or the publisher metadata is present but not a dict, or the duration is not a number, naming the first of these |
| SoundCloudMeta.TrackRecordKeys | backend/soundcloud_meta.py:106-141 | a record has the base keys and `duration`, plus the publisher keys exactly when the publisher metadata is truthy |
| SoundCloudMeta.TrackRecordFields | backend/soundcloud_meta.py:106-129 | each base field is the track's (or user's) value under its key or the default, and `duration` is the duration in seconds |
| SoundCloudMeta.TrackRecordPublisherFields | backend/soundcloud_meta.py:132-141 | with publisher metadata, each publisher field is read from it with its default |
| SoundCloudMeta.BaseDefaults | backend/soundcloud_meta.py:107-127 | a missing title or username reads `Unknown`, a missing play count 0, a missing BPM null; present values are copied |
| SoundCloudMeta.MissingUserGivesUnknownArtist | backend/soundcloud_meta.py:108 | a track without `user` has the artist `Unknown` |
| SoundCloudMeta.TrackMetadata | backend/soundcloud_meta.py:90-145 | the records of the tracks that are not skipped, in order, or the first error raised, as the appending loop over the resolved tracks |
| MetadataExtractor.FirstTag | backend/metadata_extractor.py:72-75 | the first listed tag ID present: none iff no listed ID is present; otherwise a present ID with no present ID listed before it |
| MetadataExtractor.Mp4Text | backend/metadata_extractor.py:122-130 | rendering fails (an `IndexError`) exactly on an empty list |
| MetadataExtractor.SetFromTags | backend/metadata_extractor.py:72-75 | one entry of the tag loop: it raises the `IndexError` exactly when its first present tag does not render; otherwise it adds its key exactly when some listed tag is present, and no other key changes |
| MetadataExtractor.TagFields | backend/metadata_extractor.py:71-75 | the tag loop raises only the `IndexError`; on success it keeps every base key and adds only keys the table names |
| MetadataExtractor.ApplyTagMapping | backend/metadata_extractor.py:71-75 | the nested tag loop with `break` computes the tag fields of the mapping from the base record |
| MetadataExtractor.ApplyTagRule | backend/metadata_extractor.py:72-75 | the inner `for tag_id` loop with `break` computes one entry of the tag loop |
| MetadataExtractor.TagFieldsFailureStays | backend/metadata_extractor.py:118-131 | once a tag has raised, later entries change nothing |
| MetadataExtractor.TagFieldsSucceeds | backend/metadata_extractor.py:118-131 | the tag loop succeeds iff every entry's first present tag renders |
| MetadataExtractor.TagFieldsKeepsOtherKeys | backend/metadata_extractor.py:71-75 | keys the mapping does not name keep their presence and value |
| MetadataExtractor.TagFieldsFirstMatch | backend/metadata_extractor.py:57-75 | each key holds the rendered value of its first present tag ID; a key with no present tag keeps its base state |
| MetadataExtractor.Mp3TagMapping | backend/metadata_extractor.py:57-69 | the MP3 table has eleven entries, each listing at least one ID3 frame |
| MetadataExtractor.Mp4TagMapping | backend/metadata_extractor.py:104-116 | the MP4 table has eleven entries, each listing at least one atom |
| MetadataExtractor.Mp3TagMappingDistinct | backend/metadata_extractor.py:57-69 | the MP3 table names each key once |
| MetadataExtractor.Mp4TagMappingDistinct | backend/metadata_extractor.py:104-116 | the MP4 table names each key once |
| MetadataExtractor.BaseFields | backend/metadata_extractor.py:47-54 | the base record has the six base keys |
| MetadataExtractor.ErrorRecord | backend/metadata_extractor.py:85-86 | the error record has exactly `file_path` and `error` |
| MetadataExtractor.WithBpm | backend/metadata_extractor.py:78-82 | with a BPM tag, or calculation off, the record is unchanged |
| MetadataExtractor.WithBpmRule | backend/metadata_extractor.py:78-82 | `bpm_calculated` is set iff no BPM tag, calculation on and a non-zero BPM computed, which then also sets `bpm` to its string; otherwise nothing changes |
| MetadataExtractor.ComputedBpmReadsBack | backend/metadata_extractor.py:79-81 | a computed positive BPM is stored as digits that read back as the BPM |
| MetadataExtractor.TaggedRecord | backend/metadata_extractor.py:47-84 | a file that opened but whose tag loop raises gives the error record with the `IndexError` message |
| MetadataExtractor.ExtractMp3 | backend/metadata_extractor.py:41-86 | a file mutagen cannot read gives exactly `file_path` and the reader's error |
| MetadataExtractor.ExtractMp4 | backend/metadata_extractor.py:89-142 | likewise for MP4 |
| MetadataExtractor.ExtractMp3Metadata | backend/metadata_extractor.py:41-86 | the MP3 record: base fields, tag loop, BPM fallback, or the error record when reading fails |
| MetadataExtractor.ExtractMp4Metadata | backend/metadata_extractor.py:89-142 | the MP4 record, likewise, failing to the error record on an empty list tag |
| MetadataExtractor.TaggedMetadata | backend/metadata_extractor.py:47-82 | the statements both extractors run once the file has opened compute that record |
| MetadataExtractor.Mp3TaggingSucceeds | backend/metadata_extractor.py:71-75 | the MP3 tag loop never raises |
| MetadataExtractor.Mp3YearPrefersTdrc | backend/metadata_extractor.py:61 | `year` is `TDRC` when present, else `TYER`, else unset |
| MetadataExtractor.Mp4GenrePrefersGen | backend/metadata_extractor.py:109 | `genre` is `©gen` when present, else `gnre`, else unset |
| MetadataExtractor.Mp4TaggingFailsOnEmptyList | backend/metadata_extractor.py:122-128 | the MP4 tag loop raises iff some entry's first present tag is an empty list |
| MetadataExtractor.ExtractMp3Shape | backend/metadata_extractor.py:41-86 | an MP3 record names its file and is either exactly the error record or typed `mp3` without `error`; `bpm_calculated` is true and comes with `bpm` |
| MetadataExtractor.ExtractMp4Shape | backend/metadata_extractor.py:89-142 | the same shape, typed `mp4` |
| MetadataExtractor.TaggedRecordShape | backend/metadata_extractor.py:47-84 | a record built from a table that avoids the reserved keys has that shape |
| MetadataExtractor.Mp3TagMappingKeys | backend/metadata_extractor.py:57-69 | no MP3 tag key is `file_path`, `file_type`, `error` or `bpm_calculated` |
| MetadataExtractor.Mp4TagMappingKeys | backend/metadata_extractor.py:104-116 | no MP4 tag key is one of those |
| MetadataExtractor.TaggedShape | backend/metadata_extractor.py:71-75 | the tag loop keeps `file_path` and `file_type` and adds no `error` or `bpm_calculated` |
| MetadataExtractor.Mp3AndMp4Exclusive | backend/metadata_extractor.py:163-165 | no name is both an MP3 name (`IsMp3Name`) and an MP4 name, so `IsAudioName` splits into two disjoint cases |
| MetadataExtractor.ExtensionCaseInsensitive | backend/metadata_extractor.py:163 | `IsMp3Name` and `IsMp4Name` recognise upper- and mixed-case endings |
| MetadataExtractor.AudioFilesInMembers | backend/metadata_extractor.py:162-165 | a file is collected iff some name ends in an audio extension, with its joined path and `is_mp3` exactly for `.mp3` |
| MetadataExtractor.AudioFilesInLength | backend/metadata_extractor.py:162-165 | one file is collected per audio name |
| MetadataExtractor.CollectAudioFiles | backend/metadata_extractor.py:159-165 | the nested walk loop collects the audio files of the walk in order |
| MetadataExtractor.ScanResults | backend/metadata_extractor.py:179-195 | one record per collected file, in order, each that file's MP3 or MP4 record |
| MetadataExtractor.ScanResultsSnoc | backend/metadata_extractor.py:187-195 | one more file appends its record |
| MetadataExtractor.ScanStep | backend/metadata_extractor.py:185-195 | after `k` files the loop's records grow by the record of file `k` |
| MetadataExtractor.CountStep | backend/metadata_extractor.py:192-193 | the counter grows by one exactly for a record whose `bpm_calculated` is truthy |
| MetadataExtractor.CalculatedCount | backend/metadata_extractor.py:192-193 | `processed_with_bpm_calc` counts at most one per record |
| MetadataExtractor.ExtractMetadata | backend/metadata_extractor.py:187-190 | the extractor is chosen by `is_mp3` (the record `Extract` names) |
| MetadataExtractor.ScanDirectory | backend/metadata_extractor.py:145-207 | fails iff the path is not a directory; otherwise one record per audio file in walk order, with `processed_with_bpm_calc` the number of records marked calculated |
| MetadataExtractor.SaveOutput | backend/metadata_extractor.py:218-223 | the output has exactly the four keys and `file_count` is the number of records |
| MetadataExtractor.SavedMetadataReadsBack | backend/metadata_extractor.py:222 | the saved `metadata` reads back as the records, unchanged |
| MetadataExtractor.CalculatedBpmCount | backend/metadata_extractor.py:230-232 | the summary count is at most the number of records |
| MetadataExtractor.SummaryMatchesScanCounter | backend/metadata_extractor.py:230-232 | for scanned records, the `== True` summary count equals the scan's truthiness counter |
| LegacyMetadataExtractor.CountAudioFiles | metadata_extractor.py:162-166 | the first pass counts exactly the audio names of the walk |
| LegacyMetadataExtractor.ScanDirectory | metadata_extractor.py:147-189 | fails iff the path is not a directory; otherwise `total_files` is the number of audio names, the records are the audio files' records in walk order, and `processed_files` is the number of records, equal to `total_files` |
| LegacyMetadataExtractor.WalkStep | metadata_extractor.py:173-187 | one name of the second pass: an audio name appends its record, any other name nothing |

## Left out

- Network and service clients: spotipy, Soundcharts authentication and the Soundcharts
  feature call (`get_soundcharts_auth_token`, `get_track_features`), and SoundCloud's
  `get_soundcloud_auth` and `get_playlist_info`. They are oracles or left out.
- Spotify `get_playlist_tracks` is not modelled; it is a paging loop over `sp.next`. Its items
  are the input of `SpotifyMeta.TrackMetadata`.
- `calculate_bpm`: librosa's tempo detection is an oracle returning an optional integer.
- Float arithmetic: the `round(..., 2)` of durations and of the Spotify `bpm` column, and the
  tqdm ETA arithmetic. The Spotify record holds `duration_ms` but not the rounded `duration`,
  and its `bpm` column carries the feature tempo unrounded.
- SoundCloudMeta.DurationSeconds: its value is unrounded, because rounding floats is left out.
- SoundCloudMeta.PlaylistTracks: the `while next_href` loop has no bound. The model makes at
  most `maxPages` requests and fails with `PageLimitReached` beyond them, so a playlist whose
  pages never end is not modelled.
- SoundCloudMeta.InitialTracks: a response without `collection` (a `KeyError`) is folded into
  the fetch failure.
- SoundCloudMeta.Resolve: `None` from the track fetch stands only for a status other than 200.
  An exception from `requests.get` or a body that is not JSON would propagate in the source and
  is not modelled; a JSON body that is not a dict is excluded by the oracle's type.
- SpotifyMeta.Features: the feature values other than the key and mode codes are taken as
  numbers. A JSON `null` tempo would make `round` raise a `TypeError`, which is not modelled.
- SpotifyMeta.TrackRecord: the fields the source reads with `track[...]` (`id`, `name`, `artists`,
  `album`, `duration_ms`, `explicit`, `external_urls`) are assumed present. A missing one is a `KeyError` in
  the source, which the model does not express.
- LegacyMetadataExtractor.ScanDirectory: both `os.walk` passes are given the same listing,
  which is why `processed_files` equals `total_files`. A directory changing between passes is
  not modelled.
- Filesystem and process: `os.walk`, `os.path.normpath`, `os.path.isdir` and `basename` are
  inputs or left out. `sys.exit(1)` is a `Failure`. File writes, `json.dump` formatting and
  the fallback save to the working directory are not modelled; `save_metadata` is modelled by
  the output it writes and its summary count.
- MetadataExtractor.PathJoin: `os.path.join` is modelled for POSIX roots only.
- `main` of every script, argparse, `.env` loading, `input()`, `print`, tqdm, `time.sleep`,
  pandas and CSV writing are not modelled.
- SafeFilename.SafeName: `str.isalnum` is taken as ASCII letters and digits, so non-ASCII
  letters are replaced, which Python would keep.
- Text.Lower: ASCII case folding only. This is exact for the `.mp3`, `.mp4` and `.m4a` tests,
  since no other character lowercases to those letters.
- Dict key order (the order of columns) is not modelled; records are maps.
- The MP4 `tmpo` branch renders like every other list, as the two branches in the source do
  the same.
- backend/main.py is not part of this model. The tempo-ranking front end is not part of this
  model either.
