/** backend/spotify_meta.py: reading a playlist reference, and shaping the Spotify API's
    playlist items into the metadata records written to CSV. */
module SpotifyMeta {
  import opened Wrappers
  import opened Json
  import opened Text

  // ================================================================ playlist reference

  const InvalidPlaylistMessage :=
    "Invalid Spotify playlist URL or ID. Please provide a valid Spotify playlist link."

  /** The reference is a web link: its host mentions `open.spotify.com`. */
  predicate IsOpenUrl(parsed: ParsedUrl) {
    Contains(parsed.netloc, "open.spotify.com")
  }

  /** The reference is a `spotify:` URI whose path mentions `playlist`. */
  predicate IsPlaylistUri(parsed: ParsedUrl) {
    parsed.scheme == "spotify" && Contains(parsed.path, "playlist")
  }

  /** Some path segment equals `playlist` and another segment follows the first such one. */
  predicate HasSegmentAfterPlaylist(parts: seq<string>) {
    match IndexOf(parts, "playlist")
    case None => false
    case Some(i) => i + 1 < |parts|
  }

  /** `get_playlist_id_from_url(playlist_url)`, with `parsed = urlparse(playlist_url)` given.
      A web link is looked at only through its path segments; a failed web link raises and
      never falls through to the bare-ID rule. */
  function PlaylistIdFromUrl(url: string, parsed: ParsedUrl): (r: Result<string, string>)
    ensures r.Failure? ==> r.error == InvalidPlaylistMessage
    ensures IsOpenUrl(parsed) ==>
      && (r.Success? <==> HasSegmentAfterPlaylist(Split(parsed.path, '/')))
      && (r.Success? ==> '/' !in r.value)
    ensures !IsOpenUrl(parsed) && IsPlaylistUri(parsed) ==>
      && r.Success? && ':' !in r.value && IsSuffix(r.value, parsed.path)
      && (':' !in parsed.path ==> r.value == parsed.path)
    ensures !IsOpenUrl(parsed) && !IsPlaylistUri(parsed) ==>
      && (r.Success? <==> |Strip(url)| == 22)
      && (r.Success? ==> r.value == Strip(url))
  {
    if IsOpenUrl(parsed) then
      SplitPiecesFree(parsed.path, '/');
      IdAfterPlaylist(Split(parsed.path, '/'))
    else if IsPlaylistUri(parsed) then
      var parts := Split(parsed.path, ':');
      SplitPiecesFree(parsed.path, ':');
      SplitLastPieceIsSuffix(parsed.path, ':');
      SplitSingle(parsed.path, ':');
      Success(Last(parts))
    else if |Strip(url)| == 22 then
      Success(Strip(url))
    else
      Failure(InvalidPlaylistMessage)
  }

  /** The web-link rule on the path segments: the segment after the first `playlist`. */
  function IdAfterPlaylist(parts: seq<string>): (r: Result<string, string>)
    ensures r.Success? <==> HasSegmentAfterPlaylist(parts)
    ensures r.Failure? ==> r.error == InvalidPlaylistMessage
    ensures r.Success? ==> exists i :: 0 <= i < |parts| - 1 && parts[i] == "playlist" && r.value == parts[i + 1]
  {
    match IndexOf(parts, "playlist")
    case Some(i) =>
      if i + 1 < |parts| then Success(parts[i + 1]) else Failure(InvalidPlaylistMessage)
    case None => Failure(InvalidPlaylistMessage)
  }

  /** On a web link the result depends on the path segments only. */
  lemma OpenUrlBySegments(url: string, parsed: ParsedUrl)
    requires IsOpenUrl(parsed)
    ensures PlaylistIdFromUrl(url, parsed) == IdAfterPlaylist(Split(parsed.path, '/'))
  {
  }

  /** The last piece of a split is a suffix of the string. */
  lemma SplitLastPieceIsSuffix(s: string, sep: char)
    ensures IsSuffix(Last(Split(s, sep)), s)
  {
    JoinSplit(s, sep);
  }

  /** A web link whose path is `before/playlist/id/after` yields `id`, provided no segment
      before holds `playlist` and no segment holds `/`. */
  lemma OpenUrlYieldsId(url: string, scheme: string, netloc: string,
                        before: seq<string>, id: string, after: seq<string>)
    requires Contains(netloc, "open.spotify.com")
    requires "playlist" !in before
    requires forall i :: 0 <= i < |before| ==> '/' !in before[i]
    requires forall i :: 0 <= i < |after| ==> '/' !in after[i]
    requires '/' !in id
    ensures var path := Join(before + ["playlist", id] + after, "/");
      PlaylistIdFromUrl(url, ParsedUrl(scheme, netloc, path)) == Success(id)
  {
    var parts := before + ["playlist", id] + after;
    NoSlashInSegments(before, id, after);
    SplitJoin(parts, '/');
    IdAfterFirstPlaylist(before, id, after);
    OpenUrlBySegments(url, ParsedUrl(scheme, netloc, Join(parts, "/")));
  }

  lemma NoSlashInSegments(before: seq<string>, id: string, after: seq<string>)
    requires forall i :: 0 <= i < |before| ==> '/' !in before[i]
    requires forall i :: 0 <= i < |after| ==> '/' !in after[i]
    requires '/' !in id
    ensures var parts := before + ["playlist", id] + after;
      forall i :: 0 <= i < |parts| ==> '/' !in parts[i]
  {
    var parts := before + ["playlist", id] + after;
    assert '/' !in "playlist";
    forall i | 0 <= i < |parts| ensures '/' !in parts[i] {
      if i < |before| { assert parts[i] == before[i]; }
      else if i >= |before| + 2 { assert parts[i] == after[i - |before| - 2]; }
    }
  }

  lemma IdAfterFirstPlaylist(before: seq<string>, id: string, after: seq<string>)
    requires "playlist" !in before
    ensures IdAfterPlaylist(before + ["playlist", id] + after) == Success(id)
  {
    var parts := before + ["playlist", id] + after;
    assert parts == before + ["playlist"] + ([id] + after);
    IndexOfAfterPrefix(before, "playlist", [id] + after);
    assert parts[|before| + 1] == id;
  }

  /** The first occurrence of `x` in `before + [x] + rest` is right after `before` when
      `before` does not hold `x`. */
  lemma {:induction false} IndexOfAfterPrefix<T>(before: seq<T>, x: T, rest: seq<T>)
    requires x !in before
    ensures IndexOf(before + [x] + rest, x) == Some(|before|)
    decreases |before|
  {
    var xs := before + [x] + rest;
    if |before| > 0 {
      assert xs[0] == before[0] && xs[1..] == before[1..] + [x] + rest;
      IndexOfAfterPrefix(before[1..], x, rest);
    } else {
      assert xs[0] == x;
    }
  }

  /** A web link whose path ends at its first `playlist` segment raises, whatever the length
      of the reference: such a link never reaches the bare-ID rule. */
  lemma OpenUrlWithoutIdFails(url: string, scheme: string, netloc: string, before: seq<string>)
    requires Contains(netloc, "open.spotify.com")
    requires "playlist" !in before
    requires forall i :: 0 <= i < |before| ==> '/' !in before[i]
    ensures var path := Join(before + ["playlist"], "/");
      PlaylistIdFromUrl(url, ParsedUrl(scheme, netloc, path)) == Failure(InvalidPlaylistMessage)
  {
    var parts := before + ["playlist"];
    assert '/' !in "playlist";
    forall i | 0 <= i < |parts| ensures '/' !in parts[i] {
      if i < |before| { assert parts[i] == before[i]; }
    }
    SplitJoin(parts, '/');
    assert parts == before + ["playlist"] + [];
    IndexOfAfterPrefix(before, "playlist", []);
    OpenUrlBySegments(url, ParsedUrl(scheme, netloc, Join(parts, "/")));
  }

  /** A web link with no `playlist` segment at all raises too. */
  lemma OpenUrlWithoutPlaylistFails(url: string, parsed: ParsedUrl)
    requires IsOpenUrl(parsed)
    requires "playlist" !in Split(parsed.path, '/')
    ensures PlaylistIdFromUrl(url, parsed) == Failure(InvalidPlaylistMessage)
  {
  }

  /** A `spotify:` URI `prefix:id` yields the text after its last colon. */
  lemma PlaylistUriYieldsLastSegment(url: string, netloc: string, prefix: string, id: string)
    requires !Contains(netloc, "open.spotify.com")
    requires ':' !in id
    requires Contains(prefix + ":" + id, "playlist")
    ensures PlaylistIdFromUrl(url, ParsedUrl("spotify", netloc, prefix + ":" + id)) == Success(id)
  {
    SplitLastPiece(prefix, id, ':');
    assert prefix + ":" + id == prefix + [':'] + id;
  }

  /** The bare-ID rule: a reference that is neither a web link nor a playlist URI is accepted
      exactly when it is 22 characters long once stripped, and is returned stripped. */
  lemma BareIdRule(url: string, parsed: ParsedUrl)
    requires !IsOpenUrl(parsed) && !IsPlaylistUri(parsed)
    ensures PlaylistIdFromUrl(url, parsed) ==
      if |Strip(url)| == 22 then Success(Strip(url)) else Failure(InvalidPlaylistMessage)
  {
  }

  /** As written, a web link ending in `/playlist/` yields the empty string as its ID. */
  lemma OpenUrlEmptyIdAccepted(url: string, scheme: string, netloc: string)
    requires Contains(netloc, "open.spotify.com")
    ensures PlaylistIdFromUrl(url, ParsedUrl(scheme, netloc, "/playlist/")) == Success("")
  {
    var parts := ["", "playlist", ""];
    assert [""] + ["playlist", ""] + [] == parts;
    assert Join(parts, "/") == "/playlist/" by {
      assert parts[1..][1..] == [""];
      assert Join(parts[1..], "/") == "playlist" + "/" + "";
    }
    OpenUrlYieldsId(url, scheme, netloc, [""], "", []);
  }

  // ================================================================ key and mode names

  const PitchNames: seq<string> :=
    ["C", "C#/Db", "D", "D#/Eb", "E", "F", "F#/Gb", "G", "G#/Ab", "A", "A#/Bb", "B"]

  /** `keys[code]`: the pitch class of a key code, `Unknown` for -1, and a `KeyError`
      (`None`) for any other code. */
  function KeyName(code: int): (r: Option<string>)
    ensures r.Some? <==> -1 <= code <= 11
    ensures r == Some("Unknown") <==> code == -1
    ensures r.Some? ==> ' ' !in r.value
  {
    if code == -1 then Some("Unknown")
    else if 0 <= code <= 11 then
      assert forall i :: 0 <= i < 12 ==> PitchNames[i] != "Unknown" && ' ' !in PitchNames[i];
      Some(PitchNames[code])
    else None
  }

  /** `modes[code]`: 0 is Minor, 1 is Major, -1 is Unknown, anything else a `KeyError`. */
  function ModeName(code: int): (r: Option<string>)
    ensures r.Some? <==> -1 <= code <= 1
    ensures r == Some("Unknown") <==> code == -1
    ensures code == 0 ==> r == Some("Minor")
    ensures code == 1 ==> r == Some("Major")
  {
    if code == -1 then Some("Unknown")
    else if code == 0 then Some("Minor")
    else if code == 1 then Some("Major")
    else None
  }

  /** The integer a decoded value equals, if any, which is the `int` key a dict lookup
      with that value finds. */
  function IntKey(v: Json): (k: Option<int>)
    ensures forall n :: EqualsInt(v, n) <==> k == Some(n)
  {
    match v
    case JInt(i) => Some(i)
    case JBool(b) => Some(if b then 1 else 0)
    case JReal(x) => if x.Floor as real == x then Some(x.Floor) else None
    case _ => None
  }

  /** `keys[code]` for a decoded code: the name of every integer the code equals, and a
      `KeyError` (`None`) when it equals none. */
  function KeyNameOf(code: Json): (r: Option<string>)
    ensures forall n :: EqualsInt(code, n) ==> r == KeyName(n)
    ensures IntKey(code).None? ==> r.None?
  {
    match IntKey(code)
    case None => None
    case Some(n) => KeyName(n)
  }

  /** `modes[code]` for a decoded code, likewise. */
  function ModeNameOf(code: Json): (r: Option<string>)
    ensures forall n :: EqualsInt(code, n) ==> r == ModeName(n)
    ensures IntKey(code).None? ==> r.None?
  {
    match IntKey(code)
    case None => None
    case Some(n) => ModeName(n)
  }

  /** The lookups compare as Python does: `5.0` and `True` find the keys 5 and 1, while
      `None`, a string or `5.5` raises `KeyError`. */
  lemma CodeLookupsAsPython()
    ensures KeyNameOf(JReal(5.0)) == Some("F") && KeyNameOf(JBool(true)) == Some("C#/Db")
    ensures KeyNameOf(JNull).None? && KeyNameOf(JStr("5")).None? && KeyNameOf(JReal(5.5)).None?
    ensures ModeNameOf(JReal(-1.0)) == Some("Unknown") && ModeNameOf(JBool(false)) == Some("Minor")
  {
    assert EqualsInt(JReal(5.0), 5);
    assert EqualsInt(JBool(true), 1);
    assert EqualsInt(JReal(-1.0), -1);
    assert EqualsInt(JBool(false), 0);
  }

  /** The twelve pitch codes name twelve different pitches. */
  lemma KeyNamesDistinct(a: int, b: int)
    requires 0 <= a <= 11 && 0 <= b <= 11 && a != b
    ensures KeyName(a).Some? && KeyName(b).Some? && KeyName(a) != KeyName(b)
  {
  }

  // ================================================================ track records

  /** The audio features `get_track_features` maps from Soundcharts (every key present).
      The key and mode codes are the decoded JSON values, unchecked. */
  datatype Features = Features(
    tempo: real, key: Json, mode: Json, timeSignature: int,
    danceability: real, energy: real, loudness: real, speechiness: real,
    acousticness: real, instrumentalness: real, liveness: real, valence: real)

  /** The columns `track_data.update(...)` adds when features are available, with the key,
      mode and combined key-mode names. */
  datatype AudioFields = AudioFields(features: Features, keyName: string, modeName: string, keyMode: string)

  /** The `KeyError` raised by `keys[...]` or `modes[...]` on a code outside the table. */
  datatype LookupError = UnknownKey(keyCode: Json) | UnknownMode(modeCode: Json)

  datatype Artist = Artist(name: string, id: string)

  /** `track["album"]`; `release_date` is read with `.get`, so it may be absent. */
  datatype Album = Album(name: string, releaseDate: Option<Json>)

  /** A Spotify track object: the fields read with `[...]` are always present, the ones
      read with `.get(...)` are `None` when absent. */
  datatype Track = Track(
    id: string, name: string, artists: seq<Artist>, album: Album,
    durationMs: int, explicit: bool, externalUrls: Object,
    previewUrl: Option<Json>, popularity: Option<Json>)

  /** A playlist item; `track` is `None` for some locally added files. */
  datatype PlaylistItem = PlaylistItem(track: Option<Track>)

  /** One CSV row. `audio` holds the feature columns, present only with features. */
  datatype Record = Record(
    title: string, artist: string, album: string, releaseDate: Json,
    durationMs: int, explicit: bool, trackUrl: Json, previewUrl: Json,
    popularity: Json, genres: Json, audio: Option<AudioFields>)

  /** The feature columns for `features`, or the `KeyError` the key or mode lookup raises
      (the key is looked up first). */
  function AudioFieldsOf(f: Features): (r: Result<AudioFields, LookupError>)
    ensures r.Success? <==> KeyNameOf(f.key).Some? && ModeNameOf(f.mode).Some?
    ensures KeyNameOf(f.key).None? ==> r == Failure(UnknownKey(f.key))
    ensures KeyNameOf(f.key).Some? && ModeNameOf(f.mode).None? ==> r == Failure(UnknownMode(f.mode))
    ensures r.Success? ==>
      && r.value.features == f
      && KeyNameOf(f.key) == Some(r.value.keyName)
      && ModeNameOf(f.mode) == Some(r.value.modeName)
      && (r.value.keyMode == "Unknown" <==> EqualsInt(f.key, -1) || EqualsInt(f.mode, -1))
      && (!EqualsInt(f.key, -1) && !EqualsInt(f.mode, -1) ==>
            r.value.keyMode == r.value.keyName + " " + r.value.modeName)
  {
    match KeyNameOf(f.key)
    case None => Failure(UnknownKey(f.key))
    case Some(keyName) =>
      match ModeNameOf(f.mode)
      case None => Failure(UnknownMode(f.mode))
      case Some(modeName) =>
        var keyMode := if !EqualsInt(f.key, -1) && !EqualsInt(f.mode, -1) then keyName + " " + modeName else "Unknown";
        assert Some(keyName) == KeyName(IntKey(f.key).value);
        assert !EqualsInt(f.key, -1) && !EqualsInt(f.mode, -1) ==> keyMode[|keyName|] == ' ';
        Success(AudioFields(f, keyName, modeName, keyMode))
  }

  /** `[artist["name"] for artist in track["artists"]]`. */
  function ArtistNames(artists: seq<Artist>): (names: seq<string>)
    ensures |names| == |artists|
    ensures forall i :: 0 <= i < |artists| ==> names[i] == artists[i].name
  {
    seq(|artists|, i requires 0 <= i < |artists| => artists[i].name)
  }

  /** The genres of the primary artist; `[]` without artists or when `sp.artist` raises. */
  function Genres(t: Track, artistInfo: string -> Option<Object>): (r: Json)
    ensures |t.artists| == 0 ==> r == JList([])
    ensures |t.artists| > 0 ==>
      var info := artistInfo(t.artists[0].id);
      && (info.None? ==> r == JList([]))
      && (info.Some? && "genres" in info.value ==> r == info.value["genres"])
      && (info.Some? && "genres" !in info.value ==> r == JList([]))
  {
    if |t.artists| > 0 then
      match artistInfo(t.artists[0].id)
      case None => JList([])
      case Some(info) => Get(info, "genres", JList([]))
    else JList([])
  }

  /** The record `get_track_metadata` builds for one track, given the features oracle
      (`get_track_features`, by track ID) and the artist oracle (`sp.artist`, by artist ID). */
  function TrackRecord(t: Track, features: string -> Option<Features>,
                       artistInfo: string -> Option<Object>): (r: Result<Record, LookupError>)
    ensures r.Failure? <==> features(t.id).Some? && AudioFieldsOf(features(t.id).value).Failure?
    ensures r.Failure? ==> Failure(r.error) == AudioFieldsOf(features(t.id).value)
  {
    var audio: Option<Result<AudioFields, LookupError>> :=
      match features(t.id)
      case None => None
      case Some(f) => Some(AudioFieldsOf(f));
    if audio.Some? && audio.value.Failure? then
      Failure(audio.value.error)
    else
      Success(Record(
        t.name, Join(ArtistNames(t.artists), ", "), t.album.name,
        t.album.releaseDate.GetOr(JStr("")), t.durationMs, t.explicit,
        Get(t.externalUrls, "spotify", JStr("")), t.previewUrl.GetOr(JStr("")),
        t.popularity.GetOr(JInt(0)), Genres(t, artistInfo),
        if audio.Some? then Some(audio.value.value) else None))
  }

  /** The columns of a track's record: the artist names joined by `", "`, the defaults of
      the fields read with `.get`, and the feature columns exactly when features exist. */
  lemma TrackRecordFields(t: Track, features: string -> Option<Features>,
                          artistInfo: string -> Option<Object>)
    requires TrackRecord(t, features, artistInfo).Success?
    ensures var r := TrackRecord(t, features, artistInfo);
      && r.value.title == t.name
      && r.value.artist == Join(ArtistNames(t.artists), ", ")
      && r.value.album == t.album.name
      && r.value.releaseDate == t.album.releaseDate.GetOr(JStr(""))
      && r.value.durationMs == t.durationMs
      && r.value.explicit == t.explicit
      && r.value.trackUrl == Get(t.externalUrls, "spotify", JStr(""))
      && r.value.previewUrl == t.previewUrl.GetOr(JStr(""))
      && r.value.popularity == t.popularity.GetOr(JInt(0))
      && r.value.genres == Genres(t, artistInfo)
      && (|t.artists| == 0 ==> r.value.genres == JList([]))
      && (r.value.audio.Some? <==> features(t.id).Some?)
      && (r.value.audio.Some? ==> AudioFieldsOf(features(t.id).value) == Success(r.value.audio.value))
  {
  }

  /** The tracks of the items whose `track` is not `None`, in order. */
  function Present(items: seq<PlaylistItem>): (tracks: seq<Track>)
    ensures |tracks| <= |items|
    decreases |items|
  {
    if |items| == 0 then []
    else
      var init := items[..|items| - 1];
      var rest := Present(init);
      match items[|items| - 1].track
      case None => rest
      case Some(t) => rest + [t]
  }

  /** A track is kept exactly when some item holds it. */
  lemma {:induction false} PresentMembers(items: seq<PlaylistItem>)
    ensures forall t :: t in Present(items) <==> exists i :: 0 <= i < |items| && items[i].track == Some(t)
    decreases |items|
  {
    if |items| > 0 {
      var init := items[..|items| - 1];
      PresentMembers(init);
      assert forall i :: 0 <= i < |init| ==> init[i] == items[i];
    }
  }

  /** Every track is kept when no item is `None`. */
  lemma {:induction false} PresentAllTracks(items: seq<PlaylistItem>)
    requires forall i :: 0 <= i < |items| ==> items[i].track.Some?
    ensures |Present(items)| == |items|
    ensures forall i :: 0 <= i < |items| ==> Present(items)[i] == items[i].track.value
    decreases |items|
  {
    if |items| > 0 {
      var init := items[..|items| - 1];
      PresentAllTracks(init);
    }
  }

  /** One more item adds its track when it has one and nothing when it is `None`; with no
      items there are no tracks. So `Present` keeps exactly one track per non-`None` item, in
      order. */
  lemma {:induction false} PresentStep(items: seq<PlaylistItem>, item: PlaylistItem)
    ensures Present([]) == []
    ensures Present(items + [item]) == Present(items) + (if item.track.Some? then [item.track.value] else [])
  {
    assert (items + [item])[..|items|] == items;
  }

  /** `get_track_metadata(sp, tracks, soundcharts_token)`: one record per item whose track
      is not `None`, in input order, or the first lookup error raised on the way. */
  method TrackMetadata(items: seq<PlaylistItem>, features: string -> Option<Features>,
                       artistInfo: string -> Option<Object>)
    returns (r: Result<seq<Record>, LookupError>)
    ensures r.Success? <==>
      forall k :: 0 <= k < |Present(items)| ==> TrackRecord(Present(items)[k], features, artistInfo).Success?
    ensures r.Success? ==>
      && |r.value| == |Present(items)|
      && forall k :: 0 <= k < |r.value| ==>
           TrackRecord(Present(items)[k], features, artistInfo) == Success(r.value[k])
    ensures r.Failure? ==>
      exists k :: 0 <= k < |Present(items)|
        && TrackRecord(Present(items)[k], features, artistInfo) == Failure(r.error)
        && forall j :: 0 <= j < k ==> TrackRecord(Present(items)[j], features, artistInfo).Success?
  {
    ghost var record := (t: Track) => TrackRecord(t, features, artistInfo);
    var metadata: seq<Record> := [];
    for i := 0 to |items|
      invariant |metadata| == |Present(items[..i])|
      invariant forall k :: 0 <= k < |metadata| ==> record(Present(items[..i])[k]) == Success(metadata[k])
    {
      assert items[..i + 1] == items[..i] + [items[i]];
      PresentStep(items[..i], items[i]);
      match items[i].track {
        case None =>
        case Some(track) =>
          var rec := TrackRecord(track, features, artistInfo);
          if rec.Failure? {
            FirstFailure(items, i, record, metadata);
            return Failure(rec.error);
          }
          metadata := metadata + [rec.value];
      }
    }
    assert items[..|items|] == items;
    return Success(metadata);
  }

  /** The loop of `get_track_metadata` stops at item `i` with the error of its track: that
      track is the first one, among all tracks kept, whose record fails. */
  lemma FirstFailure<R, E>(items: seq<PlaylistItem>, i: nat, record: Track -> Result<R, E>, done: seq<R>)
    requires i < |items| && items[i].track.Some? && record(items[i].track.value).Failure?
    requires |done| == |Present(items[..i])|
    requires forall k :: 0 <= k < |done| ==> record(Present(items[..i])[k]) == Success(done[k])
    ensures exists k ::
      && 0 <= k < |Present(items)|
      && record(Present(items)[k]) == Failure(record(items[i].track.value).error)
      && forall j :: 0 <= j < k ==> record(Present(items)[j]).Success?
  {
    var track := items[i].track.value;
    assert items[..i + 1] == items[..i] + [items[i]];
    PresentStep(items[..i], items[i]);
    PresentPrefix(items, i + 1);
    var k := |done|;
    var all := Present(items);
    assert all[..k + 1] == Present(items[..i]) + [track];
    assert all[k] == track;
    assert forall j :: 0 <= j < k ==> all[j] == Present(items[..i])[j];
  }

  /** The tracks of a prefix of the items are a prefix of the tracks. */
  lemma {:induction false} PresentPrefix(items: seq<PlaylistItem>, n: nat)
    requires n <= |items|
    ensures |Present(items[..n])| <= |Present(items)|
    ensures Present(items[..n]) == Present(items)[..|Present(items[..n])|]
    decreases |items|
  {
    if n < |items| {
      var init := items[..|items| - 1];
      assert init[..n] == items[..n];
      PresentPrefix(init, n);
      assert Present(items)[..|Present(init)|] == Present(init);
    } else {
      assert items[..n] == items;
    }
  }
}
