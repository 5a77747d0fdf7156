/** backend/soundcloud_meta.py: checking a playlist link, collecting a playlist's tracks
    across pages, and shaping SoundCloud track objects into metadata records. */
module SoundCloudMeta {
  import opened Wrappers
  import opened Json
  import opened Text

  // ================================================================ playlist link

  const InvalidUrlMessage :=
    "Invalid SoundCloud URL. Please provide a valid SoundCloud playlist link."

  /** `get_playlist_id_from_url(playlist_url)`, with `parsed = urlparse(playlist_url)` given:
      the path of a link whose host mentions `soundcloud.com`, else a `ValueError`. */
  function PlaylistPathFromUrl(parsed: ParsedUrl): (r: Result<string, string>)
    ensures r.Success? <==> Contains(parsed.netloc, "soundcloud.com")
    ensures r.Success? ==> r.value == parsed.path
    ensures r.Failure? ==> r.error == InvalidUrlMessage
  {
    if !Contains(parsed.netloc, "soundcloud.com") then Failure(InvalidUrlMessage)
    else Success(parsed.path)
  }

  // ================================================================ client_id suffix

  /** The link with `client_id=<id>` added as a query parameter: after `&` when the link
      already has a query (`?`), else after `?`. */
  function WithClientId(url: string, clientId: string): (r: string)
    ensures IsPrefix(url, r)
    ensures r[|url|..] == [if '?' in url then '&' else '?'] + "client_id=" + clientId
    ensures '?' in r
  {
    var r := url + (if '?' in url then "&" else "?") + "client_id=" + clientId;
    assert r[|url|] == if '?' in url then '&' else '?';
    r
  }

  /** Once a link carries a query, further parameters are appended with `&`. */
  lemma WithClientIdTwice(url: string, first: string, second: string)
    ensures WithClientId(WithClientId(url, first), second)
         == WithClientId(url, first) + "&client_id=" + second
  {
  }

  // ================================================================ pagination

  /** A SoundCloud track object, as decoded JSON. */
  type Track = Object

  /** The fields of the resolved playlist that `get_playlist_tracks` reads; `None` stands
      for an absent key or a JSON null. */
  datatype PlaylistData = PlaylistData(
    tracks: Option<seq<Track>>, tracksUri: Option<string>, nextHref: Option<string>)

  /** A decoded page: its `collection` and its `next_href`. */
  datatype Page = Page(collection: seq<Track>, nextHref: Option<string>)

  /** `raise_for_status()` (or a response without `collection`) on the given link, or the
      page bound of the model being reached. */
  datatype FetchError = HttpError(url: string) | PageLimitReached

  /** Python truthiness of an optional link: present and not empty. */
  predicate IsSet(href: Option<string>) {
    href.Some? && href.value != ""
  }

  /** `"tracks" in playlist_data and playlist_data["tracks"]`. */
  predicate HasInlineTracks(data: PlaylistData) {
    data.tracks.Some? && data.tracks.value != []
  }

  /** The track list before pagination: the inline tracks when there are any, else the
      `collection` fetched from `tracks_uri` (with the client ID added), else nothing. */
  function InitialTracks(clientId: string, data: PlaylistData, fetch: string -> Option<Page>)
    : (r: Result<seq<Track>, FetchError>)
    ensures HasInlineTracks(data) ==> r == Success(data.tracks.value)
    ensures !HasInlineTracks(data) && !IsSet(data.tracksUri) ==> r == Success([])
    ensures !HasInlineTracks(data) && IsSet(data.tracksUri) ==>
      var url := WithClientId(data.tracksUri.value, clientId);
      && (r.Failure? <==> fetch(url).None?)
      && (r.Success? ==> r.value == fetch(url).value.collection)
    ensures r.Failure? ==>
      && !HasInlineTracks(data) && IsSet(data.tracksUri)
      && r.error == HttpError(WithClientId(data.tracksUri.value, clientId))
      && fetch(r.error.url).None?
  {
    if HasInlineTracks(data) then Success(data.tracks.value)
    else if IsSet(data.tracksUri) then
      var url := WithClientId(data.tracksUri.value, clientId);
      match fetch(url)
      case None => Failure(HttpError(url))
      case Some(page) => Success(page.collection)
    else Success([])
  }

  /** The pages the `while next_href` loop fetches, starting from `href`, with at most
      `fuel` requests (the chain they form is `FollowPagesChain`). */
  function FollowPages(clientId: string, href: Option<string>, fetch: string -> Option<Page>, fuel: nat)
    : (r: Result<seq<Page>, FetchError>)
    ensures r.Success? ==> |r.value| <= fuel
    ensures r.Failure? && r.error.HttpError? ==> fetch(r.error.url).None?
    decreases fuel
  {
    if !IsSet(href) then Success([])
    else if fuel == 0 then Failure(PageLimitReached)
    else
      var url := WithClientId(href.value, clientId);
      match fetch(url)
      case None => Failure(HttpError(url))
      case Some(page) => Prepend([page], FollowPages(clientId, page.nextHref, fetch, fuel - 1))
  }

  /** `visited` followed by the pages of `r`, or the failure of `r`. */
  function Prepend(visited: seq<Page>, r: Result<seq<Page>, FetchError>): Result<seq<Page>, FetchError> {
    match r
    case Failure(e) => Failure(e)
    case Success(pages) => Success(visited + pages)
  }

  /** One pass of the pagination loop: the page fetched from `href`, then those reached
      from its `next_href`. */
  lemma FollowPagesStep(clientId: string, href: Option<string>, fetch: string -> Option<Page>, fuel: nat, page: Page)
    requires IsSet(href) && fuel > 0 && fetch(WithClientId(href.value, clientId)) == Some(page)
    ensures FollowPages(clientId, href, fetch, fuel)
         == Prepend([page], FollowPages(clientId, page.nextHref, fetch, fuel - 1))
  {
  }

  /** On success the pages form a chain: none when `href` is unset; otherwise the first is
      the page fetched from `href`, each later one the page fetched from its predecessor's
      `next_href`, and the last has no `next_href`. */
  lemma {:induction false} FollowPagesChain(clientId: string, href: Option<string>, fetch: string -> Option<Page>, fuel: nat)
    requires FollowPages(clientId, href, fetch, fuel).Success?
    ensures var pages := FollowPages(clientId, href, fetch, fuel).value;
      && (pages == [] <==> !IsSet(href))
      && (pages != [] ==>
            && fetch(WithClientId(href.value, clientId)) == Some(pages[0])
            && !IsSet(Last(pages).nextHref))
      && (forall k :: 0 <= k < |pages| - 1 ==>
            IsSet(pages[k].nextHref)
            && fetch(WithClientId(pages[k].nextHref.value, clientId)) == Some(pages[k + 1]))
    decreases fuel
  {
    if IsSet(href) {
      var page := fetch(WithClientId(href.value, clientId)).value;
      var tail := FollowPages(clientId, page.nextHref, fetch, fuel - 1);
      FollowPagesChain(clientId, page.nextHref, fetch, fuel - 1);
      var pages := [page] + tail.value;
      assert FollowPages(clientId, href, fetch, fuel).value == pages;
      assert forall k :: 1 <= k < |pages| ==> pages[k] == tail.value[k - 1];
      if tail.value == [] {
        assert pages == [page];
      } else {
        assert Last(pages) == Last(tail.value);
      }
    }
  }

  /** The tracks of the pages, page after page (what the repeated `tracks.extend` adds). */
  function Collections(pages: seq<Page>): seq<Track>
    decreases |pages|
  {
    if |pages| == 0 then [] else pages[0].collection + Collections(pages[1..])
  }

  /** No pages add nothing, and one more page adds its collection at the end. */
  lemma {:induction false} CollectionsSnoc(pages: seq<Page>, page: Page)
    ensures Collections([]) == []
    ensures Collections(pages + [page]) == Collections(pages) + page.collection
    decreases |pages|
  {
    if |pages| == 0 {
      assert pages + [page] == [page];
      assert [page][1..] == [];
    } else {
      assert (pages + [page])[1..] == pages[1..] + [page];
      CollectionsSnoc(pages[1..], page);
    }
  }

  /** What `get_playlist_tracks` returns: the initial tracks followed by the collections of
      the pages reached from the playlist's own `next_href`. */
  function AllTracks(clientId: string, data: PlaylistData, fetch: string -> Option<Page>, fuel: nat)
    : (r: Result<seq<Track>, FetchError>)
    ensures r.Failure? <==>
      InitialTracks(clientId, data, fetch).Failure? || FollowPages(clientId, data.nextHref, fetch, fuel).Failure?
    ensures r.Success? ==> InitialTracks(clientId, data, fetch).value <= r.value
    ensures r.Success? ==>
      r.value == InitialTracks(clientId, data, fetch).value + Collections(FollowPages(clientId, data.nextHref, fetch, fuel).value)
  {
    match InitialTracks(clientId, data, fetch)
    case Failure(e) => Failure(e)
    case Success(initial) => Gather(initial, FollowPages(clientId, data.nextHref, fetch, fuel))
  }

  /** The initial tracks extended by the collections of the pages, or the failure met. */
  function Gather(initial: seq<Track>, pages: Result<seq<Page>, FetchError>): Result<seq<Track>, FetchError> {
    match pages
    case Failure(e) => Failure(e)
    case Success(ps) => Success(initial + Collections(ps))
  }

  /** `get_playlist_tracks(client_id, playlist_data)`, over the page oracle `fetch` (the
      decoded response to a GET on a link, `None` where `raise_for_status` raises), making
      at most `maxPages` pagination requests. */
  method PlaylistTracks(clientId: string, data: PlaylistData, fetch: string -> Option<Page>, maxPages: nat)
    returns (r: Result<seq<Track>, FetchError>)
    ensures r == AllTracks(clientId, data, fetch, maxPages)
  {
    ghost var goal := AllTracks(clientId, data, fetch, maxPages);
    var start := InitialTracks(clientId, data, fetch);
    if start.Failure? {
      return Failure(start.error);
    }
    var tracks := start.value;
    var nextHref := data.nextHref;
    var fuel := maxPages;
    while IsSet(nextHref)
      invariant goal == Gather(tracks, FollowPages(clientId, nextHref, fetch, fuel))
      decreases fuel
    {
      if fuel == 0 {
        GatherEnd(clientId, nextHref, fetch, fuel, tracks, goal);
        return Failure(PageLimitReached);
      }
      var url := WithClientId(nextHref.value, clientId);
      var response := fetch(url);
      if response.None? {
        GatherEnd(clientId, nextHref, fetch, fuel, tracks, goal);
        return Failure(HttpError(url));
      }
      var page := response.value;
      GatherStep(clientId, nextHref, fetch, fuel, page, tracks, goal);
      tracks := tracks + page.collection;
      nextHref := page.nextHref;
      fuel := fuel - 1;
    }
    GatherEnd(clientId, nextHref, fetch, fuel, tracks, goal);
    return Success(tracks);
  }

  /** How the pagination loop ends: with the tracks gathered when there is no `next_href`,
      or with the failure met at the next request. */
  lemma GatherEnd(clientId: string, href: Option<string>, fetch: string -> Option<Page>, fuel: nat,
                  tracks: seq<Track>, goal: Result<seq<Track>, FetchError>)
    requires goal == Gather(tracks, FollowPages(clientId, href, fetch, fuel))
    ensures !IsSet(href) ==> goal == Success(tracks)
    ensures IsSet(href) && fuel == 0 ==> goal == Failure(PageLimitReached)
    ensures IsSet(href) && fuel > 0 && fetch(WithClientId(href.value, clientId)).None? ==>
      goal == Failure(HttpError(WithClientId(href.value, clientId)))
  {
    assert tracks + Collections([]) == tracks;
  }

  /** One pass of the pagination loop: the fetched page's collection joins the tracks, and
      gathering continues from its `next_href`. */
  lemma GatherStep(clientId: string, href: Option<string>, fetch: string -> Option<Page>, fuel: nat,
                   page: Page, tracks: seq<Track>, goal: Result<seq<Track>, FetchError>)
    requires IsSet(href) && fuel > 0 && fetch(WithClientId(href.value, clientId)) == Some(page)
    requires goal == Gather(tracks, FollowPages(clientId, href, fetch, fuel))
    ensures goal == Gather(tracks + page.collection, FollowPages(clientId, page.nextHref, fetch, fuel - 1))
  {
    FollowPagesStep(clientId, href, fetch, fuel, page);
    var rest := FollowPages(clientId, page.nextHref, fetch, fuel - 1);
    if rest.Success? {
      assert ([page] + rest.value)[1..] == rest.value;
      assert tracks + (page.collection + Collections(rest.value)) == (tracks + page.collection) + Collections(rest.value);
    }
  }

  /** Non-empty inline tracks take priority: `tracks_uri` is then never consulted. */
  lemma InlineTracksTakePriority(clientId: string, data: PlaylistData, otherUri: Option<string>,
                                 fetch: string -> Option<Page>, fuel: nat)
    requires HasInlineTracks(data)
    ensures AllTracks(clientId, data, fetch, fuel) == AllTracks(clientId, data.(tracksUri := otherUri), fetch, fuel)
    ensures AllTracks(clientId, data, fetch, fuel).Success? ==>
      data.tracks.value <= AllTracks(clientId, data, fetch, fuel).value
  {
    var r := AllTracks(clientId, data, fetch, fuel);
    if r.Success? {
      var pages := FollowPages(clientId, data.nextHref, fetch, fuel).value;
      assert r.value == data.tracks.value + Collections(pages);
      assert r.value[..|data.tracks.value|] == data.tracks.value;
    }
  }

  /** Without a `next_href` on the playlist nothing is fetched after the initial tracks;
      as written, a `next_href` on the page fetched from `tracks_uri` is not followed. */
  lemma NoPaginationWithoutNextHref(clientId: string, data: PlaylistData, fetch: string -> Option<Page>, fuel: nat)
    requires !IsSet(data.nextHref)
    ensures AllTracks(clientId, data, fetch, fuel) == InitialTracks(clientId, data, fetch)
  {
    assert Collections([]) == [];
    match InitialTracks(clientId, data, fetch)
    case Failure(_) =>
    case Success(initial) => assert initial + [] == initial;
  }

  // ================================================================ track records

  /** A track that only carries its ID and must be fetched in full. */
  predicate NeedsFetch(t: Track) {
    "title" !in t && "id" in t
  }

  /** The track a loop iteration works on, given the oracle `fetchTrack` (the decoded body
      of `GET /tracks/<id>` when the status is 200, else `None`): the fetched object for an
      ID-only track, the track itself otherwise, `None` when the iteration is skipped. */
  function Resolve(t: Track, fetchTrack: Json -> Option<Track>): (r: Option<Track>)
    ensures r.None? <==> NeedsFetch(t) && fetchTrack(t["id"]).None?
    ensures NeedsFetch(t) ==> r == fetchTrack(t["id"])
    ensures !NeedsFetch(t) ==> r == Some(t)
  {
    if NeedsFetch(t) then fetchTrack(t["id"]) else Some(t)
  }

  /** The tracks that are not skipped, in order. */
  function Resolved(tracks: seq<Track>, fetchTrack: Json -> Option<Track>): (rs: seq<Track>)
    ensures |rs| <= |tracks|
    decreases |tracks|
  {
    if |tracks| == 0 then []
    else
      var rest := Resolved(tracks[..|tracks| - 1], fetchTrack);
      match Resolve(Last(tracks), fetchTrack)
      case None => rest
      case Some(t) => rest + [t]
  }

  /** Tracks that need no fetch are all kept, unchanged and in order. */
  lemma {:induction false} ResolvedKeepsCompleteTracks(tracks: seq<Track>, fetchTrack: Json -> Option<Track>)
    requires forall i :: 0 <= i < |tracks| ==> !NeedsFetch(tracks[i])
    ensures Resolved(tracks, fetchTrack) == tracks
    decreases |tracks|
  {
    if |tracks| > 0 {
      ResolvedKeepsCompleteTracks(tracks[..|tracks| - 1], fetchTrack);
      assert tracks[..|tracks| - 1] + [Last(tracks)] == tracks;
    }
  }

  /** Resolving distributes over concatenation: each track is resolved on its own. */
  lemma {:induction false} ResolvedAppend(xs: seq<Track>, ys: seq<Track>, fetchTrack: Json -> Option<Track>)
    ensures Resolved(xs + ys, fetchTrack) == Resolved(xs, fetchTrack) + Resolved(ys, fetchTrack)
    decreases |ys|
  {
    if |ys| == 0 {
      assert xs + ys == xs;
    } else {
      var init := ys[..|ys| - 1];
      ResolvedAppend(xs, init, fetchTrack);
      assert (xs + ys)[..|xs + ys| - 1] == xs + init;
      assert Last(xs + ys) == Last(ys);
      match Resolve(Last(ys), fetchTrack)
      case None =>
      case Some(t) =>
        assert Resolved(xs, fetchTrack) + Resolved(init, fetchTrack) + [t]
            == Resolved(xs, fetchTrack) + (Resolved(init, fetchTrack) + [t]);
    }
  }

  lemma ResolvedStep(tracks: seq<Track>, fetchTrack: Json -> Option<Track>, i: nat)
    requires i < |tracks|
    ensures Resolved(tracks[..i + 1], fetchTrack) ==
      match Resolve(tracks[i], fetchTrack)
      case None => Resolved(tracks[..i], fetchTrack)
      case Some(t) => Resolved(tracks[..i], fetchTrack) + [t]
  {
    assert tracks[..i + 1][..i] == tracks[..i];
  }

  /** Once a record has failed, the tracks after it change nothing. */
  lemma TrackMetadataFailureStays<R, E>(tracks: seq<Track>, fetchTrack: Json -> Option<Track>, n: nat,
                                       record: Track -> Result<R, E>)
    requires n <= |tracks| && MapResults(Resolved(tracks[..n], fetchTrack), record).Failure?
    ensures MapResults(Resolved(tracks, fetchTrack), record) == MapResults(Resolved(tracks[..n], fetchTrack), record)
  {
    assert tracks[..n] + tracks[n..] == tracks;
    ResolvedAppend(tracks[..n], tracks[n..], fetchTrack);
    MapResultsFailureStays(Resolved(tracks[..n], fetchTrack), Resolved(tracks[n..], fetchTrack), record);
  }

  /** One pass of the record loop: a skipped track adds nothing, a resolved one adds its
      record, and a failing one ends the loop with its error. */
  lemma TrackMetadataStep<R, E>(tracks: seq<Track>, fetchTrack: Json -> Option<Track>, i: nat,
                                record: Track -> Result<R, E>, metadata: seq<R>)
    requires i < |tracks| && MapResults(Resolved(tracks[..i], fetchTrack), record) == Success(metadata)
    ensures var t := Resolve(tracks[i], fetchTrack);
      && (t.None? ==> MapResults(Resolved(tracks[..i + 1], fetchTrack), record) == Success(metadata))
      && (t.Some? && record(t.value).Success? ==>
            MapResults(Resolved(tracks[..i + 1], fetchTrack), record) == Success(metadata + [record(t.value).value]))
      && (t.Some? && record(t.value).Failure? ==>
            MapResults(Resolved(tracks, fetchTrack), record) == Failure(record(t.value).error))
  {
    ResolvedStep(tracks, fetchTrack, i);
    var t := Resolve(tracks[i], fetchTrack);
    if t.Some? {
      MapResultsSnoc(Resolved(tracks[..i], fetchTrack), t.value, record);
      if record(t.value).Failure? {
        TrackMetadataFailureStays(tracks, fetchTrack, i + 1, record);
      }
    }
  }

  /** What building a record can raise: `AttributeError` when `.get` is applied to a value
      that is not a dict, `TypeError` when the duration is not a number. */
  datatype TrackError = NotAnObject(field: string) | NotANumber(field: string)

  /** `track.get("user", {})`, which must be a dict for the `.get` calls that follow. */
  function UserOf(t: Track): (r: Result<Object, TrackError>)
    ensures r.Failure? <==> "user" in t && !t["user"].JObj?
    ensures r.Success? && "user" in t ==> t["user"] == JObj(r.value)
    ensures "user" !in t ==> r == Success(map[])
  {
    if "user" !in t then Success(map[])
    else
      match t["user"]
      case JObj(user) => Success(user)
      case _ => Failure(NotAnObject("user"))
  }

  /** The publisher metadata when `"publisher_metadata" in track and track["publisher_metadata"]`. */
  function PublisherOf(t: Track): (r: Result<Option<Object>, TrackError>)
    ensures r.Failure? <==>
      "publisher_metadata" in t && Truthy(t["publisher_metadata"]) && !t["publisher_metadata"].JObj?
    ensures r.Success? && r.value.Some? <==>
      "publisher_metadata" in t && t["publisher_metadata"].JObj? && t["publisher_metadata"].fields != map[]
    ensures r.Success? && r.value.Some? ==> t["publisher_metadata"] == JObj(r.value.value)
  {
    if "publisher_metadata" in t && Truthy(t["publisher_metadata"]) then
      match t["publisher_metadata"]
      case JObj(pub) => Success(Some(pub))
      case _ => Failure(NotAnObject("publisher_metadata"))
    else Success(None)
  }

  /** `track.get("duration", 0) / 1000`: true division, defined on numbers and booleans
      (the rounding to two decimals is not modelled). */
  function DurationSeconds(v: Json): (r: Result<Json, TrackError>)
    ensures r.Success? <==> v.JInt? || v.JReal? || v.JBool?
    ensures v.JInt? ==> r == Success(JReal(v.i as real / 1000.0))
    ensures v.JReal? ==> r == Success(JReal(v.r / 1000.0))
    ensures r.Failure? ==> r.error == NotANumber("duration")
  {
    match v
    case JInt(i) => Success(JReal(i as real / 1000.0))
    case JReal(x) => Success(JReal(x / 1000.0))
    case JBool(b) => Success(JReal(if b then 1.0 / 1000.0 else 0.0))
    case _ => Failure(NotANumber("duration"))
  }

  /** A boolean duration divides as Python's bool does, as the integer 0 or 1. */
  lemma BoolDurationAsInt(b: bool)
    ensures DurationSeconds(JBool(b)) == DurationSeconds(JInt(if b then 1 else 0))
  {
  }

  // ---------------------------------------------------------------- field rules

  /** Where a field of the record is read from. */
  datatype Source = FromTrack | FromUser | FromPublisher

  /** `"<key>": <source>.get("<sourceKey>", <default>)`, one entry of a dict literal. */
  datatype FieldRule = FieldRule(key: string, source: Source, sourceKey: string, default: Json)

  /** The entries of the `track_data` literal, in order (the rounded `duration` is apart). */
  function BaseRules(): seq<FieldRule> {
    [
      FieldRule("title", FromTrack, "title", JStr("Unknown")),
      FieldRule("artist", FromUser, "username", JStr("Unknown")),
      FieldRule("artist_permalink", FromUser, "permalink", JStr("")),
      FieldRule("duration_ms", FromTrack, "duration", JInt(0)),
      FieldRule("permalink_url", FromTrack, "permalink_url", JStr("")),
      FieldRule("created_at", FromTrack, "created_at", JStr("")),
      FieldRule("description", FromTrack, "description", JStr("")),
      FieldRule("genre", FromTrack, "genre", JStr("")),
      FieldRule("tag_list", FromTrack, "tag_list", JStr("")),
      FieldRule("playback_count", FromTrack, "playback_count", JInt(0)),
      FieldRule("likes_count", FromTrack, "likes_count", JInt(0)),
      FieldRule("reposts_count", FromTrack, "reposts_count", JInt(0)),
      FieldRule("comment_count", FromTrack, "comment_count", JInt(0)),
      FieldRule("download_count", FromTrack, "download_count", JInt(0)),
      FieldRule("stream_url", FromTrack, "stream_url", JStr("")),
      FieldRule("waveform_url", FromTrack, "waveform_url", JStr("")),
      FieldRule("artwork_url", FromTrack, "artwork_url", JStr("")),
      FieldRule("downloadable", FromTrack, "downloadable", JBool(false)),
      FieldRule("streamable", FromTrack, "streamable", JBool(false)),
      FieldRule("bpm", FromTrack, "bpm", JNull),
      FieldRule("key_signature", FromTrack, "key_signature", JNull)
    ]
  }

  /** The entries `track_data.update(...)` adds from the publisher metadata. */
  function PublisherRules(): (rules: seq<FieldRule>)
    ensures |rules| == 6
    ensures forall i :: 0 <= i < |rules| ==> rules[i].source == FromPublisher && rules[i].sourceKey == rules[i].key
  {
    [
      FieldRule("isrc", FromPublisher, "isrc", JStr("")),
      FieldRule("p_line", FromPublisher, "p_line", JStr("")),
      FieldRule("c_line", FromPublisher, "c_line", JStr("")),
      FieldRule("release_title", FromPublisher, "release_title", JStr("")),
      FieldRule("explicit", FromPublisher, "explicit", JBool(false)),
      FieldRule("upc_or_ean", FromPublisher, "upc_or_ean", JStr(""))
    ]
  }

  /** The value one entry reads: the source's value under the key, else the default. */
  function RuleValue(rule: FieldRule, t: Track, user: Object, pub: Object): Json {
    var from := match rule.source
      case FromTrack => t
      case FromUser => user
      case FromPublisher => pub;
    Get(from, rule.sourceKey, rule.default)
  }

  /** The dict a literal with these entries builds (a later entry wins over an earlier one
      with the same key, as in Python). */
  function Fields(rules: seq<FieldRule>, t: Track, user: Object, pub: Object): Object
    decreases |rules|
  {
    if |rules| == 0 then map[]
    else
      var rule := Last(rules);
      Fields(rules[..|rules| - 1], t, user, pub)[rule.key := RuleValue(rule, t, user, pub)]
  }

  function RuleKeys(rules: seq<FieldRule>): set<string> {
    set i | 0 <= i < |rules| :: rules[i].key
  }

  predicate DistinctKeys(rules: seq<FieldRule>) {
    forall i, j :: 0 <= i < j < |rules| ==> rules[i].key != rules[j].key
  }

  /** The dict has exactly the keys of its entries. */
  lemma {:induction false} FieldsKeys(rules: seq<FieldRule>, t: Track, user: Object, pub: Object)
    ensures Fields(rules, t, user, pub).Keys == RuleKeys(rules)
    decreases |rules|
  {
    if |rules| > 0 {
      var init := rules[..|rules| - 1];
      FieldsKeys(init, t, user, pub);
      assert RuleKeys(rules) == RuleKeys(init) + {Last(rules).key} by {
        forall k | k in RuleKeys(rules) ensures k in RuleKeys(init) + {Last(rules).key} {
          var i :| 0 <= i < |rules| && rules[i].key == k;
          if i < |rules| - 1 { assert init[i] == rules[i]; }
        }
        forall k | k in RuleKeys(init) ensures k in RuleKeys(rules) {
          var i :| 0 <= i < |init| && init[i].key == k;
          assert rules[i] == init[i];
        }
      }
    }
  }

  /** Every entry's key is in `m` and maps to the value that entry reads. */
  predicate FollowsRules(m: Object, rules: seq<FieldRule>, t: Track, user: Object, pub: Object) {
    forall i :: 0 <= i < |rules| ==> rules[i].key in m && m[rules[i].key] == RuleValue(rules[i], t, user, pub)
  }

  /** With distinct keys, the dict a literal builds follows all its entries. */
  lemma {:induction false} FieldsFollowRules(rules: seq<FieldRule>, t: Track, user: Object, pub: Object)
    requires DistinctKeys(rules)
    ensures FollowsRules(Fields(rules, t, user, pub), rules, t, user, pub)
    decreases |rules|
  {
    if |rules| > 0 {
      var init := rules[..|rules| - 1];
      FieldsFollowRules(init, t, user, pub);
      forall i | 0 <= i < |rules| - 1 ensures init[i] == rules[i] && rules[i].key != Last(rules).key {
      }
    }
  }

  /** Setting a key that no entry names keeps the entries followed. */
  lemma FollowsRulesUpdate(m: Object, rules: seq<FieldRule>, t: Track, user: Object, pub: Object, k: string, v: Json)
    requires FollowsRules(m, rules, t, user, pub) && k !in RuleKeys(rules)
    ensures FollowsRules(m[k := v], rules, t, user, pub)
  {
    forall i | 0 <= i < |rules| ensures rules[i].key != k {
      assert rules[i].key in RuleKeys(rules);
    }
  }

  /** Merging in a dict whose keys no entry names keeps the entries followed. */
  lemma FollowsRulesMergeLeft(m: Object, extra: Object, rules: seq<FieldRule>, t: Track, user: Object, pub: Object)
    requires FollowsRules(m, rules, t, user, pub) && RuleKeys(rules) !! extra.Keys
    ensures FollowsRules(m + extra, rules, t, user, pub)
  {
    forall i | 0 <= i < |rules| ensures rules[i].key !in extra {
      assert rules[i].key in RuleKeys(rules);
    }
  }

  /** The entries of the merged-in dict stay followed. */
  lemma FollowsRulesMergeRight(m: Object, extra: Object, rules: seq<FieldRule>, t: Track, user: Object, pub: Object)
    requires FollowsRules(extra, rules, t, user, pub)
    ensures FollowsRules(m + extra, rules, t, user, pub)
  {
  }

  lemma BaseRulesDistinct()
    ensures DistinctKeys(BaseRules())
  {
    var rules := BaseRules();
    forall i | 0 <= i < |rules| ensures forall j :: i < j < |rules| ==> rules[i].key != rules[j].key {
    }
  }

  lemma PublisherRulesDistinct()
    ensures DistinctKeys(PublisherRules())
  {
  }

  /** `duration` is not among the base entries and the publisher entries add keys of
      their own, so neither overwrites a base field. */
  lemma RuleKeysApart()
    ensures "duration" !in RuleKeys(BaseRules())
    ensures RuleKeys(BaseRules()) !! RuleKeys(PublisherRules())
  {
  }

  // ---------------------------------------------------------------- one record

  /** The record built for one (resolved) track: the base entries and the duration in
      seconds, plus the publisher entries when the track has truthy publisher metadata; an
      error when `user` or the publisher metadata is there but is not a dict, or when the
      duration is not a number. */
  function TrackRecord(t: Track): (r: Result<Object, TrackError>)
    ensures r.Failure? <==>
      UserOf(t).Failure? || DurationSeconds(Get(t, "duration", JInt(0))).Failure? || PublisherOf(t).Failure?
    ensures r.Failure? ==>
      r.error == (if UserOf(t).Failure? then UserOf(t).error
                  else if DurationSeconds(Get(t, "duration", JInt(0))).Failure? then NotANumber("duration")
                  else PublisherOf(t).error)
  {
    match UserOf(t)
    case Failure(e) => Failure(e)
    case Success(user) =>
      match DurationSeconds(Get(t, "duration", JInt(0)))
      case Failure(e) => Failure(e)
      case Success(seconds) =>
        var base := Fields(BaseRules(), t, user, map[])["duration" := seconds];
        match PublisherOf(t)
        case Failure(e) => Failure(e)
        case Success(None) => Success(base)
        case Success(Some(pub)) => Success(base + Fields(PublisherRules(), t, user, pub))
  }

  /** A record holds exactly the keys of the base entries and `duration`, plus the
      publisher keys exactly when the track has publisher metadata. */
  lemma TrackRecordKeys(t: Track)
    requires TrackRecord(t).Success?
    ensures TrackRecord(t).value.Keys
         == RuleKeys(BaseRules()) + {"duration"}
            + (if PublisherOf(t).value.Some? then RuleKeys(PublisherRules()) else {})
  {
    var user := UserOf(t).value;
    FieldsKeys(BaseRules(), t, user, map[]);
    match PublisherOf(t).value
    case None =>
    case Some(pub) => FieldsKeys(PublisherRules(), t, user, pub);
  }

  /** Every base field of a record is what its entry reads: the track's (or user's) value
      under the source key, else the entry's default; `duration` is the duration in
      seconds. */
  lemma TrackRecordFields(t: Track)
    requires TrackRecord(t).Success?
    ensures FollowsRules(TrackRecord(t).value, BaseRules(), t, UserOf(t).value, map[])
    ensures "duration" in TrackRecord(t).value
    ensures TrackRecord(t).value["duration"] == DurationSeconds(Get(t, "duration", JInt(0))).value
  {
    var user := UserOf(t).value;
    var seconds := DurationSeconds(Get(t, "duration", JInt(0))).value;
    var fields := Fields(BaseRules(), t, user, map[]);
    BaseRulesDistinct();
    RuleKeysApart();
    FieldsFollowRules(BaseRules(), t, user, map[]);
    FollowsRulesUpdate(fields, BaseRules(), t, user, map[], "duration", seconds);
    if PublisherOf(t).value.Some? {
      var extra := Fields(PublisherRules(), t, user, PublisherOf(t).value.value);
      FieldsKeys(PublisherRules(), t, user, PublisherOf(t).value.value);
      FollowsRulesMergeLeft(fields["duration" := seconds], extra, BaseRules(), t, user, map[]);
    }
  }

  /** With publisher metadata, every publisher field is read from it with its default. */
  lemma TrackRecordPublisherFields(t: Track)
    requires TrackRecord(t).Success? && PublisherOf(t).value.Some?
    ensures FollowsRules(TrackRecord(t).value, PublisherRules(), t, UserOf(t).value, PublisherOf(t).value.value)
  {
    var user := UserOf(t).value;
    var pub := PublisherOf(t).value.value;
    PublisherRulesDistinct();
    FieldsFollowRules(PublisherRules(), t, user, pub);
    var base := Fields(BaseRules(), t, user, map[])["duration" := DurationSeconds(Get(t, "duration", JInt(0))).value];
    FollowsRulesMergeRight(base, Fields(PublisherRules(), t, user, pub), PublisherRules(), t, user, pub);
  }

  /** Concretely, for any dict that follows the base entries: a missing title or username
      reads `Unknown`, a missing play count is 0, a missing BPM is null, and present values
      are copied unchanged. */
  lemma BaseDefaults(m: Object, t: Track, user: Object)
    requires FollowsRules(m, BaseRules(), t, user, map[])
    ensures "title" in m && m["title"] == (if "title" in t then t["title"] else JStr("Unknown"))
    ensures "artist" in m && m["artist"] == (if "username" in user then user["username"] else JStr("Unknown"))
    ensures "playback_count" in m
    ensures m["playback_count"] == (if "playback_count" in t then t["playback_count"] else JInt(0))
    ensures "bpm" in m && m["bpm"] == (if "bpm" in t then t["bpm"] else JNull)
  {
    var rules := BaseRules();
    assert rules[0] == FieldRule("title", FromTrack, "title", JStr("Unknown"));
    assert rules[1] == FieldRule("artist", FromUser, "username", JStr("Unknown"));
    assert rules[9] == FieldRule("playback_count", FromTrack, "playback_count", JInt(0));
    assert rules[19] == FieldRule("bpm", FromTrack, "bpm", JNull);
  }

  /** A track without `user` gets the artist `Unknown`. */
  lemma MissingUserGivesUnknownArtist(t: Track)
    requires TrackRecord(t).Success? && "user" !in t
    ensures "artist" in TrackRecord(t).value && TrackRecord(t).value["artist"] == JStr("Unknown")
  {
    TrackRecordFields(t);
    BaseDefaults(TrackRecord(t).value, t, UserOf(t).value);
  }

  /** `get_track_metadata(client_id, tracks)`: one record per track that is not skipped, in
      order, or the first error raised on the way (`MapResultsMeaning` spells this out). */
  method TrackMetadata(tracks: seq<Track>, fetchTrack: Json -> Option<Track>)
    returns (r: Result<seq<Object>, TrackError>)
    ensures r == MapResults(Resolved(tracks, fetchTrack), TrackRecord)
    ensures r.Success? ==> |r.value| == |Resolved(tracks, fetchTrack)|
  {
    var metadata: seq<Object> := [];
    for i := 0 to |tracks|
      invariant MapResults(Resolved(tracks[..i], fetchTrack), TrackRecord) == Success(metadata)
    {
      TrackMetadataStep(tracks, fetchTrack, i, TrackRecord, metadata);
      var track := tracks[i];
      if "title" !in track && "id" in track {
        var fetched := fetchTrack(track["id"]);
        if fetched.None? {
          continue;
        }
        track := fetched.value;
      }
      var rec := TrackRecord(track);
      if rec.Failure? {
        return Failure(rec.error);
      }
      metadata := metadata + [rec.value];
    }
    assert tracks[..|tracks|] == tracks;
    return Success(metadata);
  }
}
