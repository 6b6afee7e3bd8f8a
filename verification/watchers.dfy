/** The per-device watcher: its guarded start, its stop, the debounced
    state-change callback, and the request it posts to the ingestion
    endpoint. */
module Watchers {
  import opened Options
  import opened Text
  import opened Devices

  /** A latitude or longitude. The watcher only ever compares coordinates for
      equality, so their floating-point nature plays no part. */
  type Coord = int

  /** A (latitude, longitude) pair. */
  type Pair = (Coord, Coord)

  /** The host's handle for a state-change subscription on the listed entities. */
  datatype Handle = Handle(entities: seq<string>)

  datatype Watcher = Watcher(
    name: string,
    entityId: Option<string>,
    key: Option<string>,
    serverUrl: Option<string>,
    enabled: bool,
    unsub: Option<Handle>,
    lastSent: Option<Pair>)

  /** Builds a stopped watcher from a device record. */
  function NewWatcher(d: Device): (w: Watcher)
    ensures d.name.None? ==> w.name == "Unknown"
    ensures d.name.Some? ==> w.name == d.name.value
    ensures w.entityId == d.entityId && w.key == d.key && w.serverUrl == d.serverUrl
    ensures w.enabled <==> d.enabled != Some(false)
    ensures w.unsub.None? && w.lastSent.None?
  {
    Watcher(d.name.GetOr("Unknown"), d.entityId, d.key, d.serverUrl,
            d.enabled.GetOr(true), None, None)
  }

  /** The watcher is enabled and its entity id, key and server URL are all
      truthy: the condition under which starting subscribes. */
  predicate Ready(w: Watcher) {
    w.enabled && Truthy(w.entityId) && Truthy(w.key) && Truthy(w.serverUrl)
  }

  /** Starting: a disabled or incompletely configured watcher is left as it
      is; otherwise it subscribes to its one entity and keeps the handle,
      replacing any handle it already held without cancelling it. */
  function Start(w: Watcher): (r: Watcher)
    ensures !Ready(w) ==> r == w
    ensures Ready(w) ==> r.unsub == Some(Handle([w.entityId.value]))
    ensures r.(unsub := w.unsub) == w
  {
    if !w.enabled then w
    else if !Truthy(w.entityId) || !Truthy(w.key) || !Truthy(w.serverUrl) then w
    else w.(unsub := Some(Handle([w.entityId.value])))
  }

  /** Starting a freshly built watcher subscribes exactly when its device is
      not disabled and has a non-empty entity id, key and server URL. */
  lemma StartFromDevice(d: Device)
    ensures Start(NewWatcher(d)).unsub.Some?
        <==> d.enabled != Some(false) && Truthy(d.entityId) && Truthy(d.key) && Truthy(d.serverUrl)
    ensures Start(NewWatcher(d)).unsub.Some? ==> Start(NewWatcher(d)).unsub.value.entities == [d.entityId.value]
  {
  }

  /** Stopping: cancels the held handle, if any, and forgets it. Returns the
      watcher and the handle that was cancelled. */
  function Stop(w: Watcher): (r: (Watcher, Option<Handle>))
    ensures r.0.unsub.None?
    ensures r.0.(unsub := w.unsub) == w
    ensures r.1 == w.unsub
  {
    if w.unsub.Some? then (w.(unsub := None), w.unsub) else (w, None)
  }

  /** Stopping twice cancels nothing the second time and changes nothing more. */
  lemma StopIdempotent(w: Watcher)
    ensures Stop(Stop(w).0) == (Stop(w).0, None)
  {
  }

  /** Starting and then stopping a freshly built watcher gives it back. */
  lemma StartStopRestores(d: Device)
    ensures Stop(Start(NewWatcher(d))).0 == NewWatcher(d)
  {
  }

  /** The new state an event carries: its latitude and longitude attributes,
      each `None` when missing or `None`. */
  datatype State = State(latitude: Option<Coord>, longitude: Option<Coord>)

  /** A state-change event, with the clock reading (whole seconds) taken when
      the callback runs. */
  datatype Event = Event(newState: Option<State>, ts: int)

  /** The coordinate pair an event reports, if it has a new state with both
      coordinates. */
  function Position(e: Event): (p: Option<Pair>)
    ensures p.Some? <==> e.newState.Some? && e.newState.value.latitude.Some? && e.newState.value.longitude.Some?
    ensures p.Some? ==> p.value == (e.newState.value.latitude.value, e.newState.value.longitude.value)
  {
    match e.newState
    case None => None
    case Some(s) =>
      if s.latitude.None? || s.longitude.None? then None
      else Some((s.latitude.value, s.longitude.value))
  }

  /** A post scheduled by the callback. */
  datatype Post = Post(lat: Coord, lon: Coord, ts: int)

  function PairOf(p: Post): Pair {
    (p.lat, p.lon)
  }

  /** The state-change callback. An event without a position, or whose
      position equals the last one sent, is ignored; otherwise the position
      becomes the last one sent and exactly one post of it is scheduled. */
  function StateChanged(w: Watcher, e: Event): (r: (Watcher, Option<Post>))
    ensures r.1.Some? <==> Position(e).Some? && Position(e) != w.lastSent
    ensures r.1.None? ==> r.0 == w
    ensures r.1.Some? ==> PairOf(r.1.value) == Position(e).value && r.1.value.ts == e.ts
    ensures r.1.Some? ==> r.0.lastSent == Position(e)
    ensures r.0.(lastSent := w.lastSent) == w
  {
    match e.newState
    case None => (w, None)
    case Some(s) =>
      if s.latitude.None? || s.longitude.None? then (w, None)
      else
        var pair := (s.latitude.value, s.longitude.value);
        if w.lastSent == Some(pair) then (w, None)
        else (w.(lastSent := Some(pair)), Some(Post(pair.0, pair.1, e.ts)))
  }

  /** Delivering the same event a second time posts nothing. */
  lemma StateChangedSettles(w: Watcher, e: Event)
    ensures StateChanged(StateChanged(w, e).0, e) == (StateChanged(w, e).0, None)
  {
  }

  function OptionToSeq<T>(o: Option<T>): (s: seq<T>)
    ensures |s| <= 1
    ensures o.Some? ==> s == [o.value]
    ensures o.None? ==> s == []
  {
    if o.Some? then [o.value] else []
  }

  /** No post repeats the pair sent before it, starting from `prev`. */
  ghost predicate FreshFrom(prev: Option<Pair>, posts: seq<Post>)
    decreases |posts|
  {
    posts == [] || (Some(PairOf(posts[0])) != prev && FreshFrom(Some(PairOf(posts[0])), posts[1..]))
  }

  /** The last pair sent after `posts`, starting from `prev`. */
  function LastPair(prev: Option<Pair>, posts: seq<Post>): Option<Pair> {
    if posts == [] then prev else Some(PairOf(posts[|posts| - 1]))
  }

  /** The posts a debounce starting from `prev` lets through: each event's
      position, with that event's clock reading, when the event has a
      position and it differs from the last position let through (or from
      `prev` before any). */
  function Debounced(prev: Option<Pair>, events: seq<Event>): seq<Post>
    decreases |events|
  {
    if events == [] then []
    else
      var p := Position(events[0]);
      if p.Some? && p != prev then [Post(p.value.0, p.value.1, events[0].ts)] + Debounced(p, events[1..])
      else Debounced(prev, events[1..])
  }

  /** Runs the callback on each event in turn, collecting the posts. */
  function Feed(w: Watcher, events: seq<Event>): (r: (Watcher, seq<Post>))
    ensures r.1 == Debounced(w.lastSent, events)
    ensures r.0.(lastSent := w.lastSent) == w
    ensures |r.1| <= |events|
    ensures FreshFrom(w.lastSent, r.1)
    ensures r.0.lastSent == LastPair(w.lastSent, r.1)
    decreases |events|
  {
    if events == [] then (w, [])
    else
      var (w1, p) := StateChanged(w, events[0]);
      var (w2, ps) := Feed(w1, events[1..]);
      var posts := OptionToSeq(p) + ps;
      assert p.Some? ==> posts[0] == p.value && posts[1..] == ps && w1.lastSent == Some(PairOf(p.value));
      assert p.None? ==> posts == ps && w1 == w;
      (w2, posts)
  }

  /** Fresh posts never send the same pair twice in a row. */
  lemma {:induction false} FreshNoConsecutiveRepeats(prev: Option<Pair>, posts: seq<Post>)
    requires FreshFrom(prev, posts)
    ensures posts != [] ==> Some(PairOf(posts[0])) != prev
    ensures forall i :: 0 < i < |posts| ==> PairOf(posts[i - 1]) != PairOf(posts[i])
    decreases |posts|
  {
    if posts != [] {
      FreshNoConsecutiveRepeats(Some(PairOf(posts[0])), posts[1..]);
      forall i | 1 < i < |posts|
        ensures PairOf(posts[i - 1]) != PairOf(posts[i])
      {
        assert posts[i - 1] == posts[1..][i - 2] && posts[i] == posts[1..][i - 1];
      }
    }
  }

  /** Over any event sequence the scheduled posts never carry the same pair
      twice in a row, and the first differs from the pair last sent before. */
  lemma FeedNoConsecutiveRepeats(w: Watcher, events: seq<Event>)
    ensures var posts := Feed(w, events).1;
      && (posts != [] ==> Some(PairOf(posts[0])) != w.lastSent)
      && forall i :: 0 < i < |posts| ==> PairOf(posts[i - 1]) != PairOf(posts[i])
  {
    FreshNoConsecutiveRepeats(w.lastSent, Feed(w, events).1);
  }

  /** Events that all report the same position `p` (or none) schedule at most
      one post, and none at all when `p` was the last pair sent. */
  lemma {:induction false} SamePositionPostsOnce(w: Watcher, events: seq<Event>, p: Pair)
    requires forall i :: 0 <= i < |events| ==> Position(events[i]).None? || Position(events[i]) == Some(p)
    ensures |Feed(w, events).1| <= 1
    ensures w.lastSent == Some(p) ==> Feed(w, events).1 == []
    decreases |events|
  {
    if events != [] {
      var w1 := StateChanged(w, events[0]).0;
      assert w1.lastSent == w.lastSent || w1.lastSent == Some(p);
      SamePositionPostsOnce(w1, events[1..], p);
    }
  }

  /** The endpoint a watcher posts to: the server URL with every trailing
      slash removed, followed by the ingestion path. */
  function IngestUrl(serverUrl: string): (url: string)
    ensures |url| >= |IngestPath| && url[|url| - |IngestPath|..] == IngestPath
    ensures var base := url[..|url| - |IngestPath|];
      && base <= serverUrl
      && (forall k :: |base| <= k < |serverUrl| ==> serverUrl[k] == '/')
      && (base == [] || base[|base| - 1] != '/')
  {
    var base := RStripSlashes(serverUrl);
    ConcatSplits(base, IngestPath);
    base + IngestPath
  }

  lemma ConcatSplits(a: string, b: string)
    ensures |a + b| - |b| == |a|
    ensures (a + b)[..|a|] == a && (a + b)[|a|..] == b
  {
  }

  /** `n` slash characters. */
  function Slashes(n: nat): (s: string)
    ensures |s| == n && forall k :: 0 <= k < n ==> s[k] == '/'
  {
    if n == 0 then [] else Slashes(n - 1) + ['/']
  }

  /** Extra trailing slashes on the server URL do not change the endpoint. */
  lemma {:induction false} TrailingSlashesIgnored(serverUrl: string, n: nat)
    ensures IngestUrl(serverUrl + Slashes(n)) == IngestUrl(serverUrl)
  {
    if n > 0 {
      TrailingSlashesIgnored(serverUrl, n - 1);
      var s := serverUrl + Slashes(n - 1);
      assert serverUrl + Slashes(n) == s + "/";
      RStripSlashesAppend(s);
    } else {
      assert serverUrl + Slashes(n) == serverUrl;
    }
  }

  /** A server URL that does not end in a slash is used as it is. */
  lemma PlainUrlKept(serverUrl: string)
    requires serverUrl == [] || serverUrl[|serverUrl| - 1] != '/'
    ensures IngestUrl(serverUrl) == serverUrl + IngestPath
  {
  }

  /** A JSON value in the posted body. */
  datatype Value = Str(s: string) | Number(n: Coord) | Integer(i: int) | Null

  function OptionalStr(s: Option<string>): Value {
    if s.Some? then Str(s.value) else Null
  }

  const PayloadKeys: set<string> := {"key", "lat", "lon", "ts", "name", "entity_id"}

  /** The JSON body posted for a post of `w`. */
  function Payload(w: Watcher, p: Post): (body: map<string, Value>)
    ensures body.Keys == PayloadKeys
    ensures body["key"] == OptionalStr(w.key) && body["entity_id"] == OptionalStr(w.entityId)
    ensures body["name"] == Str(w.name)
  {
    map["key" := OptionalStr(w.key), "lat" := Number(p.lat), "lon" := Number(p.lon),
        "ts" := Integer(p.ts), "name" := Str(w.name), "entity_id" := OptionalStr(w.entityId)]
  }

  /** What the ingestion endpoint reads back from a body: the position and
      the timestamp. */
  function ReadPost(body: map<string, Value>): Option<Post> {
    if "lat" in body && "lon" in body && "ts" in body
       && body["lat"].Number? && body["lon"].Number? && body["ts"].Integer?
    then Some(Post(body["lat"].n, body["lon"].n, body["ts"].i))
    else None
  }

  /** The body carries the post's position and timestamp unchanged. */
  lemma PayloadRoundTrip(w: Watcher, p: Post)
    ensures ReadPost(Payload(w, p)) == Some(p)
  {
  }

  datatype Request = Request(url: string, body: map<string, Value>)

  /** The request a post turns into; `None` when the watcher has no server
      URL, where building the URL would raise before anything is sent. */
  function Outbound(w: Watcher, p: Post): (r: Option<Request>)
    ensures r.Some? <==> w.serverUrl.Some?
    ensures r.Some? ==> r.value.url == IngestUrl(w.serverUrl.value) && r.value.body == Payload(w, p)
  {
    if w.serverUrl.None? then None
    else Some(Request(IngestUrl(w.serverUrl.value), Payload(w, p)))
  }

  /** Every post of a watcher that could start becomes a request to its
      endpoint carrying that post. */
  lemma ReadyWatcherSends(w: Watcher, p: Post)
    requires Ready(w)
    ensures Outbound(w, p).Some?
    ensures ReadPost(Outbound(w, p).value.body) == Some(p)
  {
  }
}
