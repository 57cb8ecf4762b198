# librespot: keymaster token cache and audio item availability

This project models two pieces of decision logic from librespot, a Spotify client library.

- **Token cache** (`token.dfy`, module `Tokens`). A `TokenProvider` keeps an ordered cache of
  keymaster tokens. `GetToken` rejects an empty scope request. Otherwise it finds the first cached
  token whose scopes cover the request. It returns that token while it is unexpired. An expired one
  is removed by index and a new token is fetched. A fetch succeeds only on status 200 with a
  payload that decodes, and the new token is appended to the cache. A token expires ten seconds
  (`EXPIRY_THRESHOLD`) before its claimed lifetime ends.
- **Availability rules** (`audio_item.dfy`, module `AudioItems`). These rules decide whether a
  track or episode may be played, or why not. The reasons are `Embargo`, `NotWhitelisted` and
  `Blacklisted`. Inputs are the user's country and catalogue (default `"premium"`), the item's
  ordered catalogue-scoped restrictions, its availability start dates and a track's earliest live
  date.

`wrappers.dfy` holds the `Option` and `Result` types that both modules use.

Clocks are parameters: `Instant::now()` becomes `now: Instant` (nanoseconds) and `Date::now_utc()`
becomes `now: Date`. The keymaster's reply is also a parameter, a `Reply`. It is either a
transport error or a status code with payload elements, and each element is either UTF-8 text with
its JSON decoding outcome or non-UTF-8 bytes. `GetToken` returns `fetched`, which says whether the
request would have been sent. The session's user data becomes a plain `UserData` (country and
attributes).

The code's panics are preconditions rather than error results:
- the `Duration` subtraction in `is_expired` underflows when a lifetime is under ten seconds, so the
  token `get_token` checks must have at least that lifetime (`ExpiryCheckDefined`);
- `expect("No tokens received")` and `String::from_utf8(..).unwrap()` panic on a 200 reply with no
  payload or a non-UTF-8 first payload (`ReplyReadable`, required only when a fetch happens).

Behaviour of the code worth knowing, which the model keeps as it is:
- `is_expired` panics for a lifetime under ten seconds; it does not report such a token as expired.
- A 200 reply with no payload panics at `expect`; it is not reported as an error.
- Every failure of `get_token` (empty request, transport error, other status, payload that does not
  decode) is the same `MercuryError`.
- Only the *first* covering token is tried. When it is expired, it is evicted and a fetch follows,
  even if a later cached token covers the request and is still valid (`StaleFirstMatchForcesFetch`).
- A fetched token is returned and cached whatever scopes the keymaster granted. The code does not
  check that it covers the request, so `GetToken` promises coverage only for cache hits.

## Model

| member | source | states |
|---|---|---|
| `Tokens.NewToken` | core/src/token.rs:93-101 | Ok exactly when the payload decoded; the token copies `expires_in` (converted from seconds), the access token and the scope list unchanged, and is stamped with `now` |
| `Tokens.IsExpired` | core/src/token.rs:91-105 | expired iff what remains of the lifetime at `now` is under the 10-second threshold (strict `<`); defined only for lifetimes of at least 10 s, since the `Duration` subtraction panics otherwise |
| `Tokens.InScope` | core/src/token.rs:107-114 | the early-return scan is true iff the scope is one of the token's scopes |
| `Tokens.InScopes` | core/src/token.rs:116-123 | true iff every requested scope is granted by the token |
| `Tokens.FirstCovering` | core/src/token.rs:35-44 | `Some(i)` only for an in-range index whose token covers the request with no earlier covering token; `None` exactly when no cached token covers it |
| `Tokens.RemoveAt` | core/src/token.rs:54 | `Vec::remove(i)` drops exactly entry `i`; the entries before it keep their index, the ones after it shift down by one in the same order, and the multiset loses only that token |
| `Tokens.LookupStep` | core/src/token.rs:46-58 | the path taken: rejected iff the request is empty; a miss iff no token covers it; otherwise the first covering index, a hit when unexpired and an eviction when expired |
| `Tokens.Fetch` | core/src/token.rs:72-86 | a token only for status 200 whose first payload decodes, and then it is the token `Token::new` builds at `now`; a transport error, another status or a decode failure is `MercuryError` |
| `Tokens.TokenProvider.constructor` | core/src/token.rs:10-14 | the cache starts empty |
| `Tokens.TokenProvider.FindToken` | core/src/token.rs:35-44 | the indexed loop returns the first covering index, or `None` when there is none |
| `Tokens.TokenProvider.GetToken` | core/src/token.rs:46-87 | an empty request fails with no fetch and an unchanged cache; a hit returns that cached token unchanged with no fetch; an eviction removes exactly that entry and then fetches; a fetch appends the new token only on success and returns that token; a returned token is in the cache, and a hit also covers the request and is unexpired |
| `Tokens.EmptyRequestCoveredByAll` | core/src/token.rs:116-123 | every token covers the empty request, which is why `get_token` must reject it first |
| `Tokens.InScopesIgnoresOrder` | core/src/token.rs:116-123 | coverage depends only on which scopes are requested, not on order or repetition |
| `Tokens.InScopesSuperset` | core/src/token.rs:107-123 | a token with a superset of scopes covers every request a token with fewer scopes covers |
| `Tokens.ExpiryBoundary` | core/src/token.rs:103-105 | a token is unexpired at `timestamp + expires_in - 10s` and expired one nanosecond later (strict `<`) |
| `Tokens.ExpiryIsMonotone` | core/src/token.rs:103-105 | once expired, a token stays expired at every later instant |
| `Tokens.NewTokenUsable` | core/src/token.rs:91-123 | a token built from a payload of at least 10 seconds lifetime is unexpired at construction and covers any request drawn from its scopes |
| `Tokens.KeymasterPayloadExample` | core/src/token.rs:93-123 | the payload (3600 s, "abc", ["a","b"]) covers ["a"] and ["a","b"], not ["c"], and is unexpired when built |
| `Tokens.StaleFirstMatchForcesFetch` | core/src/token.rs:51-58 | with an expired covering token before a valid covering one, the lookup evicts index 0 instead of using the valid one |
| `Tokens.FetchThenReuse` | core/src/token.rs:46-87 | from an empty cache, one fetch caches exactly the returned token; a second request before expiry returns the same token without a fetch |
| `AudioItems.UserCatalogue` | metadata/src/audio/item.rs:91-94 | the user's "catalogue" attribute when present, otherwise "premium" |
| `AudioItems.Verdict` | metadata/src/audio/item.rs:102-122 | a restriction with an allow list never blacklists and refuses only a country missing from it; one without an allow list refuses only a country on its forbid list; neither gives `Embargo` |
| `AudioItems.AllowedForUser` | metadata/src/audio/item.rs:89-126 | restriction checks never produce `Embargo` |
| `AudioItems.FirstGoverningDecides` | metadata/src/audio/item.rs:89-122 | the first restriction that names the user's catalogue and has a list decides: with an allow list Ok iff the country is on it, else `NotWhitelisted`; with only a forbid list `Blacklisted` iff the country is on it, else Ok |
| `AudioItems.NoGoverningAllows` | metadata/src/audio/item.rs:89-125 | when no restriction names the user's catalogue with a list (including an empty list of restrictions) the result is Ok |
| `AudioItems.RefusalHasCause` | metadata/src/audio/item.rs:96-122 | every refusal comes from the first governing restriction's verdict |
| `AudioItems.AnyStarted` | metadata/src/audio/item.rs:134-136 | true iff some availability window's start is at or before `now` |
| `AudioItems.Available` | metadata/src/audio/item.rs:128-142 | only Ok or `Embargo`; `Embargo` iff the list is non-empty and every start is after `now` |
| `AudioItems.AvailableForUser` | metadata/src/audio/item.rs:144-152 | Ok iff both checks are Ok; `Embargo` exactly when the windows embargo the item, taking precedence over restriction verdicts; otherwise the restriction verdict |
| `AudioItems.ItemAvailability` | metadata/src/audio/item.rs:74-86 | a track before its earliest live date is under `Embargo` whatever its restrictions; later tracks and all episodes get the `available_for_user` verdict on their own windows and restrictions |
| `AudioItems.ItemPlayable` | metadata/src/audio/item.rs:74-152 | an item is playable iff any track release date has passed, some window has started or there are none, and the restrictions allow it |
| `AudioItems.AudioItem.Id` | metadata/src/audio/item.rs:35-40 | the id of the wrapped track or episode |
| `AudioItems.AudioItem.Name` | metadata/src/audio/item.rs:46-51 | the name of the wrapped track or episode |
| `AudioItems.AudioItem.Duration` | metadata/src/audio/item.rs:53-58 | the duration of the wrapped track or episode |
| `AudioItems.AudioItem.IsExplicit` | metadata/src/audio/item.rs:60-65 | the explicit flag of the wrapped track or episode |
| `AudioItems.AudioItem.Files` | metadata/src/audio/item.rs:67-72 | a track's files, or an episode's `audio` |
| `AudioItems.TrackAccessors` | metadata/src/audio/item.rs:35-72 | `id`, `name`, `duration`, `is_explicit` and `files` of a track item are the track's fields |
| `AudioItems.EpisodeAccessors` | metadata/src/audio/item.rs:35-72 | the same accessors of an episode item are the episode's fields, with `files` being its `audio` |

## Left out

- Concurrency: the source takes the cache lock separately for the search, the read, the removal
  and the append. Concurrent callers can therefore see a stale index or fetch twice. The model has
  one sequential caller.
- The keymaster request itself: the query URI (scopes joined by commas, the fixed client id and
  the session's device id) and the async Mercury call. The reply is a parameter instead.
- JSON decoding with serde and UTF-8 decoding are library calls. Their outcome is part of the
  `Payload` parameter.
- Clocks are parameters. `Instant` overflow in `timestamp + duration` is not modelled.
- `GetToken`: one call uses one clock reading, `now`, both for the expiry check and for the new
  token's timestamp. The source reads the clock again after the awaited fetch, so a fetched token
  is stamped earlier here than in the source, by the fetch latency.
- Logging (`trace!`) is left out.
- `AudioItem::get_file` is left out: it fetches a track or episode over the network and rejects
  other item types.
- `AudioItem::spotify_uri` is left out: it converts the id with an external function.
- Track, episode, file and id types carry only the fields these rules read. Availability windows
  keep only their start date.
