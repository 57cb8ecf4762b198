/**
 * The keymaster token cache (core/src/token.rs).
 *
 * A `Token` is an immutable bearer credential with the scopes it grants and the moment it was
 * received; a `TokenProvider` owns an ordered cache of them. `get_token` serves a request from
 * the first cached token whose scopes cover it, evicts that token when it has expired, and
 * otherwise asks the keymaster service for a new one.
 *
 * The clock (`Instant::now`) and the keymaster's reply are parameters, which makes the
 * provider a deterministic sequential state machine.
 */
module Tokens {
  import opened Wrappers

  /** `std::time` counts instants and durations in nanoseconds. */
  const NANOS_PER_SEC: nat := 1_000_000_000

  /** `Token::EXPIRY_THRESHOLD`: a token is treated as expired ten seconds before its lifetime ends. */
  const EXPIRY_THRESHOLD: nat := 10 * NANOS_PER_SEC

  /** The status code of a successful keymaster reply. */
  const STATUS_OK: int := 200

  newtype u64 = x: int | 0 <= x < 0x1_0000_0000_0000_0000

  /** A monotonic instant, in nanoseconds from an arbitrary origin. */
  type Instant = int

  /** The decoded wire payload `{ "expiresIn": .., "accessToken": .., "scope": [..] }`. */
  datatype TokenData = TokenData(expiresIn: u64, accessToken: string, scope: seq<string>)

  /** `expiresIn` is a `Duration` in nanoseconds; `timestamp` is when the token was built. */
  datatype Token = Token(expiresIn: nat, accessToken: string, scopes: seq<string>, timestamp: Instant)

  datatype ParseError = ParseError

  /** The one error `get_token` reports, whatever went wrong. */
  datatype MercuryError = MercuryError

  /** One payload element of a reply: either UTF-8 text, with the outcome of decoding it as
      JSON token data, or bytes that are not UTF-8. */
  datatype Payload = Utf8(decoded: Option<TokenData>) | NotUtf8

  datatype Response = Response(statusCode: int, payload: seq<Payload>)

  /** What the keymaster request would produce if it were sent: a transport failure (the `?` on
      the awaited request) or a response. */
  datatype Reply = TransportError | Answered(response: Response)

  /** `Token::new`: builds a token from the decoded payload and stamps it with `now`;
      a payload that did not decode is a parse error. */
  function NewToken(body: Option<TokenData>, now: Instant): (r: Result<Token, ParseError>)
    ensures r.Ok? <==> body.Some?
    ensures r.Ok? ==> r.value.expiresIn == body.value.expiresIn as nat * NANOS_PER_SEC
    ensures r.Ok? ==> r.value.accessToken == body.value.accessToken && r.value.scopes == body.value.scope
    ensures r.Ok? ==> r.value.timestamp == now
  {
    match body
    case None => Err(ParseError)
    case Some(data) => Ok(Token(data.expiresIn as nat * NANOS_PER_SEC, data.accessToken, data.scope, now))
  }

  /** `Token::is_expired`. Subtracting the threshold from a shorter `Duration` panics, so the
      lifetime must be at least the threshold. */
  function IsExpired(t: Token, now: Instant): (r: bool)
    requires t.expiresIn >= EXPIRY_THRESHOLD
    ensures r <==> t.timestamp + t.expiresIn - now < EXPIRY_THRESHOLD
  {
    t.timestamp + (t.expiresIn - EXPIRY_THRESHOLD) < now
  }

  /** `Token::in_scope`: scans the granted scopes and stops at the first equal one. */
  function InScope(t: Token, scope: string): (r: bool)
    ensures r <==> scope in t.scopes
    decreases |t.scopes|
  {
    if t.scopes == [] then false
    else if t.scopes[0] == scope then true
    else InScope(t.(scopes := t.scopes[1..]), scope)
  }

  /** `Token::in_scopes`: checks the requested scopes in order and stops at the first one the
      token does not grant. */
  function InScopes(t: Token, requested: seq<string>): (r: bool)
    ensures r <==> forall s :: s in requested ==> s in t.scopes
  {
    if requested == [] then true
    else if !InScope(t, requested[0]) then false
    else InScopes(t, requested[1..])
  }

  /** The index `find_token` reports: the first cached token covering the request. */
  function FirstCovering(cache: seq<Token>, scopes: seq<string>): (r: Option<nat>)
    ensures r.Some? ==> r.value < |cache| && InScopes(cache[r.value], scopes)
    ensures r.Some? ==> forall j :: 0 <= j < r.value ==> !InScopes(cache[j], scopes)
    ensures r.None? <==> forall j :: 0 <= j < |cache| ==> !InScopes(cache[j], scopes)
  {
    if cache == [] then None
    else if InScopes(cache[0], scopes) then Some(0)
    else match FirstCovering(cache[1..], scopes)
      case None => None
      case Some(i) => Some(i + 1)
  }

  /** The cache after `Vec::remove(i)`: entry `i` is gone and the others keep their order. */
  function RemoveAt(cache: seq<Token>, i: nat): (r: seq<Token>)
    requires i < |cache|
    ensures |r| == |cache| - 1
    ensures forall j :: 0 <= j < i ==> r[j] == cache[j]
    ensures forall j :: i <= j < |r| ==> r[j] == cache[j + 1]
    ensures multiset(r) + multiset{cache[i]} == multiset(cache)
  {
    assert cache == cache[..i] + [cache[i]] + cache[i + 1..];
    cache[..i] + cache[i + 1..]
  }

  /** `get_token` would panic on the expiry check unless the token it finds has a lifetime of at
      least the threshold (nothing is looked up for an empty request). */
  predicate ExpiryCheckDefined(cache: seq<Token>, scopes: seq<string>)
  {
    scopes == [] ||
    match FirstCovering(cache, scopes)
    case None => true
    case Some(i) => cache[i].expiresIn >= EXPIRY_THRESHOLD
  }

  /** The path a `get_token` call takes before any request is sent. */
  datatype Lookup = Rejected | Hit(index: nat) | Evict(index: nat) | Miss
  {
    predicate Fetches() { Evict? || Miss? }
  }

  /** Which path `get_token` takes: an empty request is rejected; an unexpired first covering
      token is a hit; an expired one is evicted; no covering token is a miss. */
  function LookupStep(cache: seq<Token>, scopes: seq<string>, now: Instant): (s: Lookup)
    requires ExpiryCheckDefined(cache, scopes)
    ensures s.Rejected? <==> scopes == []
    ensures s.Miss? <==> scopes != [] && FirstCovering(cache, scopes).None?
    ensures (s.Hit? || s.Evict?) ==> FirstCovering(cache, scopes) == Some(s.index) && s.index < |cache|
    ensures s.Hit? ==> !IsExpired(cache[s.index], now)
    ensures s.Evict? ==> IsExpired(cache[s.index], now)
  {
    if scopes == [] then Rejected
    else match FirstCovering(cache, scopes)
      case None => Miss
      case Some(i) => if IsExpired(cache[i], now) then Evict(i) else Hit(i)
  }

  /** The reply can be read without a panic: a 200 response carries at least one payload
      element (`expect("No tokens received")`) and the first one is UTF-8 (`unwrap`). */
  predicate ReplyReadable(reply: Reply)
  {
    reply.Answered? && reply.response.statusCode == STATUS_OK ==>
      |reply.response.payload| > 0 && reply.response.payload[0].Utf8?
  }

  /** The outcome of the keymaster request: a token only on status 200 with a payload that
      decodes, every other outcome is `MercuryError`. */
  function Fetch(reply: Reply, now: Instant): (r: Result<Token, MercuryError>)
    requires ReplyReadable(reply)
    ensures r.Ok? <==> reply.Answered? && reply.response.statusCode == STATUS_OK
                       && reply.response.payload[0].decoded.Some?
    ensures r.Ok? ==> Ok(r.value) == NewToken(reply.response.payload[0].decoded, now)
  {
    match reply
    case TransportError => Err(MercuryError)
    case Answered(response) =>
      if response.statusCode == STATUS_OK then
        match NewToken(response.payload[0].decoded, now)
        case Ok(token) => Ok(token)
        case Err(_) => Err(MercuryError)
      else Err(MercuryError)
  }

  /** `TokenProvider`: the owner of the token cache. Each call runs alone: the source takes the
      lock separately for the search, the removal and the append. */
  class TokenProvider {
    var tokens: seq<Token>

    constructor ()
      ensures tokens == []
    {
      tokens := [];
    }

    /** `find_token`: the index of the first cached token covering the request. */
    method FindToken(scopes: seq<string>) returns (index: Option<nat>)
      ensures index == FirstCovering(tokens, scopes)
    {
      for i := 0 to |tokens|
        invariant forall j :: 0 <= j < i ==> !InScopes(tokens[j], scopes)
      {
        if InScopes(tokens[i], scopes) {
          return Some(i);
        }
      }
      return None;
    }

    /** `get_token`. `now` is the clock reading and `reply` what the keymaster answers if asked;
        `fetched` tells whether the request was sent. */
    method GetToken(scopes: seq<string>, now: Instant, reply: Reply)
      returns (r: Result<Token, MercuryError>, fetched: bool)
      requires ExpiryCheckDefined(tokens, scopes)
      requires LookupStep(tokens, scopes, now).Fetches() ==> ReplyReadable(reply)
      modifies this
      ensures match LookupStep(old(tokens), scopes, now)
        case Rejected => r == Err(MercuryError) && !fetched && tokens == old(tokens)
        case Hit(i) => r == Ok(old(tokens)[i]) && !fetched && tokens == old(tokens)
        case Evict(i) =>
          fetched && r == Fetch(reply, now) &&
          tokens == RemoveAt(old(tokens), i) + (if r.Ok? then [r.value] else [])
        case Miss =>
          fetched && r == Fetch(reply, now) &&
          tokens == old(tokens) + (if r.Ok? then [r.value] else [])
      ensures r.Ok? ==> r.value in tokens
      ensures r.Ok? && !fetched ==> InScopes(r.value, scopes) && !IsExpired(r.value, now)
      ensures |old(tokens)| - 1 <= |tokens| <= |old(tokens)| + 1
    {
      if |scopes| == 0 {
        return Err(MercuryError), false;
      }

      var index := FindToken(scopes);
      if index.Some? {
        var cached := tokens[index.value];
        if IsExpired(cached, now) {
          tokens := RemoveAt(tokens, index.value);
        } else {
          return Ok(cached), false;
        }
      }

      fetched := true;
      if reply.TransportError? {
        return Err(MercuryError), fetched;
      }
      var response := reply.response;
      if response.statusCode == STATUS_OK {
        var data := response.payload[0];
        var parsed := NewToken(data.decoded, now);
        if parsed.Err? {
          return Err(MercuryError), fetched;
        }
        var token := parsed.value;
        tokens := tokens + [token];
        r := Ok(token);
      } else {
        r := Err(MercuryError);
      }
    }
  }

  /** Requesting nothing is always vacuously covered; that is why `get_token` rejects it
      before looking at the cache. */
  lemma EmptyRequestCoveredByAll(t: Token)
    ensures InScopes(t, [])
  {
  }

  /** Coverage depends on which scopes are requested, not on their order or repetition. */
  lemma InScopesIgnoresOrder(t: Token, a: seq<string>, b: seq<string>)
    requires forall s :: s in a <==> s in b
    ensures InScopes(t, a) == InScopes(t, b)
  {
  }

  /** A token granting a superset of another's scopes covers every request the other covers. */
  lemma InScopesSuperset(t: Token, u: Token, requested: seq<string>)
    requires forall s :: s in t.scopes ==> s in u.scopes
    ensures InScopes(t, requested) ==> InScopes(u, requested)
  {
  }

  /** The last instant at which a token is still usable, and the strict comparison: it is not
      expired at that instant and expired one nanosecond later. */
  lemma ExpiryBoundary(t: Token)
    requires t.expiresIn >= EXPIRY_THRESHOLD
    ensures !IsExpired(t, t.timestamp + t.expiresIn - EXPIRY_THRESHOLD)
    ensures IsExpired(t, t.timestamp + t.expiresIn - EXPIRY_THRESHOLD + 1)
  {
  }

  /** Once expired, a token stays expired. */
  lemma ExpiryIsMonotone(t: Token, earlier: Instant, later: Instant)
    requires t.expiresIn >= EXPIRY_THRESHOLD
    requires earlier <= later
    ensures IsExpired(t, earlier) ==> IsExpired(t, later)
  {
  }

  /** A token built from a payload whose lifetime is at least the threshold is usable at once
      and covers every request drawn from the scopes it was issued with. */
  lemma NewTokenUsable(data: TokenData, now: Instant, requested: seq<string>)
    requires data.expiresIn >= 10
    requires forall s :: s in requested ==> s in data.scope
    ensures NewToken(Some(data), now).Ok?
    ensures var t := NewToken(Some(data), now).value;
      t.expiresIn >= EXPIRY_THRESHOLD && !IsExpired(t, now) && InScopes(t, requested)
  {
  }

  /** The payload `{"expiresIn":3600,"accessToken":"abc","scope":["a","b"]}` gives a token that
      covers ["a"] and ["a","b"], not ["c"], and is not expired when it is built. */
  lemma KeymasterPayloadExample(now: Instant)
    ensures var t := NewToken(Some(TokenData(3600, "abc", ["a", "b"])), now).value;
      InScopes(t, ["a"]) && InScopes(t, ["a", "b"]) && !InScopes(t, ["c"]) && !IsExpired(t, now)
  {
  }

  /** No second match is tried: when the first covering token is expired, `get_token` evicts it
      and fetches even though a later cached token covers the request and is still valid. */
  lemma StaleFirstMatchForcesFetch(stale: Token, valid: Token, scopes: seq<string>, now: Instant)
    requires scopes != []
    requires InScopes(stale, scopes) && InScopes(valid, scopes)
    requires stale.expiresIn >= EXPIRY_THRESHOLD && valid.expiresIn >= EXPIRY_THRESHOLD
    requires IsExpired(stale, now) && !IsExpired(valid, now)
    ensures ExpiryCheckDefined([stale, valid], scopes)
    ensures LookupStep([stale, valid], scopes, now) == Evict(0)
  {
  }

  /** From an empty cache, a request for ["playback"] fetches once and caches exactly the token
      it returns; the same request before expiry is then served from the cache without a fetch. */
  method FetchThenReuse(t0: Instant, t1: Instant)
    returns (first: Result<Token, MercuryError>, second: Result<Token, MercuryError>,
             fetchedFirst: bool, fetchedSecond: bool, cached: seq<Token>)
    requires t0 <= t1 <= t0 + 3590 * NANOS_PER_SEC
    ensures first.Ok? && fetchedFirst && cached == [first.value]
    ensures second == first && !fetchedSecond
  {
    var provider := new TokenProvider();
    var reply := Answered(Response(STATUS_OK, [Utf8(Some(TokenData(3600, "secret", ["playback"])))]));
    first, fetchedFirst := provider.GetToken(["playback"], t0, reply);
    cached := provider.tokens;
    second, fetchedSecond := provider.GetToken(["playback"], t1, TransportError);
  }
}
