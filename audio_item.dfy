/**
 * Playability rules for tracks and episodes (metadata/src/audio/item.rs).
 *
 * An item is unavailable under an embargo (not yet released), when the user's country is missing
 * from the allow list of the first restriction that governs the user's catalogue, or when it is on
 * that restriction's forbid list. The current date and the user's session data are parameters.
 */
module AudioItems {
  import opened Wrappers

  /** The catalogue assumed for a user whose attributes do not name one. */
  const DEFAULT_CATALOGUE: string := "premium"

  newtype i32 = x: int | -0x8000_0000 <= x < 0x8000_0000

  /** A calendar date-time, as a timestamp. */
  type Date = int

  datatype SpotifyId = SpotifyId(id: nat)

  /** The encoded files of an item, keyed by format; their content plays no part here. */
  datatype AudioFiles = AudioFiles(byFormat: map<string, string>)

  datatype UnavailabilityReason = Embargo | NotWhitelisted | Blacklisted

  /** `Ok(())` when the item may be played, otherwise the reason it may not. */
  type AudioItemAvailability = Result<(), UnavailabilityReason>

  /** One availability window; only its start date is consulted. */
  datatype Availability = Availability(start: Date)

  /** A country restriction scoped to some catalogues, with an optional allow list and an
      optional forbid list of country codes. */
  datatype Restriction = Restriction(
    catalogueStrs: seq<string>,
    countriesAllowed: Option<seq<string>>,
    countriesForbidden: Option<seq<string>>)

  /** The parts of the session's user data the rules read. */
  datatype UserData = UserData(country: string, attributes: map<string, string>)

  datatype Track = Track(
    id: SpotifyId, name: string, duration: i32, isExplicit: bool, files: AudioFiles,
    earliestLiveTimestamp: Date, availability: seq<Availability>, restrictions: seq<Restriction>)

  datatype Episode = Episode(
    id: SpotifyId, name: string, duration: i32, isExplicit: bool, audio: AudioFiles,
    availability: seq<Availability>, restrictions: seq<Restriction>)

  datatype AudioItem = TrackItem(track: Track) | EpisodeItem(episode: Episode)
  {
    function Id(): (r: SpotifyId)
      ensures TrackItem? ==> r == track.id
      ensures EpisodeItem? ==> r == episode.id
    {
      match this
      case TrackItem(t) => t.id
      case EpisodeItem(e) => e.id
    }

    function Name(): (r: string)
      ensures TrackItem? ==> r == track.name
      ensures EpisodeItem? ==> r == episode.name
    {
      match this
      case TrackItem(t) => t.name
      case EpisodeItem(e) => e.name
    }

    function Duration(): (r: i32)
      ensures TrackItem? ==> r == track.duration
      ensures EpisodeItem? ==> r == episode.duration
    {
      match this
      case TrackItem(t) => t.duration
      case EpisodeItem(e) => e.duration
    }

    function IsExplicit(): (r: bool)
      ensures TrackItem? ==> r == track.isExplicit
      ensures EpisodeItem? ==> r == episode.isExplicit
    {
      match this
      case TrackItem(t) => t.isExplicit
      case EpisodeItem(e) => e.isExplicit
    }

    function Files(): (r: AudioFiles)
      ensures TrackItem? ==> r == track.files
      ensures EpisodeItem? ==> r == episode.audio
    {
      match this
      case TrackItem(t) => t.files
      case EpisodeItem(e) => e.audio
    }
  }

  /** The user's catalogue: the "catalogue" attribute, or "premium" when there is none. */
  function UserCatalogue(user: UserData): (r: string)
    ensures "catalogue" in user.attributes ==> r == user.attributes["catalogue"]
    ensures r == DEFAULT_CATALOGUE || ("catalogue" in user.attributes && r == user.attributes["catalogue"])
  {
    if "catalogue" in user.attributes then user.attributes["catalogue"] else DEFAULT_CATALOGUE
  }

  /** A restriction governs a catalogue when it names that catalogue and has either list. */
  predicate Governs(restriction: Restriction, catalogue: string)
  {
    catalogue in restriction.catalogueStrs &&
    (restriction.countriesAllowed.Some? || restriction.countriesForbidden.Some?)
  }

  /** What a governing restriction decides for a country: an allow list is consulted first
      (absent country: not whitelisted); otherwise the forbid list (present country: blacklisted). */
  function Verdict(restriction: Restriction, country: string): (r: AudioItemAvailability)
    requires restriction.countriesAllowed.Some? || restriction.countriesForbidden.Some?
    ensures r != Err(Embargo)
    ensures restriction.countriesAllowed.Some? ==>
      (r.Ok? <==> country in restriction.countriesAllowed.value) && r != Err(Blacklisted)
    ensures restriction.countriesAllowed.None? ==>
      (r.Ok? <==> country !in restriction.countriesForbidden.value) && r != Err(NotWhitelisted)
  {
    match restriction.countriesAllowed
    case Some(allowed) => if country in allowed then Ok(()) else Err(NotWhitelisted)
    case None => if country in restriction.countriesForbidden.value then Err(Blacklisted) else Ok(())
  }

  /** `allowed_for_user`: walks the restrictions naming the user's catalogue, in order, skipping
      those with neither list; the first with a list decides, and with none the item is allowed. */
  function AllowedForUser(user: UserData, restrictions: seq<Restriction>): (r: AudioItemAvailability)
    ensures r != Err(Embargo)
  {
    if restrictions == [] then Ok(())
    else
      var restriction := restrictions[0];
      if UserCatalogue(user) !in restriction.catalogueStrs then AllowedForUser(user, restrictions[1..])
      else match restriction.countriesAllowed
        case Some(allowed) => if user.country in allowed then Ok(()) else Err(NotWhitelisted)
        case None =>
          match restriction.countriesForbidden
          case Some(forbidden) => if user.country in forbidden then Err(Blacklisted) else Ok(())
          case None => AllowedForUser(user, restrictions[1..])
  }

  /** Whether some availability window has started by `now`. */
  function AnyStarted(availability: seq<Availability>, now: Date): (r: bool)
    ensures r <==> exists i :: 0 <= i < |availability| && availability[i].start <= now
  {
    if availability == [] then false
    else availability[0].start <= now || AnyStarted(availability[1..], now)
  }

  /** `available`: an item without windows is available; otherwise it is under embargo until
      one of its windows has started. */
  function Available(availability: seq<Availability>, now: Date): (r: AudioItemAvailability)
    ensures r == Ok(()) || r == Err(Embargo)
    ensures r == Err(Embargo) <==>
      |availability| > 0 && forall i :: 0 <= i < |availability| ==> now < availability[i].start
  {
    if availability == [] then Ok(())
    else if !AnyStarted(availability, now) then Err(Embargo)
    else Ok(())
  }

  /** `available_for_user`: the availability windows are checked before the restrictions, so an
      embargo wins over any restriction verdict. */
  function AvailableForUser(user: UserData, availability: seq<Availability>, restrictions: seq<Restriction>,
                            now: Date): (r: AudioItemAvailability)
    ensures r.Ok? <==> Available(availability, now).Ok? && AllowedForUser(user, restrictions).Ok?
    ensures r == Err(Embargo) <==>
      |availability| > 0 && forall i :: 0 <= i < |availability| ==> now < availability[i].start
    ensures r != Err(Embargo) ==> r == AllowedForUser(user, restrictions)
  {
    match Available(availability, now)
    case Err(reason) => Err(reason)
    case Ok(_) =>
      match AllowedForUser(user, restrictions)
      case Err(reason) => Err(reason)
      case Ok(u) => assert u == (); Ok(())
  }

  /** `AudioItem::availability`: a track is under embargo before its earliest live date whatever
      its restrictions; otherwise, and always for an episode, `available_for_user` decides. */
  function ItemAvailability(item: AudioItem, user: UserData, now: Date): (r: AudioItemAvailability)
    ensures item.TrackItem? && now < item.track.earliestLiveTimestamp ==> r == Err(Embargo)
    ensures item.TrackItem? && now >= item.track.earliestLiveTimestamp ==>
      r == AvailableForUser(user, item.track.availability, item.track.restrictions, now)
    ensures item.EpisodeItem? ==>
      r == AvailableForUser(user, item.episode.availability, item.episode.restrictions, now)
  {
    match item
    case TrackItem(t) =>
      if now < t.earliestLiveTimestamp then Err(Embargo)
      else AvailableForUser(user, t.availability, t.restrictions, now)
    case EpisodeItem(e) => AvailableForUser(user, e.availability, e.restrictions, now)
  }

  /** The first restriction governing the user's catalogue decides `allowed_for_user`: the
      ones before it that name other catalogues or carry no list make no difference. */
  lemma {:induction false} FirstGoverningDecides(user: UserData, restrictions: seq<Restriction>, k: nat)
    requires k < |restrictions|
    requires Governs(restrictions[k], UserCatalogue(user))
    requires forall j :: 0 <= j < k ==> !Governs(restrictions[j], UserCatalogue(user))
    ensures AllowedForUser(user, restrictions) == Verdict(restrictions[k], user.country)
  {
    if k > 0 {
      assert !Governs(restrictions[0], UserCatalogue(user));
      FirstGoverningDecides(user, restrictions[1..], k - 1);
    }
  }

  /** When no restriction governs the user's catalogue (in particular when there are none),
      the item is allowed. */
  lemma {:induction false} NoGoverningAllows(user: UserData, restrictions: seq<Restriction>)
    requires forall j :: 0 <= j < |restrictions| ==> !Governs(restrictions[j], UserCatalogue(user))
    ensures AllowedForUser(user, restrictions) == Ok(())
  {
    if restrictions != [] {
      assert !Governs(restrictions[0], UserCatalogue(user));
      NoGoverningAllows(user, restrictions[1..]);
    }
  }

  /** Read backwards: a refusal always comes from the first governing restriction, whose allow
      list misses the country (`NotWhitelisted`) or, lacking an allow list, whose forbid list
      holds it (`Blacklisted`). */
  lemma {:induction false} RefusalHasCause(user: UserData, restrictions: seq<Restriction>)
    requires AllowedForUser(user, restrictions).Err?
    ensures exists k :: (0 <= k < |restrictions| && Governs(restrictions[k], UserCatalogue(user)) &&
      (forall j :: 0 <= j < k ==> !Governs(restrictions[j], UserCatalogue(user))) &&
      AllowedForUser(user, restrictions) == Verdict(restrictions[k], user.country))
  {
    var catalogue := UserCatalogue(user);
    var restriction := restrictions[0];
    if Governs(restriction, catalogue) {
      FirstGoverningDecides(user, restrictions, 0);
    } else {
      RefusalHasCause(user, restrictions[1..]);
      var k :| 0 <= k < |restrictions[1..]| && Governs(restrictions[1..][k], catalogue) &&
        (forall j :: 0 <= j < k ==> !Governs(restrictions[1..][j], catalogue)) &&
        AllowedForUser(user, restrictions[1..]) == Verdict(restrictions[1..][k], user.country);
      assert Governs(restrictions[k + 1], catalogue);
      assert forall j :: 0 <= j < k + 1 ==> !Governs(restrictions[j], catalogue) by {
        forall j | 0 <= j < k + 1 ensures !Governs(restrictions[j], catalogue) {
          if j > 0 { assert restrictions[j] == restrictions[1..][j - 1]; }
        }
      }
    }
  }

  /** An item is playable exactly when it is past any track release date, some window has
      started (or there are none), and the restrictions allow it. */
  lemma ItemPlayable(item: AudioItem, user: UserData, now: Date)
    ensures var (availability, restrictions) := match item
        case TrackItem(t) => (t.availability, t.restrictions)
        case EpisodeItem(e) => (e.availability, e.restrictions);
      ItemAvailability(item, user, now).Ok? <==>
        (item.TrackItem? ==> item.track.earliestLiveTimestamp <= now) &&
        (availability == [] || exists i :: 0 <= i < |availability| && availability[i].start <= now) &&
        AllowedForUser(user, restrictions).Ok?
  {
  }

  /** The accessors of a track item return the track's own fields. */
  lemma TrackAccessors(t: Track)
    ensures TrackItem(t).Id() == t.id && TrackItem(t).Name() == t.name
    ensures TrackItem(t).Duration() == t.duration && TrackItem(t).IsExplicit() == t.isExplicit
    ensures TrackItem(t).Files() == t.files
  {
  }

  /** The accessors of an episode item return the episode's own fields; its files are its audio. */
  lemma EpisodeAccessors(e: Episode)
    ensures EpisodeItem(e).Id() == e.id && EpisodeItem(e).Name() == e.name
    ensures EpisodeItem(e).Duration() == e.duration && EpisodeItem(e).IsExplicit() == e.isExplicit
    ensures EpisodeItem(e).Files() == e.audio
  {
  }
}
