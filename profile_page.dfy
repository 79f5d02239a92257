/** The profile page's state across fetches. The page starts loading, with no
    valid user and zero statistics. Every request for the user and the
    user's matches that completes updates that state: a success stores the
    new statistics and marks the user valid; an exception only ends loading
    and leaves the earlier statistics and validity in place. Starting a
    request (on mount, and again whenever the route's user id changes)
    changes no state. */
module ProfilePage {
  import opened Wrappers
  import opened MatchStats
  import opened MatchStatsProofs

  /** What a request produced: `Failed` when the request itself failed or
      its data was `null` or `undefined`, so that reading `matches` threw;
      otherwise the user's `matches` field, `None` when it is missing or falsy. */
  datatype Fetch = Failed | Fetched(matches: Option<seq<Match>>)

  /** The state hooks `isLoading`, `validUser` and `stats`. */
  datatype PageState = PageState(isLoading: bool, validUser: bool, stats: Stats)

  /** What the page renders. */
  datatype View = Spinner | NotFound | Profile(stats: Stats)

  /** The state right after mounting. */
  function Initial(): (s: PageState)
    ensures s.isLoading && !s.validUser
  {
    PageState(true, false, Stats(0, 0, 0, 0))
  }

  /** The request for that user threw: reading `matches` or building the
      statistics raised an exception. */
  predicate Throws(userId: UserId, fetch: Fetch)
  {
    fetch.Failed? || ComputeStats(userId, fetch.matches).Threw?
  }

  /** The handler of one completed request made for `userId`. */
  function Complete(userId: UserId, s: PageState, fetch: Fetch): (t: PageState)
    ensures !t.isLoading
    ensures Throws(userId, fetch) ==> t.validUser == s.validUser && t.stats == s.stats
    ensures !Throws(userId, fetch) ==> t.validUser && t.stats == ComputeStats(userId, fetch.matches).value
  {
    match fetch
    case Failed => s.(isLoading := false)
    case Fetched(matchesField) =>
      match ComputeStats(userId, matchesField)
      case Threw => s.(isLoading := false)
      case Ok(stats) => PageState(false, true, stats)
  }

  /** The component's render: spinner, then the not-found alert, then the
      profile with its statistics. */
  function Render(s: PageState): (v: View)
    ensures v.Spinner? <==> s.isLoading
    ensures v.NotFound? <==> !s.isLoading && !s.validUser
    ensures v.Profile? ==> v.stats == s.stats
  {
    if s.isLoading then Spinner
    else if !s.validUser then NotFound
    else Profile(s.stats)
  }

  /** The first request after mounting: the page ends on the not-found alert
      exactly when the request failed or a decisive record lacks a player;
      otherwise it shows the statistics, all zeros when `matches` is
      missing. */
  lemma FirstFetch(userId: UserId, fetch: Fetch)
    ensures Render(Complete(userId, Initial(), fetch)).NotFound? <==>
      fetch.Failed? ||
      (fetch.matches.Some? && exists i :: 0 <= i < |fetch.matches.value| && Broken(fetch.matches.value[i]))
    ensures Render(Complete(userId, Initial(), fetch)).Profile? ==>
      Render(Complete(userId, Initial(), fetch)).stats.totalGames == |MatchesOrEmpty(fetch.matches)|
    ensures fetch.Fetched? && fetch.matches.None? ==>
      Render(Complete(userId, Initial(), fetch)) == Profile(Stats(0, 0, 0, 0))
  {
    if fetch.Fetched? {
      StatsThrowIff(userId, MatchesOrEmpty(fetch.matches));
    }
  }

  /** Once a profile has been shown, a later request that throws keeps
      showing the earlier profile and statistics rather than not-found. */
  lemma ThrowKeepsProfile(userId: UserId, s: PageState, fetch: Fetch)
    requires !s.isLoading && s.validUser
    requires Throws(userId, fetch)
    ensures Render(Complete(userId, s, fetch)) == Profile(s.stats)
  {
  }

  /** A request that does not throw decides the page on its own: what came
      before it, including requests for other user ids that completed
      earlier, does not show. */
  lemma SuccessOverwrites(userId: UserId, s1: PageState, s2: PageState, fetch: Fetch)
    requires !Throws(userId, fetch)
    ensures Complete(userId, s1, fetch) == Complete(userId, s2, fetch)
    ensures Render(Complete(userId, s1, fetch)).Profile?
  {
  }
}
