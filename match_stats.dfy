/** The game statistics a user's profile page derives from the user's match
    records: total games, wins, losses and draws. */
module MatchStats {
  import opened Wrappers

  /** A user id, as the page reads it from the route and as the server
      returns it in a player's `_id`; the two are compared with `===`. */
  type UserId = string

  /** The `winner` field of a match record: the strings 'white', 'black' and
      'draw', or anything else (absent, or a match still in progress). */
  datatype Winner = White | Black | Draw | Other

  /** A match record as the server returns it. Either player reference may
      be missing; the record's own id plays no part in the statistics. */
  datatype Match = Match(whitePlayer: Option<UserId>, blackPlayer: Option<UserId>, winner: Winner)

  /** The statistics object shown on the profile page. */
  datatype Stats = Stats(totalGames: nat, wins: nat, losses: nat, draws: nat)

  /** `player._id === userId`: throws when the player reference is missing. */
  function IdIs(player: Option<UserId>, userId: UserId): Result<bool>
  {
    match player
    case None => Threw
    case Some(id) => Ok(id == userId)
  }

  /** The callback of the `wins` filter. */
  function WinTest(userId: UserId, m: Match): Result<bool>
  {
    if m.winner == White then IdIs(m.whitePlayer, userId)
    else if m.winner == Black then IdIs(m.blackPlayer, userId)
    else Ok(false)
  }

  /** The callback of the `losses` filter: the user holds the losing colour. */
  function LossTest(userId: UserId, m: Match): Result<bool>
  {
    if m.winner == White then IdIs(m.blackPlayer, userId)
    else if m.winner == Black then IdIs(m.whitePlayer, userId)
    else Ok(false)
  }

  /** The callback of the `draws` filter; it looks at no player. */
  function DrawTest(m: Match): Result<bool>
  {
    Ok(m.winner == Draw)
  }

  /** The three filters the page runs: for the user's wins, for the user's
      losses, and for draws. */
  datatype Filter = WinsOf(userId: UserId) | LossesOf(userId: UserId) | Draws

  /** The callback of a filter, applied to one record. */
  function Callback(f: Filter, m: Match): Result<bool>
  {
    match f
    case WinsOf(u) => WinTest(u, m)
    case LossesOf(u) => LossTest(u, m)
    case Draws => DrawTest(m)
  }

  /** `ms.filter(callback).length`, where the callback may throw; one
      throwing call makes the whole expression throw. */
  function CountWhere(ms: seq<Match>, f: Filter): (r: Result<nat>)
    ensures r.Ok? ==> r.value <= |ms|
  {
    if ms == [] then Ok(0)
    else
      match Callback(f, ms[0])
      case Threw => Threw
      case Ok(hit) =>
        match CountWhere(ms[1..], f)
        case Threw => Threw
        case Ok(n) => Ok(if hit then n + 1 else n)
  }

  /** The records the page counts: a missing or falsy `matches` field stands for the
      empty list (`res.data.matches || []`). */
  function MatchesOrEmpty(matchesField: Option<seq<Match>>): seq<Match>
  {
    match matchesField
    case None => []
    case Some(ms) => ms
  }

  /** A white or black win: the only outcomes whose callbacks read players. */
  predicate Decisive(m: Match)
  {
    m.winner == White || m.winner == Black
  }

  /** A decisive record with a player reference missing: one of the `wins`
      and `losses` callbacks reads `_id` of that missing player. */
  predicate Broken(m: Match)
  {
    Decisive(m) && (m.whitePlayer.None? || m.blackPlayer.None?)
  }

  /** The statistics object of the profile page, or `Threw` when building it
      throws. The source runs the three filters in order and stops at the
      first throw; every throw is the same `Threw` here, so the result does
      not depend on which filter threw first. */
  function ComputeStats(userId: UserId, matchesField: Option<seq<Match>>): (r: Result<Stats>)
    ensures matchesField.None? ==> r == Ok(Stats(0, 0, 0, 0))
    ensures r.Ok? ==> r.value.totalGames == |MatchesOrEmpty(matchesField)|
    ensures r.Ok? ==> r.value.wins <= r.value.totalGames
    ensures r.Ok? ==> r.value.losses <= r.value.totalGames
    ensures r.Ok? ==> r.value.draws <= r.value.totalGames
  {
    var ms := MatchesOrEmpty(matchesField);
    var wins := CountWhere(ms, WinsOf(userId));
    var losses := CountWhere(ms, LossesOf(userId));
    var draws := CountWhere(ms, Draws);
    if wins.Threw? || losses.Threw? || draws.Threw? then Threw
    else Ok(Stats(|ms|, wins.value, losses.value, draws.value))
  }
}
