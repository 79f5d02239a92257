# Profile match statistics

A Dafny model of the game statistics on a user's profile page in a web chess
application. Once the page has fetched a user and that user's match records,
it builds four counts:

- `totalGames`: every record;
- `wins`: records where the winning colour's player is the user;
- `losses`: records where the losing colour's player is the user;
- `draws`: every drawn record, whoever played it.

A missing or falsy `matches` field counts as an empty list. A decisive record with a
missing player is not skipped. The `wins` and `losses` filters read
`whitePlayer._id` or `blackPlayer._id` on every white or black win, so that
record makes building the statistics throw. The request handler catches the
exception and only ends loading. On a freshly mounted page the user is not
yet valid, so the page shows its not-found alert. After an earlier success,
the page keeps showing the earlier profile and statistics.

Files:

- `wrappers.dfy`: `Option` for absent fields, and `Result` for code that
  may throw (`Threw`).
- `match_stats.dfy`: the records, the three filter callbacks (named by the
  `Filter` datatype), and `filter(...).length` as `CountWhere`.
  `ComputeStats` builds the statistics object.
- `match_stats_proofs.dfy`: reference definitions, one predicate per match
  (`Won`, `Lost`, `SelfPlay`, ...) and the sets of positions they select.
  Also the lemmas that tie `ComputeStats` to those definitions.
- `profile_page.dfy`: the page's `isLoading`, `validUser` and `stats` state.
  `Complete` is what one completed request does to that state, and `Render`
  is what the page shows.

## Model

| member | source | states |
|---|---|---|
| `MatchStats.CountWhere` | client/src/components/User/UserProfile.js:32-42 | a `filter(...).length` that does not throw never exceeds the number of records |
| `MatchStats.ComputeStats` | client/src/components/User/UserProfile.js:29-43 | a missing or falsy `matches` field gives all four counts 0; when built, totalGames is the number of records and wins, losses and draws are each at most totalGames |
| `MatchStatsProofs.CountWhereAppend` | client/src/components/User/UserProfile.js:32-42 | counting over a concatenation is the sum of the counts over its parts, and it throws exactly when either part does |
| `MatchStatsProofs.CountWhereMeaning` | client/src/components/User/UserProfile.js:32-42 | `filter(callback).length` throws exactly when some callback call throws; otherwise it equals the number of positions whose callback returns true |
| `MatchStatsProofs.StatsThrowIff` | client/src/components/User/UserProfile.js:32-41 | building the statistics throws exactly when some white or black win lacks its white or its black player, whoever the user is |
| `MatchStatsProofs.StatsCounts` | client/src/components/User/UserProfile.js:30-43 | when built, totalGames is the record count, wins counts records won by white with the user as white or won by black with the user as black, losses counts the colour-swapped cases, and draws counts every record whose winner is draw |
| `MatchStatsProofs.StatsAppend` | client/src/components/User/UserProfile.js:30-43 | the statistics of two record lists put together are the field-wise sums of their statistics |
| `MatchStatsProofs.StatsOrderIndependent` | client/src/components/User/UserProfile.js:30-43 | any two lists holding the same records (the same multiset) give the same statistics, or both throw |
| `MatchStatsProofs.OtherAddsOnlyToTotal` | client/src/components/User/UserProfile.js:31-42 | a record whose winner is not white, black or draw adds one to totalGames and nothing to wins, losses or draws |
| `MatchStatsProofs.DrawBounds` | client/src/components/User/UserProfile.js:31-42 | a drawn record is never a win or a loss, so wins + draws and losses + draws are each at most totalGames |
| `MatchStatsProofs.WinsPlusLosses` | client/src/components/User/UserProfile.js:32-41 | wins + losses equals the number of decisive records the user played plus the number where the user is both players |
| `MatchStatsProofs.NoSelfPlayBound` | client/src/components/User/UserProfile.js:31-42 | if no decisive record has the user as both players, wins + losses + draws is at most totalGames |
| `MatchStatsProofs.SelfPlayCountsTwice` | client/src/components/User/UserProfile.js:33-38 | a decisive record with the user as both players counts as one game, one win and one loss |
| `MatchStatsProofs.DrawsIgnoreUser` | client/src/components/User/UserProfile.js:42 | whether the statistics are built, and the draws count, are the same for every user |
| `MatchStatsProofs.Examples` | client/src/components/User/UserProfile.js:29-43 | single-record cases: a win, a loss, a played draw, a draw the user did not play (still counted), and a black win with no black player (throws) |
| `ProfilePage.Initial` | client/src/components/User/UserProfile.js:10-18 | a freshly mounted page is loading and has no valid user |
| `ProfilePage.Complete` | client/src/components/User/UserProfile.js:24-51 | a completed request always ends loading; if it threw, validity and statistics stay as they were; otherwise the user is valid and the statistics are those computed from the response |
| `ProfilePage.Render` | client/src/components/User/UserProfile.js:56-68 | the spinner shows exactly while loading, the not-found alert exactly when loading is over and the user is not valid, and otherwise the stored statistics |
| `ProfilePage.FirstFetch` | client/src/components/User/UserProfile.js:12-65 | after the first request since mounting, the page shows not-found exactly when the request failed or a decisive record lacks a player; otherwise it shows statistics with totalGames equal to the record count, all zeros when `matches` is missing |
| `ProfilePage.ThrowKeepsProfile` | client/src/components/User/UserProfile.js:49-54 | once a profile is shown, a later request that throws leaves the same profile and statistics on screen |
| `ProfilePage.SuccessOverwrites` | client/src/components/User/UserProfile.js:45-48 | a request that does not throw sets the whole state regardless of what earlier requests did, and the page then shows a profile |

## Left out

- The HTTP request to `/u/getUserWithMatches`: its outcome is the `Fetch` parameter of `ProfilePage.Complete`. `Failed` stands for a failed request and for response data that is `null` or `undefined`, since reading `matches` on those throws. Any other data whose `matches` field is missing or falsy (absent, `null`, `""`, `0`, `false`), such as an empty-string body, is `Fetched(None)` and gives all-zero statistics, because `res.data.matches || []` turns every falsy value into `[]`.
- Starting a request: it changes no page state, so it has no function. Requests complete in whatever order the caller applies `Complete`; the model does not track which request is the latest.
- The `user` state and everything rendered from it (name, rating, the `rating || 1000` default), the JSX layout and the "Update Profile" tab condition: these are display only.
- The page state is modelled as values passed from one completion to the next, not as React hooks updated in place.
- `config/config.js`: environment-driven URL constants, not behaviour.
- The record's own `id`: it plays no part in the statistics.
- A `null` entry in the `matches` list: reading its `winner` throws, so the page behaves as for any other throw. A `seq<Match>` has no such entry, so this case is not represented.
- A player object that is present but has no `_id`: its id compares unequal to the user, the same as any other user's id, so it is not a separate case.
- A `matches` value that is present but not an array: only absent and list values are modelled.
- The `winner` field: it is a string in the source. Any string other than 'white', 'black' or 'draw', and an absent value, is the single `Other` outcome.
- `MatchStats.ComputeStats` evaluates all three filters and then checks for a throw, where the source stops at the first throwing filter. Every throw is the same `Threw`, so the result is the same.
- Idempotence of the statistics: `ComputeStats` is a function of its inputs, so computing it twice gives the same result by construction. No lemma is stated.
