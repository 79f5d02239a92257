/** What the profile statistics mean: reference definitions of a win, a loss,
    a draw and a record that breaks the computation, stated per match and
    counted as sets of positions, and the lemmas tying ComputeStats to them. */
module MatchStatsProofs {
  import opened Wrappers
  import opened MatchStats

  /** The user played the winning colour. */
  predicate Won(u: UserId, m: Match)
  {
    (m.winner == White && m.whitePlayer == Some(u)) || (m.winner == Black && m.blackPlayer == Some(u))
  }

  /** The user played the losing colour. */
  predicate Lost(u: UserId, m: Match)
  {
    (m.winner == White && m.blackPlayer == Some(u)) || (m.winner == Black && m.whitePlayer == Some(u))
  }

  /** A decisive record in which the user played at least one colour. */
  predicate PlayedDecisive(u: UserId, m: Match)
  {
    Decisive(m) && (m.whitePlayer == Some(u) || m.blackPlayer == Some(u))
  }

  /** A decisive record in which the user is recorded as both players. */
  predicate SelfPlay(u: UserId, m: Match)
  {
    Decisive(m) && m.whitePlayer == Some(u) && m.blackPlayer == Some(u)
  }

  /** Positions whose callback returns true. */
  ghost function Hits(ms: seq<Match>, f: Filter): set<int>
  {
    set i | 0 <= i < |ms| && Callback(f, ms[i]) == Ok(true)
  }

  /** No callback call throws. */
  ghost predicate AllOk(ms: seq<Match>, f: Filter)
  {
    forall i :: 0 <= i < |ms| ==> Callback(f, ms[i]).Ok?
  }

  ghost function WinPositions(u: UserId, ms: seq<Match>): set<int>
  {
    set i | 0 <= i < |ms| && Won(u, ms[i])
  }

  ghost function LossPositions(u: UserId, ms: seq<Match>): set<int>
  {
    set i | 0 <= i < |ms| && Lost(u, ms[i])
  }

  ghost function DrawPositions(ms: seq<Match>): set<int>
  {
    set i | 0 <= i < |ms| && ms[i].winner == Draw
  }

  ghost function PlayedDecisivePositions(u: UserId, ms: seq<Match>): set<int>
  {
    set i | 0 <= i < |ms| && PlayedDecisive(u, ms[i])
  }

  ghost function SelfPlayPositions(u: UserId, ms: seq<Match>): set<int>
  {
    set i | 0 <= i < |ms| && SelfPlay(u, ms[i])
  }

  /** The sum of two counts, throwing when either does. */
  function AddCounts(x: Result<nat>, y: Result<nat>): Result<nat>
  {
    match x
    case Threw => Threw
    case Ok(a) =>
      match y
      case Threw => Threw
      case Ok(b) => Ok(a + b)
  }

  /** Counting a concatenation is counting each part. */
  lemma {:induction false} CountWhereAppend(a: seq<Match>, b: seq<Match>, f: Filter)
    ensures CountWhere(a + b, f) == AddCounts(CountWhere(a, f), CountWhere(b, f))
  {
    if a == [] {
      assert a + b == b;
    } else {
      assert (a + b)[0] == a[0];
      assert (a + b)[1..] == a[1..] + b;
      CountWhereAppend(a[1..], b, f);
    }
  }

  lemma AllOkSnoc(init: seq<Match>, last: Match, f: Filter)
    ensures AllOk(init + [last], f) <==> AllOk(init, f) && Callback(f, last).Ok?
  {
    var ms := init + [last];
    if AllOk(ms, f) {
      assert Callback(f, ms[|init|]).Ok?;
      forall i | 0 <= i < |init| ensures Callback(f, init[i]).Ok? {
        assert init[i] == ms[i];
      }
    }
  }

  lemma HitsSnoc(init: seq<Match>, last: Match, f: Filter)
    ensures Hits(init + [last], f) == Hits(init, f) + (if Callback(f, last) == Ok(true) then {|init|} else {})
    ensures |init| !in Hits(init, f)
  {
  }

  /** `filter(f).length` against its reference: it throws exactly when
      some callback call throws, and otherwise counts the positions whose
      callback returns true. */
  lemma {:induction false} CountWhereMeaning(ms: seq<Match>, f: Filter)
    ensures CountWhere(ms, f).Ok? <==> AllOk(ms, f)
    ensures CountWhere(ms, f).Ok? ==> CountWhere(ms, f).value == |Hits(ms, f)|
  {
    if ms == [] {
      assert Hits(ms, f) == {};
    } else {
      var n := |ms| - 1;
      var init, last := ms[..n], ms[n];
      assert ms == init + [last];
      CountWhereAppend(init, [last], f);
      CountWhereMeaning(init, f);
      assert [last][1..] == [];
      AllOkSnoc(init, last, f);
      HitsSnoc(init, last, f);
    }
  }

  /** A set of positions below n has at most n elements. */
  lemma {:induction false} PositionsBound(s: set<int>, n: nat)
    requires forall i :: i in s ==> 0 <= i < n
    ensures |s| <= n
  {
    if n > 0 {
      PositionsBound(s - {n - 1}, n - 1);
    } else {
      forall i | i in s ensures i < 0 { }
      assert s == {};
    }
  }

  /** The profile statistics throw exactly when some decisive record lacks a
      player, whoever the user is; drawn and unfinished records never read a
      player. */
  lemma StatsThrowIff(u: UserId, ms: seq<Match>)
    ensures ComputeStats(u, Some(ms)) == Threw <==> exists i :: 0 <= i < |ms| && Broken(ms[i])
  {
    var win := WinsOf(u);
    var loss := LossesOf(u);
    CountWhereMeaning(ms, win);
    CountWhereMeaning(ms, loss);
    CountWhereMeaning(ms, Draws);
    assert AllOk(ms, Draws);
    if exists i :: 0 <= i < |ms| && Broken(ms[i]) {
      var i :| 0 <= i < |ms| && Broken(ms[i]);
      assert Callback(win, ms[i]).Threw? || Callback(loss, ms[i]).Threw?;
    } else {
      forall i | 0 <= i < |ms| ensures Callback(win, ms[i]).Ok? && Callback(loss, ms[i]).Ok? {
        assert !Broken(ms[i]);
      }
    }
  }

  /** When the statistics are built, each count is the number of records the
      per-match rule selects: totalGames every record, wins those where the
      user holds the winning colour, losses those where the user holds the
      losing colour, draws every drawn record. */
  lemma StatsCounts(u: UserId, ms: seq<Match>)
    ensures ComputeStats(u, Some(ms)).Ok? ==>
      ComputeStats(u, Some(ms)).value ==
        Stats(|ms|, |WinPositions(u, ms)|, |LossPositions(u, ms)|, |DrawPositions(ms)|)
  {
    var win := WinsOf(u);
    var loss := LossesOf(u);
    CountWhereMeaning(ms, win);
    CountWhereMeaning(ms, loss);
    CountWhereMeaning(ms, Draws);
    assert Hits(ms, win) == WinPositions(u, ms);
    assert Hits(ms, loss) == LossPositions(u, ms);
    assert Hits(ms, Draws) == DrawPositions(ms);
  }

  /** Field-wise sum of two statistics, throwing when either throws. */
  function AddStats(x: Result<Stats>, y: Result<Stats>): Result<Stats>
  {
    match x
    case Threw => Threw
    case Ok(s) =>
      match y
      case Threw => Threw
      case Ok(t) => Ok(Stats(s.totalGames + t.totalGames, s.wins + t.wins, s.losses + t.losses, s.draws + t.draws))
  }

  /** The statistics object from its three counts, throwing when one does. */
  function Assemble(total: nat, wins: Result<nat>, losses: Result<nat>, draws: Result<nat>): Result<Stats>
  {
    if wins.Threw? || losses.Threw? || draws.Threw? then Threw
    else Ok(Stats(total, wins.value, losses.value, draws.value))
  }

  lemma StatsUnfold(u: UserId, ms: seq<Match>)
    ensures ComputeStats(u, Some(ms)) ==
      Assemble(|ms|, CountWhere(ms, WinsOf(u)), CountWhere(ms, LossesOf(u)), CountWhere(ms, Draws))
  {
  }

  lemma AssembleAdd(ta: nat, tb: nat, wa: Result<nat>, wb: Result<nat>, la: Result<nat>, lb: Result<nat>, da: Result<nat>, db: Result<nat>)
    ensures Assemble(ta + tb, AddCounts(wa, wb), AddCounts(la, lb), AddCounts(da, db)) ==
      AddStats(Assemble(ta, wa, la, da), Assemble(tb, wb, lb, db))
  {
  }

  lemma CountWhereSingle(m: Match, f: Filter)
    ensures CountWhere([m], f) == match Callback(f, m) case Threw => Threw case Ok(hit) => Ok(if hit then 1 else 0)
  {
    assert [m][1..] == [];
  }

  /** The statistics of two lists of records put together are the sums of
      their statistics, and building them throws exactly when building either
      part's does. */
  lemma StatsAppend(u: UserId, a: seq<Match>, b: seq<Match>)
    ensures ComputeStats(u, Some(a + b)) == AddStats(ComputeStats(u, Some(a)), ComputeStats(u, Some(b)))
  {
    var win := WinsOf(u);
    var loss := LossesOf(u);
    StatsUnfold(u, a);
    StatsUnfold(u, b);
    StatsUnfold(u, a + b);
    CountWhereAppend(a, b, win);
    CountWhereAppend(a, b, loss);
    CountWhereAppend(a, b, Draws);
    AssembleAdd(|a|, |b|, CountWhere(a, win), CountWhere(b, win), CountWhere(a, loss), CountWhere(b, loss),
      CountWhere(a, Draws), CountWhere(b, Draws));
  }

  lemma AddStatsCommutes(x: Result<Stats>, y: Result<Stats>)
    ensures AddStats(x, y) == AddStats(y, x)
  {
  }

  lemma AddStatsAssociates(x: Result<Stats>, y: Result<Stats>, z: Result<Stats>)
    ensures AddStats(AddStats(x, y), z) == AddStats(x, AddStats(y, z))
  {
  }

  /** The statistics do not depend on the order of the records: any
      rearrangement of the same records gives the same result. */
  lemma {:induction false} StatsOrderIndependent(u: UserId, a: seq<Match>, b: seq<Match>)
    requires multiset(a) == multiset(b)
    ensures ComputeStats(u, Some(a)) == ComputeStats(u, Some(b))
    decreases |a|
  {
    if a == [] {
      assert |b| == |multiset(b)| == 0;
    } else {
      var x := a[0];
      assert x in multiset(b);
      var k :| 0 <= k < |b| && b[k] == x;
      var p, q := b[..k], b[k + 1..];
      assert b == p + [x] + q;
      assert a == [x] + a[1..];
      assert multiset(a[1..]) == multiset(p + q) by {
        calc {
          multiset(a[1..]);
          multiset(a) - multiset{x};
          multiset(b) - multiset{x};
          multiset(p) + multiset{x} + multiset(q) - multiset{x};
          multiset(p + q);
        }
      }
      StatsOrderIndependent(u, a[1..], p + q);
      var sx, sp, sq := ComputeStats(u, Some([x])), ComputeStats(u, Some(p)), ComputeStats(u, Some(q));
      StatsAppend(u, [x], a[1..]);
      StatsAppend(u, p, q);
      StatsAppend(u, p + [x], q);
      StatsAppend(u, p, [x]);
      // a gives x + (p + q), b gives (p + x) + q
      AddStatsCommutes(sp, sx);
      AddStatsAssociates(sx, sp, sq);
    }
  }

  /** A record whose winner is neither white, black nor draw adds one to
      totalGames and nothing to wins, losses or draws. */
  lemma OtherAddsOnlyToTotal(u: UserId, ms: seq<Match>, m: Match)
    requires m.winner == Other
    ensures ComputeStats(u, Some(ms + [m])) ==
      match ComputeStats(u, Some(ms))
      case Threw => Threw
      case Ok(s) => Ok(s.(totalGames := s.totalGames + 1))
  {
    StatsAppend(u, ms, [m]);
    StatsUnfold(u, [m]);
    CountWhereSingle(m, WinsOf(u));
    CountWhereSingle(m, LossesOf(u));
    CountWhereSingle(m, Draws);
  }

  /** A drawn record is never a win or a loss, so wins and draws together,
      and losses and draws together, never exceed totalGames. */
  lemma DrawBounds(u: UserId, ms: seq<Match>)
    ensures ComputeStats(u, Some(ms)).Ok? ==>
      var s := ComputeStats(u, Some(ms)).value;
      s.wins + s.draws <= s.totalGames && s.losses + s.draws <= s.totalGames
  {
    StatsCounts(u, ms);
    var w, l, d := WinPositions(u, ms), LossPositions(u, ms), DrawPositions(ms);
    assert w * d == {};
    assert l * d == {};
    PositionsBound(w + d, |ms|);
    PositionsBound(l + d, |ms|);
  }

  /** wins + losses counts every decisive record the user played, and counts
      twice those where the user is recorded as both players. */
  lemma WinsPlusLosses(u: UserId, ms: seq<Match>)
    ensures ComputeStats(u, Some(ms)).Ok? ==>
      var s := ComputeStats(u, Some(ms)).value;
      s.wins + s.losses == |PlayedDecisivePositions(u, ms)| + |SelfPlayPositions(u, ms)|
  {
    StatsCounts(u, ms);
    var w, l := WinPositions(u, ms), LossPositions(u, ms);
    assert w + l == PlayedDecisivePositions(u, ms);
    assert w * l == SelfPlayPositions(u, ms);
  }

  /** Without self-play records, wins, losses and draws together never exceed
      totalGames. */
  lemma NoSelfPlayBound(u: UserId, ms: seq<Match>)
    requires forall i :: 0 <= i < |ms| ==> !SelfPlay(u, ms[i])
    ensures ComputeStats(u, Some(ms)).Ok? ==>
      var s := ComputeStats(u, Some(ms)).value;
      s.wins + s.losses + s.draws <= s.totalGames
  {
    StatsCounts(u, ms);
    var w, l, d := WinPositions(u, ms), LossPositions(u, ms), DrawPositions(ms);
    assert w * l == SelfPlayPositions(u, ms);
    assert SelfPlayPositions(u, ms) == {};
    assert (w + l) * d == {};
    PositionsBound(w + l + d, |ms|);
  }

  /** A decisive record with the user as both players is a win and a loss at
      once, so wins + losses can exceed totalGames. */
  lemma SelfPlayCountsTwice(u: UserId, m: Match)
    requires SelfPlay(u, m)
    ensures ComputeStats(u, Some([m])) == Ok(Stats(1, 1, 1, 0))
  {
    StatsUnfold(u, [m]);
    CountWhereSingle(m, WinsOf(u));
    CountWhereSingle(m, LossesOf(u));
    CountWhereSingle(m, Draws);
  }

  /** Whether the statistics are built, totalGames and draws do not depend on
      the user: a drawn record counts even when the user did not play it. */
  lemma DrawsIgnoreUser(u1: UserId, u2: UserId, ms: seq<Match>)
    ensures ComputeStats(u1, Some(ms)).Ok? <==> ComputeStats(u2, Some(ms)).Ok?
    ensures ComputeStats(u1, Some(ms)).Ok? ==>
      ComputeStats(u1, Some(ms)).value.draws == ComputeStats(u2, Some(ms)).value.draws
  {
    StatsThrowIff(u1, ms);
    StatsThrowIff(u2, ms);
    StatsCounts(u1, ms);
    StatsCounts(u2, ms);
  }

  /** Worked examples: a win, a loss, a draw the user played, a draw the
      user did not play, and a black win with no black player (which
      throws), each as the only record. */
  lemma Examples()
    ensures ComputeStats("U1", Some([Match(Some("U1"), Some("U2"), White)])) == Ok(Stats(1, 1, 0, 0))
    ensures ComputeStats("U1", Some([Match(Some("U2"), Some("U1"), White)])) == Ok(Stats(1, 0, 1, 0))
    ensures ComputeStats("U1", Some([Match(Some("U1"), Some("U2"), Draw)])) == Ok(Stats(1, 0, 0, 1))
    ensures ComputeStats("U1", Some([Match(Some("U2"), Some("U3"), Draw)])) == Ok(Stats(1, 0, 0, 1))
    ensures ComputeStats("U1", Some([Match(Some("U1"), None, Black)])) == Threw
  {
  }
}
