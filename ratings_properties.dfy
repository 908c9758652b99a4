/** What the Elo tally of `calculate_elo_ratings` (backend/storage.py:385-468) promises
    about its output, whatever the rating update: the matches come from pairs of ranked
    rows of one evaluation, every pair of a group is looked at once, and each output row
    counts its model's wins, losses and stage-1 appearances. */
module RatingsProperties {
  import opened Common
  import opened Sorting
  import opened Storage
  import opened Ratings

  /** `m` takes part in one of the matches `ms`. */
  predicate Played(ms: seq<Match>, m: string) {
    exists k :: 0 <= k < |ms| && (ms[k].winner == m || ms[k].loser == m)
  }

  /** The number of matches of `ms` that `m` wins. */
  function WinsIn(ms: seq<Match>, m: string): nat {
    if ms == [] then 0 else WinsIn(ms[..|ms| - 1], m) + if ms[|ms| - 1].winner == m then 1 else 0
  }

  /** The number of matches of `ms` that `m` loses. */
  function LossesIn(ms: seq<Match>, m: string): nat {
    if ms == [] then 0 else LossesIn(ms[..|ms| - 1], m) + if ms[|ms| - 1].loser == m then 1 else 0
  }

  /** The number of times `m` occurs in `models`. */
  function Occurrences(models: seq<string>, m: string): nat {
    if models == [] then 0
    else Occurrences(models[..|models| - 1], m) + if models[|models| - 1] == m then 1 else 0
  }

  /** `s` is what the tally holds after the stage-1 models `models` and the matches `ms`:
      each model is listed once, in the key order of `elo`; the models rated are the
      stage-1 models and the players; the win and loss counts are those of `ms`; and a
      model that has not played is still at the base rating. */
  ghost predicate Summarises(s: Standings, models: seq<string>, ms: seq<Match>) {
    Distinct(s.order)
    && (forall m :: m in s.elo <==> m in s.order)
    && (forall m :: m in s.elo <==> m in models || Played(ms, m))
    && (forall m :: MapGet(s.wins, m, 0) == WinsIn(ms, m))
    && (forall m :: MapGet(s.losses, m, 0) == LossesIn(ms, m))
    && (forall m :: m in s.elo && !Played(ms, m) ==> s.elo[m] == BaseRating)
  }

  lemma PlayedSnoc(ms: seq<Match>, x: Match, m: string)
    ensures Played(ms + [x], m) <==> Played(ms, m) || x.winner == m || x.loser == m
  {
    var ms' := ms + [x];
    if Played(ms', m) {
      var k :| 0 <= k < |ms'| && (ms'[k].winner == m || ms'[k].loser == m);
      if k < |ms| {
        assert ms'[k] == ms[k];
      }
    }
    if Played(ms, m) {
      var k :| 0 <= k < |ms| && (ms[k].winner == m || ms[k].loser == m);
      assert ms'[k] == ms[k];
    }
    if x.winner == m || x.loser == m {
      assert ms'[|ms|] == x;
    }
  }

  lemma CountsSnoc(ms: seq<Match>, x: Match, m: string)
    ensures WinsIn(ms + [x], m) == WinsIn(ms, m) + if x.winner == m then 1 else 0
    ensures LossesIn(ms + [x], m) == LossesIn(ms, m) + if x.loser == m then 1 else 0
  {
    assert (ms + [x])[..|ms|] == ms;
  }

  lemma {:induction false} SeedSummarises(models: seq<string>)
    ensures Summarises(Seed(models), models, [])
  {
    if models != [] {
      var n := |models| - 1;
      SeedSummarises(models[..n]);
      forall m ensures m in models <==> m in models[..n] || m == models[n] {
        assert models == models[..n] + [models[n]];
      }
    }
  }

  /** Entering `m` keeps the model list duplicate-free and in step with `elo`. */
  lemma TouchKeepsOrder(s: Standings, m: string)
    requires Distinct(s.order) && forall n :: n in s.elo <==> n in s.order
    ensures var t := Touch(s, m);
      Distinct(t.order) && (forall n :: n in t.elo <==> n in t.order)
  {
  }

  /** What one match does to the model list and the ratings' keys. */
  lemma PlayKeepsOrder(s: Standings, x: Match, update: (real, real) -> (real, real))
    requires Distinct(s.order) && forall n :: n in s.elo <==> n in s.order
    ensures var p := Play(s, x, update);
      Distinct(p.order) && (forall n :: n in p.elo <==> n in p.order)
      && (forall n :: n in p.elo <==> n in s.elo || n == x.winner || n == x.loser)
  {
    TouchKeepsOrder(s, x.winner);
    TouchKeepsOrder(Touch(s, x.winner), x.loser);
  }

  /** One match changes the ratings of its players only. */
  lemma PlayKeepsOthers(s: Standings, x: Match, update: (real, real) -> (real, real), m: string)
    requires m in s.elo && m != x.winner && m != x.loser
    ensures m in Play(s, x, update).elo && Play(s, x, update).elo[m] == s.elo[m]
  {
  }

  /** One match adds a win to its winner and a loss to its loser. */
  lemma PlayCounts(s: Standings, x: Match, update: (real, real) -> (real, real), m: string)
    ensures MapGet(Play(s, x, update).wins, m, 0) == MapGet(s.wins, m, 0) + if x.winner == m then 1 else 0
    ensures MapGet(Play(s, x, update).losses, m, 0) == MapGet(s.losses, m, 0) + if x.loser == m then 1 else 0
  {
  }

  /** One match keeps the summary: its players are rated and counted, and no one else
      changes. */
  lemma PlaySummarises(s: Standings, models: seq<string>, ms: seq<Match>, x: Match,
                       update: (real, real) -> (real, real))
    requires Summarises(s, models, ms)
    ensures Summarises(Play(s, x, update), models, ms + [x])
  {
    var p := Play(s, x, update);
    PlayKeepsOrder(s, x, update);
    forall m
      ensures m in p.elo <==> m in models || Played(ms + [x], m)
      ensures MapGet(p.wins, m, 0) == WinsIn(ms + [x], m)
      ensures MapGet(p.losses, m, 0) == LossesIn(ms + [x], m)
      ensures m in p.elo && !Played(ms + [x], m) ==> p.elo[m] == BaseRating
    {
      PlayedSnoc(ms, x, m);
      CountsSnoc(ms, x, m);
      PlayCounts(s, x, update, m);
      if m in s.elo && m != x.winner && m != x.loser {
        PlayKeepsOthers(s, x, update, m);
      }
    }
  }

  lemma {:induction false} PlayAllSummarises(s: Standings, models: seq<string>, ms: seq<Match>,
                                             update: (real, real) -> (real, real))
    requires Summarises(s, models, [])
    ensures Summarises(PlayAll(s, ms, update), models, ms)
  {
    if ms != [] {
      var n := |ms| - 1;
      PlayAllSummarises(s, models, ms[..n], update);
      FrontLast(ms);
      PlaySummarises(PlayAll(s, ms[..n], update), models, ms[..n], ms[n], update);
    }
  }

  /** After all matches the tally summarises the stage-1 models and the matches. */
  lemma FinalSummarises(rankings: seq<RankingRow>, responses: seq<ResponseRow>,
                        orderBy: seq<RankingRow> -> seq<RankingRow>, update: (real, real) -> (real, real))
    ensures Summarises(FinalStandings(rankings, responses, orderBy, update), Stage1Models(responses),
                       MatchesOf(rankings, orderBy))
  {
    SeedSummarises(Stage1Models(responses));
    PlayAllSummarises(Seed(Stage1Models(responses)), Stage1Models(responses), MatchesOf(rankings, orderBy), update);
  }

  /** `appearances[m]` counts the stage-1 rows of `m`. */
  lemma {:induction false} AppearanceCountsCount(models: seq<string>, m: string)
    ensures MapGet(AppearanceCounts(models), m, 0) == Occurrences(models, m)
  {
    if models != [] {
      AppearanceCountsCount(models[..|models| - 1], m);
    }
  }

  function ModelOf(r: EloRow): string {
    r.model
  }

  /** The rows of the table, one per listed model. */
  lemma TableRows(s: Standings, appearances: map<string, nat>, models: seq<string>)
    requires Distinct(models)
    ensures DistinctBy(Table(s, appearances, models), ModelOf)
    ensures forall r :: r in Table(s, appearances, models) <==> exists i :: 0 <= i < |models| && r == RowOf(s, appearances, models[i])
  {
    var t := Table(s, appearances, models);
    forall r | r in t ensures exists i :: 0 <= i < |models| && r == RowOf(s, appearances, models[i]) {
      var i :| 0 <= i < |t| && t[i] == r;
      assert r == RowOf(s, appearances, models[i]);
    }
    forall i | 0 <= i < |models| ensures RowOf(s, appearances, models[i]) in t {
      assert t[i] == RowOf(s, appearances, models[i]);
    }
  }

  /** Each returned row is the table row of a model of the final model list, and each
      model of the list has a row. */
  lemma EloRatingsRows(s: Standings, appearances: map<string, nat>)
    requires Distinct(s.order)
    ensures var r := SortDesc(Table(s, appearances, s.order), EloKey);
      SortedDesc(r, EloKey) && DistinctBy(r, ModelOf)
      && (forall i :: 0 <= i < |r| ==> r[i].model in s.order && r[i] == RowOf(s, appearances, r[i].model))
      && (forall m :: m in s.order ==> exists i :: 0 <= i < |r| && r[i].model == m)
  {
    var t := Table(s, appearances, s.order);
    var r := SortDesc(t, EloKey);
    TableRows(s, appearances, s.order);
    SortDescSorted(t, EloKey);
    SortDescDistinctBy(t, EloKey, ModelOf);
    forall i | 0 <= i < |r|
      ensures r[i].model in s.order && r[i] == RowOf(s, appearances, r[i].model)
    {
      SortDescMembers(t, EloKey, r[i]);
    }
    forall m | m in s.order ensures exists i :: 0 <= i < |r| && r[i].model == m {
      SortDescMembers(t, EloKey, RowOf(s, appearances, m));
      var i :| 0 <= i < |r| && r[i] == RowOf(s, appearances, m);
      assert r[i].model == m;
    }
  }

  /** The table of standings that summarise `models` and `ms`, sorted. */
  lemma SummaryRows(s: Standings, models: seq<string>, ms: seq<Match>, r: seq<EloRow>)
    requires Summarises(s, models, ms)
    requires r == SortDesc(Table(s, AppearanceCounts(models), s.order), EloKey)
    ensures SortedDesc(r, EloKey) && DistinctBy(r, ModelOf)
    ensures forall m :: (exists i :: 0 <= i < |r| && r[i].model == m) <==> m in models || Played(ms, m)
    ensures forall i :: 0 <= i < |r| ==>
      r[i].wins == WinsIn(ms, r[i].model) && r[i].losses == LossesIn(ms, r[i].model)
      && r[i].appearances == Occurrences(models, r[i].model)
      && r[i].elo == Round(MapGet(s.elo, r[i].model, BaseRating))
      && (!Played(ms, r[i].model) ==> r[i].elo == 1000)
  {
    EloRatingsRows(s, AppearanceCounts(models));
    forall i | 0 <= i < |r|
      ensures r[i].wins == WinsIn(ms, r[i].model) && r[i].losses == LossesIn(ms, r[i].model)
      ensures r[i].appearances == Occurrences(models, r[i].model)
      ensures r[i].elo == Round(MapGet(s.elo, r[i].model, BaseRating))
      ensures !Played(ms, r[i].model) ==> r[i].elo == 1000
    {
      SummaryRow(s, models, ms, r[i]);
    }
  }

  /** One row of the table of standings that summarise `models` and `ms`. */
  lemma SummaryRow(s: Standings, models: seq<string>, ms: seq<Match>, row: EloRow)
    requires Summarises(s, models, ms)
    requires row.model in s.order && row == RowOf(s, AppearanceCounts(models), row.model)
    ensures row.wins == WinsIn(ms, row.model) && row.losses == LossesIn(ms, row.model)
    ensures row.appearances == Occurrences(models, row.model)
    ensures row.elo == Round(MapGet(s.elo, row.model, BaseRating))
    ensures !Played(ms, row.model) ==> row.elo == 1000
  {
    AppearanceCountsCount(models, row.model);
  }

  /** The rows `calculate_elo_ratings` returns: sorted by rounded rating, highest first;
      one row per model, and a row exactly for each stage-1 model and each player; each
      row's wins and losses are its model's wins and losses in the matches, its
      appearances its number of stage-1 responses, and its rating the rounded final
      rating, which is 1000 for a model that has not played. */
  lemma EloRatingsCorrect(rankings: seq<RankingRow>, responses: seq<ResponseRow>,
                          orderBy: seq<RankingRow> -> seq<RankingRow>, update: (real, real) -> (real, real))
    ensures var r := EloRatings(rankings, responses, orderBy, update);
      var models, ms := Stage1Models(responses), MatchesOf(rankings, orderBy);
      var s := FinalStandings(rankings, responses, orderBy, update);
      SortedDesc(r, EloKey) && DistinctBy(r, ModelOf)
      && (forall m :: (exists i :: 0 <= i < |r| && r[i].model == m) <==> m in models || Played(ms, m))
      && (forall i :: 0 <= i < |r| ==>
            r[i].wins == WinsIn(ms, r[i].model) && r[i].losses == LossesIn(ms, r[i].model)
            && r[i].appearances == Occurrences(models, r[i].model)
            && r[i].elo == Round(MapGet(s.elo, r[i].model, BaseRating))
            && (!Played(ms, r[i].model) ==> r[i].elo == 1000))
  {
    FinalSummarises(rankings, responses, orderBy, update);
    SummaryRows(FinalStandings(rankings, responses, orderBy, update), Stage1Models(responses),
                MatchesOf(rankings, orderBy), EloRatings(rankings, responses, orderBy, update));
  }

  /** `x` is row `a` beating row `b`: `a` holds the lower position. */
  predicate Beats(a: RankingRow, b: RankingRow, x: Match) {
    a.rankPosition < b.rankPosition && x == Match(a.subject, b.subject)
  }

  /** `x` is a match between two of the rows `rows`. */
  ghost predicate FromRows(rows: seq<RankingRow>, x: Match) {
    exists a, b :: a in rows && b in rows && Beats(a, b, x)
  }

  /** A pair of rows gives no match on equal positions and otherwise one match, won by
      the lower position (backend/storage.py:437-442). */
  lemma MatchOfCases(a: RankingRow, b: RankingRow)
    ensures |MatchOf(a, b)| == if a.rankPosition == b.rankPosition then 0 else 1
    ensures forall x :: x in MatchOf(a, b) ==> Beats(a, b, x) || Beats(b, a, x)
  {
  }

  lemma {:induction false} RowMatchesFrom(g: seq<RankingRow>, i: nat, j: nat)
    ensures forall x :: x in RowMatches(g, i, j) ==> FromRows(g, x)
    decreases j
  {
    if j > i + 1 && j <= |g| {
      RowMatchesFrom(g, i, j - 1);
      MatchOfCases(g[i], g[j - 1]);
      forall x | x in MatchOf(g[i], g[j - 1]) ensures FromRows(g, x) {
        assert g[i] in g && g[j - 1] in g;
      }
    }
  }

  lemma {:induction false} MatchesBelowFrom(g: seq<RankingRow>, i: nat)
    ensures forall x :: x in MatchesBelow(g, i) ==> FromRows(g, x)
  {
    if i > 0 {
      MatchesBelowFrom(g, i - 1);
      RowMatchesFrom(g, i - 1, |g|);
    }
  }

  /** Every row of a group has the group's key and is one of the rows grouped. */
  lemma {:induction false} GroupsKeyed(rows: seq<RankingRow>, k: GroupKey)
    ensures forall r :: r in MapGet(Groups(rows), k, []) ==> r in rows && KeyOf(r) == k
  {
    if rows != [] {
      var n := |rows| - 1;
      GroupsKeyed(rows[..n], k);
      assert rows == rows[..n] + [rows[n]];
    }
  }

  lemma {:induction false} AllMatchesFrom(keys: seq<GroupKey>, groups: map<GroupKey, seq<RankingRow>>)
    ensures forall x :: x in AllMatches(keys, groups) ==>
      exists k :: k in keys && x in GroupMatches(MapGet(groups, k, []))
  {
    if keys != [] {
      var n := |keys| - 1;
      AllMatchesFrom(keys[..n], groups);
      assert keys == keys[..n] + [keys[n]];
    }
  }

  /** Grouping loses no row and keeps each group's rows in query order: the group of `k`
      is the subsequence of the rows with key `k` (backend/storage.py:420-422). */
  lemma {:induction false} GroupsCollect(rows: seq<RankingRow>, k: GroupKey)
    ensures MapGet(Groups(rows), k, []) == RowsWithKey(rows, k)
  {
    if rows != [] {
      GroupsCollect(rows[..|rows| - 1], k);
    }
  }

  /** Each group is visited once: the keys in `groups.items()` order are distinct. */
  lemma {:induction false} GroupKeysDistinct(rows: seq<RankingRow>)
    ensures Distinct(GroupKeys(rows))
  {
    if rows != [] {
      var n := |rows| - 1;
      GroupKeysDistinct(rows[..n]);
      if KeyOf(rows[n]) !in GroupKeys(rows[..n]) {
        DistinctSnoc(GroupKeys(rows[..n]), KeyOf(rows[n]));
      }
    }
  }

  /** The query keeps exactly the rows with a position. */
  lemma {:induction false} RankedRowsMembers(rankings: seq<RankingRow>, r: RankingRow)
    ensures r in RankedRows(rankings) <==> r in rankings && r.rankPosition != Unranked
  {
    if rankings != [] {
      var n := |rankings| - 1;
      RankedRowsMembers(rankings[..n], r);
      assert rankings == rankings[..n] + [rankings[n]];
    }
  }

  /** `x` is the match of two ranked rows of one evaluation, won by the lower position. */
  ghost predicate Decided(rankings: seq<RankingRow>, x: Match) {
    exists a, b :: a in rankings && b in rankings && a.rankPosition != Unranked && b.rankPosition != Unranked
      && KeyOf(a) == KeyOf(b) && Beats(a, b, x)
  }

  /** A match of a group of ranked rows is a decided match of the table. */
  lemma GroupMatchDecided(rankings: seq<RankingRow>, rows: seq<RankingRow>, k: GroupKey, x: Match)
    requires forall r :: r in rows ==> r in RankedRows(rankings)
    requires x in GroupMatches(MapGet(Groups(rows), k, []))
    ensures Decided(rankings, x)
  {
    var g := MapGet(Groups(rows), k, []);
    MatchesBelowFrom(g, |g|);
    GroupsKeyed(rows, k);
    var a, b :| a in g && b in g && Beats(a, b, x);
    RankedRowsMembers(rankings, a);
    RankedRowsMembers(rankings, b);
  }

  /** Every match the tally plays is between two ranked rows of the same stored
      evaluation (same message and evaluator), won by the row with the lower position;
      rows without a position (99) take no part (backend/storage.py:393-454). The query's
      ORDER BY only reorders the rows. */
  lemma MatchesAreDecided(rankings: seq<RankingRow>, orderBy: seq<RankingRow> -> seq<RankingRow>)
    requires forall rows :: multiset(orderBy(rows)) == multiset(rows)
    ensures forall x :: x in MatchesOf(rankings, orderBy) ==> Decided(rankings, x)
  {
    var rows := orderBy(RankedRows(rankings));
    assert multiset(rows) == multiset(RankedRows(rankings));
    forall r | r in rows ensures r in RankedRows(rankings) {
      assert r in multiset(rows);
    }
    AllMatchesFrom(GroupKeys(rows), Groups(rows));
    forall x | x in MatchesOf(rankings, orderBy) ensures Decided(rankings, x) {
      var k :| k in GroupKeys(rows) && x in GroupMatches(MapGet(Groups(rows), k, []));
      GroupMatchDecided(rankings, rows, k, x);
    }
  }

  function WinsOf(r: EloRow): int {
    r.wins
  }

  function LossesOf(r: EloRow): int {
    r.losses
  }

  /** The sum of `f` over `names`. */
  function SumOver(names: seq<string>, f: string -> int): int {
    if names == [] then 0 else SumOver(names[..|names| - 1], f) + f(names[|names| - 1])
  }

  lemma {:induction false} SumOverAgree(names: seq<string>, f: string -> int, g: string -> int)
    requires forall m :: m in names ==> f(m) == g(m)
    ensures SumOver(names, f) == SumOver(names, g)
  {
    if names != [] {
      var n := |names| - 1;
      assert names[n] in names;
      forall m | m in names[..n] ensures m in names {
      }
      SumOverAgree(names[..n], f, g);
    }
  }

  lemma {:induction false} SumOverZero(names: seq<string>, f: string -> int)
    requires forall m :: f(m) == 0
    ensures SumOver(names, f) == 0
  {
    if names != [] {
      SumOverZero(names[..|names| - 1], f);
    }
  }

  /** Adding one to `f` at `m0` adds the occurrences of `m0` to the sum. */
  lemma {:induction false} SumOverShift(names: seq<string>, f: string -> int, g: string -> int, m0: string)
    requires forall m :: g(m) == f(m) + if m == m0 then 1 else 0
    ensures SumOver(names, g) == SumOver(names, f) + Occurrences(names, m0)
  {
    if names != [] {
      SumOverShift(names[..|names| - 1], f, g, m0);
    }
  }

  lemma {:induction false} OccursOnce(names: seq<string>, m: string)
    requires Distinct(names) && m in names
    ensures Occurrences(names, m) == 1
  {
    var n := |names| - 1;
    if names[n] == m {
      OccursNot(names[..n], m);
    } else {
      assert m in names[..n] by {
        var i :| 0 <= i < |names| && names[i] == m;
        assert names[..n][i] == m;
      }
      OccursOnce(names[..n], m);
    }
  }

  lemma {:induction false} OccursNot(names: seq<string>, m: string)
    requires forall i :: 0 <= i < |names| ==> names[i] != m
    ensures Occurrences(names, m) == 0
  {
    if names != [] {
      OccursNot(names[..|names| - 1], m);
    }
  }

  /** Over a duplicate-free list holding every winner, the wins add up to the number of
      matches. */
  lemma {:induction false} WinsTotal(names: seq<string>, ms: seq<Match>)
    requires Distinct(names)
    requires forall k :: 0 <= k < |ms| ==> ms[k].winner in names
    ensures SumOver(names, m => WinsIn(ms, m)) == |ms|
  {
    if ms == [] {
      SumOverZero(names, m => WinsIn(ms, m));
    } else {
      var n := |ms| - 1;
      var x := ms[n];
      assert ms == ms[..n] + [x];
      WinsTotal(names, ms[..n]);
      forall m ensures WinsIn(ms, m) == WinsIn(ms[..n], m) + if m == x.winner then 1 else 0 {
        CountsSnoc(ms[..n], x, m);
      }
      SumOverShift(names, m => WinsIn(ms[..n], m), m => WinsIn(ms, m), x.winner);
      OccursOnce(names, x.winner);
    }
  }

  /** Over a duplicate-free list holding every loser, the losses add up to the number of
      matches. */
  lemma {:induction false} LossesTotal(names: seq<string>, ms: seq<Match>)
    requires Distinct(names)
    requires forall k :: 0 <= k < |ms| ==> ms[k].loser in names
    ensures SumOver(names, m => LossesIn(ms, m)) == |ms|
  {
    if ms == [] {
      SumOverZero(names, m => LossesIn(ms, m));
    } else {
      var n := |ms| - 1;
      var x := ms[n];
      assert ms == ms[..n] + [x];
      LossesTotal(names, ms[..n]);
      forall m ensures LossesIn(ms, m) == LossesIn(ms[..n], m) + if m == x.loser then 1 else 0 {
        CountsSnoc(ms[..n], x, m);
      }
      SumOverShift(names, m => LossesIn(ms[..n], m), m => LossesIn(ms, m), x.loser);
      OccursOnce(names, x.loser);
    }
  }

  /** The table's win and loss columns add up as the standings' counts do. */
  lemma {:induction false} TableSums(s: Standings, appearances: map<string, nat>, names: seq<string>)
    ensures SumOf(Table(s, appearances, names), WinsOf) == SumOver(names, m => MapGet(s.wins, m, 0))
    ensures SumOf(Table(s, appearances, names), LossesOf) == SumOver(names, m => MapGet(s.losses, m, 0))
  {
    if names != [] {
      var n := |names| - 1;
      TableSums(s, appearances, names[..n]);
      var row := RowOf(s, appearances, names[n]);
      SumOfAppend(Table(s, appearances, names[..n]), [row], WinsOf);
      SumOfAppend(Table(s, appearances, names[..n]), [row], LossesOf);
    }
  }

  /** Every match gives one win and one loss: over the returned rows, the wins and the
      losses both add up to the number of matches played (backend/storage.py:444-454). */
  lemma EloTotals(rankings: seq<RankingRow>, responses: seq<ResponseRow>,
                  orderBy: seq<RankingRow> -> seq<RankingRow>, update: (real, real) -> (real, real))
    ensures var r := EloRatings(rankings, responses, orderBy, update);
      SumOf(r, WinsOf) == |MatchesOf(rankings, orderBy)| && SumOf(r, LossesOf) == |MatchesOf(rankings, orderBy)|
  {
    var s := FinalStandings(rankings, responses, orderBy, update);
    var ms := MatchesOf(rankings, orderBy);
    FinalSummarises(rankings, responses, orderBy, update);
    SummaryTotals(s, Stage1Models(responses), ms);
  }

  lemma SummaryTotals(s: Standings, models: seq<string>, ms: seq<Match>)
    requires Summarises(s, models, ms)
    ensures var t := Table(s, AppearanceCounts(models), s.order);
      SumOf(SortDesc(t, EloKey), WinsOf) == |ms| && SumOf(SortDesc(t, EloKey), LossesOf) == |ms|
  {
    var t := Table(s, AppearanceCounts(models), s.order);
    forall k | 0 <= k < |ms| ensures ms[k].winner in s.order && ms[k].loser in s.order {
      assert Played(ms, ms[k].winner) && Played(ms, ms[k].loser);
    }
    TableSums(s, AppearanceCounts(models), s.order);
    SumOverAgree(s.order, m => MapGet(s.wins, m, 0), m => WinsIn(ms, m));
    SumOverAgree(s.order, m => MapGet(s.losses, m, 0), m => LossesIn(ms, m));
    WinsTotal(s.order, ms);
    LossesTotal(s.order, ms);
    SumOfSortDesc(t, EloKey, WinsOf);
    SumOfSortDesc(t, EloKey, LossesOf);
  }
}
