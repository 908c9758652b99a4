/** The Elo tally `calculate_elo_ratings` (backend/storage.py:385-468): every stage-2
    ranking stored in the `rankings` table is read as a series of head-to-head matches
    between the models it ranks, and the matches move the models' ratings. The two
    queries become functions of the table rows, their ordering a parameter, and the
    floating-point rating update a parameter `update`. */
module Ratings {
  import opened Common
  import opened Sorting
  import opened Storage

  /** The rating of a model that has played no match (`defaultdict(lambda: 1000.0)`). */
  const BaseRating: real := 1000.0

  /** `SELECT ... FROM rankings WHERE rank_position != 99`, in table order. */
  function RankedRows(rankings: seq<RankingRow>): seq<RankingRow> {
    if rankings == [] then []
    else
      var n := |rankings| - 1;
      RankedRows(rankings[..n]) + if rankings[n].rankPosition != Unranked then [rankings[n]] else []
  }

  /** `SELECT message_id, model FROM model_responses WHERE stage = 1`: the models of all
      stage-1 rows, in table order. */
  function Stage1Models(responses: seq<ResponseRow>): seq<string> {
    if responses == [] then []
    else
      var n := |responses| - 1;
      Stage1Models(responses[..n]) + if responses[n].stage == 1 then [responses[n].model] else []
  }

  /** The key `(message_id, evaluator_model)` of a group. */
  datatype GroupKey = GroupKey(messageId: int, evaluator: string)

  function KeyOf(r: RankingRow): GroupKey {
    GroupKey(r.messageId, r.evaluator)
  }

  /** The keys of `groups`, in the order of their first row. */
  function GroupKeys(rows: seq<RankingRow>): seq<GroupKey> {
    if rows == [] then []
    else
      var n := |rows| - 1;
      var keys := GroupKeys(rows[..n]);
      if KeyOf(rows[n]) in keys then keys else keys + [KeyOf(rows[n])]
  }

  /** `groups[key].append(r)` for every row. */
  function Groups(rows: seq<RankingRow>): map<GroupKey, seq<RankingRow>> {
    if rows == [] then map[]
    else
      var n := |rows| - 1;
      var groups := Groups(rows[..n]);
      groups[KeyOf(rows[n]) := MapGet(groups, KeyOf(rows[n]), []) + [rows[n]]]
  }

  /** The rows of `rows` with key `k`, in order. */
  function RowsWithKey(rows: seq<RankingRow>, k: GroupKey): seq<RankingRow> {
    if rows == [] then []
    else
      var n := |rows| - 1;
      RowsWithKey(rows[..n], k) + if KeyOf(rows[n]) == k then [rows[n]] else []
  }

  /** The grouping loop (backend/storage.py:420-422). */
  method GroupRows(rows: seq<RankingRow>) returns (keys: seq<GroupKey>, groups: map<GroupKey, seq<RankingRow>>)
    ensures keys == GroupKeys(rows) && groups == Groups(rows)
  {
    keys, groups := [], map[];
    var i := 0;
    while i < |rows|
      invariant 0 <= i <= |rows|
      invariant keys == GroupKeys(rows[..i]) && groups == Groups(rows[..i])
    {
      assert rows[..i + 1][..i] == rows[..i];
      var key := KeyOf(rows[i]);
      if key !in groups {
        GroupKeysAreGroups(rows[..i], key);
        keys := keys + [key];
        groups := groups[key := []];
      } else {
        GroupKeysAreGroups(rows[..i], key);
      }
      groups := groups[key := groups[key] + [rows[i]]];
      i := i + 1;
    }
    assert rows[..i] == rows;
  }

  /** The keys listed are exactly the keys of the dictionary. */
  lemma {:induction false} GroupKeysAreGroups(rows: seq<RankingRow>, k: GroupKey)
    ensures k in GroupKeys(rows) <==> k in Groups(rows)
  {
    if rows != [] {
      GroupKeysAreGroups(rows[..|rows| - 1], k);
    }
  }

  /** A decided pair: the model ranked higher and the model ranked lower. */
  datatype Match = Match(winner: string, loser: string)

  /** The pair of rows `a` (earlier) and `b` (later) of a group: nothing on equal
      positions, otherwise a match won by the lower position (backend/storage.py:431-442). */
  function MatchOf(a: RankingRow, b: RankingRow): seq<Match> {
    if a.rankPosition == b.rankPosition then []
    else if a.rankPosition < b.rankPosition then [Match(a.subject, b.subject)]
    else [Match(b.subject, a.subject)]
  }

  /** The index pairs `(i, i + 1)`, ..., `(i, j - 1)`: the inner loop up to `j`. */
  function RowPairs(i: nat, j: nat): seq<(int, int)>
    decreases j
  {
    if j <= i + 1 then [] else RowPairs(i, j - 1) + [(i, j - 1)]
  }

  /** The index pairs the nested loops over `n` rows visit before `i`. */
  function PairsBelow(n: nat, i: nat): seq<(int, int)> {
    if i == 0 then [] else PairsBelow(n, i - 1) + RowPairs(i - 1, n)
  }

  /** The index pairs of `for i in range(n): for j in range(i + 1, n)`, in that order. */
  function Pairs(n: nat): seq<(int, int)> {
    PairsBelow(n, n)
  }

  /** The matches of row `i` against rows `i + 1`, ..., `j - 1` of group `g`: the inner
      loop up to `j`. */
  function RowMatches(g: seq<RankingRow>, i: nat, j: nat): seq<Match>
    decreases j
  {
    if j <= i + 1 || j > |g| then [] else RowMatches(g, i, j - 1) + MatchOf(g[i], g[j - 1])
  }

  /** The matches of rows `0`, ..., `i - 1` of group `g`: the outer loop up to `i`. */
  function MatchesBelow(g: seq<RankingRow>, i: nat): seq<Match> {
    if i == 0 then [] else MatchesBelow(g, i - 1) + RowMatches(g, i - 1, |g|)
  }

  /** The matches of one group. */
  function GroupMatches(g: seq<RankingRow>): seq<Match> {
    MatchesBelow(g, |g|)
  }

  /** The match of one index pair of group `g`. */
  function PairMatch(g: seq<RankingRow>, p: (int, int)): seq<Match> {
    if 0 <= p.0 < |g| && 0 <= p.1 < |g| then MatchOf(g[p.0], g[p.1]) else []
  }

  /** The matches of the pairs `ps` of group `g`, in order. */
  function MatchesAt(g: seq<RankingRow>, ps: seq<(int, int)>): seq<Match> {
    if ps == [] then [] else MatchesAt(g, ps[..|ps| - 1]) + PairMatch(g, ps[|ps| - 1])
  }

  /** The matches of the groups `keys`, group after group. */
  function AllMatches(keys: seq<GroupKey>, groups: map<GroupKey, seq<RankingRow>>): seq<Match> {
    if keys == [] then []
    else
      var n := |keys| - 1;
      AllMatches(keys[..n], groups) + GroupMatches(MapGet(groups, keys[n], []))
  }

  /** The `elo`, `wins` and `losses` dictionaries; `order` is the key order of `elo`. */
  datatype Standings = Standings(order: seq<string>, elo: map<string, real>, wins: map<string, nat>,
                                 losses: map<string, nat>)

  /** A read `elo[m]`, which enters `m` at the base rating when it is new. */
  function Touch(s: Standings, m: string): Standings {
    if m in s.elo then s else s.(order := s.order + [m], elo := s.elo[m := BaseRating])
  }

  /** One match (backend/storage.py:444-454): both ratings are read, entering new models
      winner first, and replaced by what `update` makes of them; the winner gains a win
      and the loser a loss. */
  function Play(s: Standings, x: Match, update: (real, real) -> (real, real)): Standings {
    var t := Touch(Touch(s, x.winner), x.loser);
    var rated := update(MapGet(t.elo, x.winner, BaseRating), MapGet(t.elo, x.loser, BaseRating));
    Standings(t.order, t.elo[x.winner := rated.0][x.loser := rated.1],
              t.wins[x.winner := MapGet(t.wins, x.winner, 0) + 1],
              t.losses[x.loser := MapGet(t.losses, x.loser, 0) + 1])
  }

  function PlayAll(s: Standings, ms: seq<Match>, update: (real, real) -> (real, real)): Standings {
    if ms == [] then s else Play(PlayAll(s, ms[..|ms| - 1], update), ms[|ms| - 1], update)
  }

  /** The standings after the appearance loop: every stage-1 model at the base rating. */
  function Seed(models: seq<string>): Standings {
    if models == [] then Standings([], map[], map[], map[]) else Touch(Seed(models[..|models| - 1]), models[|models| - 1])
  }

  /** `appearances[m] += 1` for every stage-1 row. */
  function AppearanceCounts(models: seq<string>): map<string, nat> {
    if models == [] then map[]
    else
      var n := |models| - 1;
      var a := AppearanceCounts(models[..n]);
      a[models[n] := MapGet(a, models[n], 0) + 1]
  }

  /** Python's `round` of a float to an int: to the nearest integer, halves to the even
      one. */
  function Round(x: real): (r: int)
    ensures x - 0.5 <= r as real <= x + 0.5
  {
    var f := x.Floor;
    var d := x - f as real;
    if d < 0.5 then f else if d > 0.5 then f + 1 else if f % 2 == 0 then f else f + 1
  }

  /** One output dictionary. */
  datatype EloRow = EloRow(model: string, elo: int, wins: nat, losses: nat, appearances: nat)

  function RowOf(s: Standings, appearances: map<string, nat>, m: string): EloRow {
    EloRow(m, Round(MapGet(s.elo, m, BaseRating)), MapGet(s.wins, m, 0), MapGet(s.losses, m, 0),
           MapGet(appearances, m, 0))
  }

  /** The output rows, in the key order of `elo`. */
  function Table(s: Standings, appearances: map<string, nat>, models: seq<string>): (r: seq<EloRow>)
    ensures |r| == |models|
    ensures forall i :: 0 <= i < |models| ==> r[i] == RowOf(s, appearances, models[i])
  {
    if models == [] then [] else Table(s, appearances, models[..|models| - 1]) + [RowOf(s, appearances, models[|models| - 1])]
  }

  function EloKey(r: EloRow): real {
    r.elo as real
  }

  /** The matches the tally plays, for the ranked rows in the order of the query. */
  function MatchesOf(rankings: seq<RankingRow>, orderBy: seq<RankingRow> -> seq<RankingRow>): seq<Match> {
    var rows := orderBy(RankedRows(rankings));
    AllMatches(GroupKeys(rows), Groups(rows))
  }

  /** The standings after all matches. */
  function FinalStandings(rankings: seq<RankingRow>, responses: seq<ResponseRow>,
                          orderBy: seq<RankingRow> -> seq<RankingRow>, update: (real, real) -> (real, real))
    : Standings
  {
    PlayAll(Seed(Stage1Models(responses)), MatchesOf(rankings, orderBy), update)
  }

  /** What `calculate_elo_ratings` returns. */
  function EloRatings(rankings: seq<RankingRow>, responses: seq<ResponseRow>,
                      orderBy: seq<RankingRow> -> seq<RankingRow>, update: (real, real) -> (real, real))
    : seq<EloRow>
  {
    var s := FinalStandings(rankings, responses, orderBy, update);
    SortDesc(Table(s, AppearanceCounts(Stage1Models(responses)), s.order), EloKey)
  }

  /** One match on the dictionaries (backend/storage.py:441-454). */
  method PlayMatch(order: seq<string>, elo: map<string, real>, wins: map<string, nat>, losses: map<string, nat>,
                   winner: string, loser: string, update: (real, real) -> (real, real))
    returns (order': seq<string>, elo': map<string, real>, wins': map<string, nat>, losses': map<string, nat>)
    ensures Standings(order', elo', wins', losses') == Play(Standings(order, elo, wins, losses), Match(winner, loser), update)
  {
    order', elo' := order, elo;
    if winner !in elo' {
      order', elo' := order' + [winner], elo'[winner := BaseRating];
    }
    var ratingW := elo'[winner];
    if loser !in elo' {
      order', elo' := order' + [loser], elo'[loser := BaseRating];
    }
    var ratingL := elo'[loser];
    var rated := update(ratingW, ratingL);
    elo' := elo'[winner := rated.0][loser := rated.1];
    wins' := wins[winner := MapGet(wins, winner, 0) + 1];
    losses' := losses[loser := MapGet(losses, loser, 0) + 1];
  }

  lemma PlayAllSnoc(s: Standings, ms: seq<Match>, x: Match, update: (real, real) -> (real, real))
    ensures PlayAll(s, ms + [x], update) == Play(PlayAll(s, ms, update), x, update)
  {
    assert (ms + [x])[..|ms|] == ms;
  }

  lemma {:induction false} PlayAllAppend(s: Standings, a: seq<Match>, b: seq<Match>, update: (real, real) -> (real, real))
    ensures PlayAll(s, a + b, update) == PlayAll(PlayAll(s, a, update), b, update)
    decreases |b|
  {
    if b == [] {
      assert a + b == a;
    } else {
      var b' := b[..|b| - 1];
      assert (a + b)[..|a + b| - 1] == a + b';
      PlayAllAppend(s, a, b', update);
    }
  }

  lemma MatchesAtSnoc(g: seq<RankingRow>, ps: seq<(int, int)>, p: (int, int))
    ensures MatchesAt(g, ps + [p]) == MatchesAt(g, ps) + PairMatch(g, p)
  {
    assert (ps + [p])[..|ps|] == ps;
  }

  lemma {:induction false} MatchesAtAppend(g: seq<RankingRow>, a: seq<(int, int)>, b: seq<(int, int)>)
    ensures MatchesAt(g, a + b) == MatchesAt(g, a) + MatchesAt(g, b)
    decreases |b|
  {
    if b == [] {
      assert a + b == a;
    } else {
      var b', p := b[..|b| - 1], b[|b| - 1];
      assert a + b == (a + b') + [p] && b == b' + [p];
      MatchesAtSnoc(g, a + b', p);
      MatchesAtSnoc(g, b', p);
      MatchesAtAppend(g, a, b');
    }
  }

  /** The inner loop visits the pairs `(i, i + 1)`, ..., `(i, j - 1)`. */
  lemma {:induction false} RowMatchesArePairs(g: seq<RankingRow>, i: nat, j: nat)
    requires j <= |g|
    ensures RowMatches(g, i, j) == MatchesAt(g, RowPairs(i, j))
    decreases j
  {
    if j > i + 1 {
      RowMatchesArePairs(g, i, j - 1);
      MatchesAtSnoc(g, RowPairs(i, j - 1), (i, j - 1));
    }
  }

  /** The outer loop up to `i` visits the pairs of `PairsBelow`. */
  lemma MatchesBelowArePairs(g: seq<RankingRow>, i: nat)
    ensures MatchesBelow(g, i) == MatchesAt(g, PairsBelow(|g|, i))
  {
    var k := 0;
    while k < i
      invariant k <= i
      invariant MatchesBelow(g, k) == MatchesAt(g, PairsBelow(|g|, k))
    {
      MatchesBelowStep(g, k);
      k := k + 1;
    }
  }

  lemma MatchesAtJoin(g: seq<RankingRow>, a: seq<(int, int)>, b: seq<(int, int)>, ma: seq<Match>, mb: seq<Match>)
    requires ma == MatchesAt(g, a) && mb == MatchesAt(g, b)
    ensures ma + mb == MatchesAt(g, a + b)
  {
    MatchesAtAppend(g, a, b);
  }

  lemma MatchesBelowStep(g: seq<RankingRow>, k: nat)
    requires MatchesBelow(g, k) == MatchesAt(g, PairsBelow(|g|, k))
    ensures MatchesBelow(g, k + 1) == MatchesAt(g, PairsBelow(|g|, k + 1))
  {
    RowMatchesArePairs(g, k, |g|);
    MatchesAtJoin(g, PairsBelow(|g|, k), RowPairs(k, |g|), MatchesBelow(g, k), RowMatches(g, k, |g|));
  }

  /** A group's matches are those of its index pairs `Pairs(|g|)`, in order. */
  lemma GroupMatchesArePairs(g: seq<RankingRow>)
    ensures GroupMatches(g) == MatchesAt(g, Pairs(|g|))
  {
    MatchesBelowArePairs(g, |g|);
  }

  /** `(a, b)` is among the pairs of row `i` up to `j` exactly when `a` is `i` and `b`
      lies strictly between `i` and `j`. */
  lemma {:induction false} RowPairsMembers(i: nat, j: nat, p: (int, int))
    ensures p in RowPairs(i, j) <==> p.0 == i && i < p.1 < j
    decreases j
  {
    if j > i + 1 {
      RowPairsMembers(i, j - 1, p);
    }
  }

  lemma {:induction false} RowPairsDistinct(i: nat, j: nat)
    ensures Distinct(RowPairs(i, j))
    decreases j
  {
    if j > i + 1 {
      RowPairsDistinct(i, j - 1);
      RowPairsMembers(i, j - 1, (i, j - 1));
      DistinctSnoc(RowPairs(i, j - 1), (i, j - 1));
    }
  }

  lemma DistinctSnoc<T>(s: seq<T>, x: T)
    requires Distinct(s) && x !in s
    ensures Distinct(s + [x])
  {
  }

  lemma {:induction false} PairsBelowMembers(n: nat, i: nat, p: (int, int))
    ensures p in PairsBelow(n, i) <==> 0 <= p.0 < i && p.0 < p.1 < n
  {
    if i > 0 {
      PairsBelowMembers(n, i - 1, p);
      RowPairsMembers(i - 1, n, p);
    }
  }

  lemma {:induction false} PairsBelowDistinct(n: nat, i: nat)
    ensures Distinct(PairsBelow(n, i))
  {
    if i > 0 {
      PairsBelowDistinct(n, i - 1);
      RowPairsDistinct(i - 1, n);
      RowPairsNew(n, i - 1);
      DistinctAppend(PairsBelow(n, i - 1), RowPairs(i - 1, n));
    }
  }

  /** The pairs of row `i` are not among those of the rows before it. */
  lemma RowPairsNew(n: nat, i: nat)
    ensures forall k :: 0 <= k < |RowPairs(i, n)| ==> RowPairs(i, n)[k] !in PairsBelow(n, i)
  {
    var row := RowPairs(i, n);
    forall k | 0 <= k < |row| ensures row[k] !in PairsBelow(n, i) {
      RowPairsMembers(i, n, row[k]);
      PairsBelowMembers(n, i, row[k]);
    }
  }

  lemma DistinctAppend<T>(a: seq<T>, b: seq<T>)
    requires Distinct(a) && Distinct(b)
    requires forall k :: 0 <= k < |b| ==> b[k] !in a
    ensures Distinct(a + b)
  {
    forall i, j | 0 <= i < j < |a + b| ensures (a + b)[i] != (a + b)[j] {
      if j < |a| {
        assert (a + b)[i] == a[i] && (a + b)[j] == a[j];
      } else if i < |a| {
        assert (a + b)[i] == a[i] && (a + b)[j] == b[j - |a|];
      } else {
        assert (a + b)[i] == b[i - |a|] && (a + b)[j] == b[j - |a|];
      }
    }
  }

  /** The nested loops over a group of `n` rows visit each pair `i < j < n` of
      positions exactly once (backend/storage.py:429-430). */
  lemma EachPairOnce(n: nat)
    ensures forall p :: p in Pairs(n) <==> 0 <= p.0 < p.1 < n
    ensures Distinct(Pairs(n))
  {
    forall p ensures p in Pairs(n) <==> 0 <= p.0 < p.1 < n {
      PairsBelowMembers(n, n, p);
    }
    PairsBelowDistinct(n, n);
  }

  lemma PlayOne(s: Standings, x: Match, update: (real, real) -> (real, real))
    ensures PlayAll(s, [x], update) == Play(s, x, update)
  {
    assert [x][..0] == [];
  }

  /** The inner loop over `j` for row `i` of a group (backend/storage.py:430-454). */
  method PlayRow(order: seq<string>, elo: map<string, real>, wins: map<string, nat>, losses: map<string, nat>,
                 ranks: seq<RankingRow>, i: nat, update: (real, real) -> (real, real))
    returns (order': seq<string>, elo': map<string, real>, wins': map<string, nat>, losses': map<string, nat>)
    requires i < |ranks|
    ensures Standings(order', elo', wins', losses')
         == PlayAll(Standings(order, elo, wins, losses), RowMatches(ranks, i, |ranks|), update)
  {
    ghost var s0 := Standings(order, elo, wins, losses);
    order', elo', wins', losses' := order, elo, wins, losses;
    var j := i + 1;
    while j < |ranks|
      invariant i + 1 <= j <= |ranks|
      invariant Standings(order', elo', wins', losses') == PlayAll(s0, RowMatches(ranks, i, j), update)
    {
      order', elo', wins', losses' := PlayNext(s0, order', elo', wins', losses', ranks, i, j, update);
      j := j + 1;
    }
    assert j == |ranks|;
  }

  /** One step of the inner loop: the pair of rows `i` and `j`. */
  method PlayNext(ghost s0: Standings, order: seq<string>, elo: map<string, real>, wins: map<string, nat>,
                  losses: map<string, nat>, ranks: seq<RankingRow>, i: nat, j: nat, update: (real, real) -> (real, real))
    returns (order': seq<string>, elo': map<string, real>, wins': map<string, nat>, losses': map<string, nat>)
    requires i < j < |ranks|
    requires Standings(order, elo, wins, losses) == PlayAll(s0, RowMatches(ranks, i, j), update)
    ensures Standings(order', elo', wins', losses') == PlayAll(s0, RowMatches(ranks, i, j + 1), update)
  {
    order', elo', wins', losses' := PlayPair(order, elo, wins, losses, ranks[i], ranks[j], update);
    PlayRowStep(s0, ranks, i, j, Standings(order, elo, wins, losses), Standings(order', elo', wins', losses'), update);
  }

  lemma PlayRowStep(s0: Standings, ranks: seq<RankingRow>, i: nat, j: nat, before: Standings, after: Standings,
                    update: (real, real) -> (real, real))
    requires i < j < |ranks|
    requires before == PlayAll(s0, RowMatches(ranks, i, j), update)
    requires after == PlayAll(before, MatchOf(ranks[i], ranks[j]), update)
    ensures after == PlayAll(s0, RowMatches(ranks, i, j + 1), update)
  {
    PlayAllAppend(s0, RowMatches(ranks, i, j), MatchOf(ranks[i], ranks[j]), update);
  }

  /** One pair of a group (backend/storage.py:431-454): skipped on equal positions,
      otherwise played with the lower position as the winner. */
  method PlayPair(order: seq<string>, elo: map<string, real>, wins: map<string, nat>, losses: map<string, nat>,
                  a: RankingRow, b: RankingRow, update: (real, real) -> (real, real))
    returns (order': seq<string>, elo': map<string, real>, wins': map<string, nat>, losses': map<string, nat>)
    ensures Standings(order', elo', wins', losses')
         == PlayAll(Standings(order, elo, wins, losses), MatchOf(a, b), update)
  {
    var rankA, rankB := a.rankPosition, b.rankPosition;
    if rankA == rankB {
      return order, elo, wins, losses;
    }
    var winner := if rankA < rankB then a.subject else b.subject;
    var loser := if rankA < rankB then b.subject else a.subject;
    PlayOne(Standings(order, elo, wins, losses), Match(winner, loser), update);
    order', elo', wins', losses' := PlayMatch(order, elo, wins, losses, winner, loser, update);
  }

  /** The pairs loop over one group (backend/storage.py:428-454). */
  method PlayGroup(order: seq<string>, elo: map<string, real>, wins: map<string, nat>, losses: map<string, nat>,
                   ranks: seq<RankingRow>, update: (real, real) -> (real, real))
    returns (order': seq<string>, elo': map<string, real>, wins': map<string, nat>, losses': map<string, nat>)
    ensures Standings(order', elo', wins', losses')
         == PlayAll(Standings(order, elo, wins, losses), GroupMatches(ranks), update)
  {
    ghost var s0 := Standings(order, elo, wins, losses);
    order', elo', wins', losses' := order, elo, wins, losses;
    var n := |ranks|;
    var i := 0;
    while i < n
      invariant 0 <= i <= n
      invariant Standings(order', elo', wins', losses') == PlayAll(s0, MatchesBelow(ranks, i), update)
    {
      PlayAllAppend(s0, MatchesBelow(ranks, i), RowMatches(ranks, i, n), update);
      order', elo', wins', losses' := PlayRow(order', elo', wins', losses', ranks, i, update);
      i := i + 1;
    }
  }

  /** The loop over the groups (backend/storage.py:426-454). */
  method PlayGroups(order: seq<string>, elo: map<string, real>, wins: map<string, nat>, losses: map<string, nat>,
                    keys: seq<GroupKey>, groups: map<GroupKey, seq<RankingRow>>, update: (real, real) -> (real, real))
    returns (order': seq<string>, elo': map<string, real>, wins': map<string, nat>, losses': map<string, nat>)
    requires forall k :: k in keys ==> k in groups
    ensures Standings(order', elo', wins', losses')
         == PlayAll(Standings(order, elo, wins, losses), AllMatches(keys, groups), update)
  {
    ghost var s0 := Standings(order, elo, wins, losses);
    order', elo', wins', losses' := order, elo, wins, losses;
    var k := 0;
    while k < |keys|
      invariant 0 <= k <= |keys|
      invariant Standings(order', elo', wins', losses') == PlayAll(s0, AllMatches(keys[..k], groups), update)
    {
      assert keys[..k + 1][..k] == keys[..k];
      PlayAllAppend(s0, AllMatches(keys[..k], groups), GroupMatches(groups[keys[k]]), update);
      order', elo', wins', losses' := PlayGroup(order', elo', wins', losses', groups[keys[k]], update);
      k := k + 1;
    }
    assert keys[..k] == keys;
  }

  /** The appearance loop (backend/storage.py:414-417). */
  method SeedStandings(stage1Models: seq<string>)
    returns (order: seq<string>, elo: map<string, real>, appearances: map<string, nat>)
    ensures Standings(order, elo, map[], map[]) == Seed(stage1Models)
    ensures appearances == AppearanceCounts(stage1Models)
  {
    order, elo, appearances := [], map[], map[];
    var i := 0;
    while i < |stage1Models|
      invariant 0 <= i <= |stage1Models|
      invariant Standings(order, elo, map[], map[]) == Seed(stage1Models[..i])
      invariant appearances == AppearanceCounts(stage1Models[..i])
    {
      assert stage1Models[..i + 1][..i] == stage1Models[..i];
      var model := stage1Models[i];
      appearances := appearances[model := MapGet(appearances, model, 0) + 1];
      if model !in elo {
        order, elo := order + [model], elo[model := BaseRating];
      }
      i := i + 1;
    }
    assert stage1Models[..i] == stage1Models;
  }

  /** The loop building the output dictionaries (backend/storage.py:456-464). */
  method TableRowsOf(order: seq<string>, elo: map<string, real>, wins: map<string, nat>, losses: map<string, nat>,
                     appearances: map<string, nat>)
    returns (results: seq<EloRow>)
    ensures results == Table(Standings(order, elo, wins, losses), appearances, order)
  {
    results := [];
    var m := 0;
    while m < |order|
      invariant 0 <= m <= |order|
      invariant results == Table(Standings(order, elo, wins, losses), appearances, order[..m])
    {
      assert order[..m + 1][..m] == order[..m];
      var model := order[m];
      results := results + [EloRow(model, Round(MapGet(elo, model, BaseRating)), MapGet(wins, model, 0),
                                   MapGet(losses, model, 0), MapGet(appearances, model, 0))];
      m := m + 1;
    }
    assert order[..m] == order;
  }

  /** `calculate_elo_ratings` on the rows of the two tables. */
  method CalculateEloRatings(rankings: seq<RankingRow>, responses: seq<ResponseRow>,
                             orderBy: seq<RankingRow> -> seq<RankingRow>, update: (real, real) -> (real, real))
    returns (results: seq<EloRow>)
    ensures results == EloRatings(rankings, responses, orderBy, update)
  {
    var rankingRows := orderBy(RankedRows(rankings));
    var order, elo, appearances := SeedStandings(Stage1Models(responses));
    var keys, groups := GroupRows(rankingRows);
    forall k | k in keys ensures k in groups {
      GroupKeysAreGroups(rankingRows, k);
    }
    var wins: map<string, nat>, losses: map<string, nat>;
    order, elo, wins, losses := PlayGroups(order, elo, map[], map[], keys, groups, update);
    results := TableRowsOf(order, elo, wins, losses, appearances);
    results := SortDesc(results, EloKey);
  }
}
