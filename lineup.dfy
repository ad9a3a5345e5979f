/**
 * The per-team body of `calculate_max_pf`: split the team's rows into position
 * buckets, skip a team that cannot fill 1 QB, 2 RB, 3 WR, 1 TE, 1 K and 1 DEF,
 * take the top rows of each bucket, then the top 3 of the RBs, WRs and TEs
 * left over (the FLEX pool), and report the sum and the concatenated lineup.
 */
module Lineup {
  import opened Wrappers
  import opened Frame
  import opened TopN

  /** The six position buckets of one team, each in frame order. */
  datatype Buckets = Buckets(qbs: seq<Row>, rbs: seq<Row>, wrs: seq<Row>, tes: seq<Row>, ks: seq<Row>, defs: seq<Row>)

  /** `team_df[team_df['Position'] == pos]` for each of the six positions. */
  function Bucket(team: seq<Row>): Buckets
  {
    Buckets(OfPosition(team, QB), OfPosition(team, RB), OfPosition(team, WR),
            OfPosition(team, TE), OfPosition(team, K), OfPosition(team, DEF))
  }

  /** The team has enough players to meet the roster requirements. */
  predicate Eligible(b: Buckets)
  {
    !(|b.qbs| == 0 || |b.rbs| < 2 || |b.wrs| < 3 || |b.tes| == 0 || |b.ks| == 0 || |b.defs| == 0)
  }

  /** The selected rows, slot by slot. */
  datatype Picks = Picks(qb: seq<Row>, rbs: seq<Row>, wrs: seq<Row>, te: seq<Row>, k: seq<Row>, def: seq<Row>, flex: seq<Row>)

  /** The RBs, WRs and TEs whose row labels the required picks did not take, bucket after bucket. */
  function FlexPool(b: Buckets): seq<Row>
  {
    Excluding(b.rbs, Indices(NLargest(b.rbs, 2)))
    + Excluding(b.wrs, Indices(NLargest(b.wrs, 3)))
    + Excluding(b.tes, Indices(NLargest(b.tes, 1)))
  }

  /** `nlargest` of each bucket in its slot count, then the top 3 of the FLEX pool. */
  function Pick(b: Buckets): Picks
  {
    Picks(NLargest(b.qbs, 1), NLargest(b.rbs, 2), NLargest(b.wrs, 3), NLargest(b.tes, 1),
          NLargest(b.ks, 1), NLargest(b.defs, 1), NLargest(FlexPool(b), 3))
  }

  /** The required slots in `pd.concat` order: QB, RBs, WRs, TE, K, DEF. */
  function Required(p: Picks): seq<Row>
  {
    p.qb + p.rbs + p.wrs + p.te + p.k + p.def
  }

  /** The lineup frame: the required slots followed by FLEX. */
  function Concat(p: Picks): seq<Row>
  {
    Required(p) + p.flex
  }

  /** `total_points`: the slot sums added up, which is the points of the whole lineup. */
  function Total(p: Picks): (t: int)
    ensures t == Sum(Concat(p))
  {
    SumAppend(p.qb, p.rbs);
    SumAppend(p.qb + p.rbs, p.wrs);
    SumAppend(p.qb + p.rbs + p.wrs, p.te);
    SumAppend(p.qb + p.rbs + p.wrs + p.te, p.k);
    SumAppend(p.qb + p.rbs + p.wrs + p.te + p.k, p.def);
    SumAppend(Required(p), p.flex);
    Sum(p.qb) + Sum(p.rbs) + Sum(p.wrs) + Sum(p.te) + Sum(p.k) + Sum(p.def) + Sum(p.flex)
  }

  /** Overwrite the Team Name column of every row. */
  function Retag(rows: seq<Row>, name: string): (r: seq<Row>)
    ensures |r| == |rows|
    ensures forall i :: 0 <= i < |rows| ==> r[i] == rows[i].(teamName := name)
  {
    if rows == [] then [] else [rows[0].(teamName := name)] + Retag(rows[1..], name)
  }

  datatype TeamResult = TeamResult(teamName: string, total: int, lineup: seq<Row>)

  /** One iteration of the team loop: None when the team is skipped. */
  function OptimizeTeam(team: seq<Row>, name: string): (o: Option<TeamResult>)
    ensures o.Some? <==> Eligible(Bucket(team))
    ensures o.Some? ==> o.value.teamName == name
  {
    var b := Bucket(team);
    if !Eligible(b) then None
    else
      var p := Pick(b);
      Some(TeamResult(name, Total(p), Retag(Concat(p), name)))
  }

  // ---------------------------------------------------------------------------
  // Facts about the buckets, established once per team

  /** Every bucket holds rows at its own position only. */
  predicate Positioned(b: Buckets)
  {
    AllIn(b.qbs, {QB}) && AllIn(b.rbs, {RB}) && AllIn(b.wrs, {WR})
    && AllIn(b.tes, {TE}) && AllIn(b.ks, {K}) && AllIn(b.defs, {DEF})
  }

  predicate DistinctRows(b: Buckets)
  {
    Distinct(b.qbs) && Distinct(b.rbs) && Distinct(b.wrs)
    && Distinct(b.tes) && Distinct(b.ks) && Distinct(b.defs)
  }

  /** The FLEX-eligible buckets carry distinct row labels. */
  predicate Labelled(b: Buckets)
  {
    UniqueIndices(b.rbs) && UniqueIndices(b.wrs) && UniqueIndices(b.tes)
  }

  function Rows(b: Buckets): seq<Row>
  {
    b.qbs + b.rbs + b.wrs + b.tes + b.ks + b.defs
  }

  lemma BucketShape(team: seq<Row>)
    ensures Positioned(Bucket(team))
    ensures Within(Rows(Bucket(team)), team)
    ensures Distinct(team) ==> DistinctRows(Bucket(team))
    ensures UniqueIndices(team) ==> DistinctRows(Bucket(team)) && Labelled(Bucket(team))
  {
    var b := Bucket(team);
    if Distinct(team) || UniqueIndices(team) {
      UniqueIndicesDistinctIf(team);
      WhereDistinct(team, PositionIs(QB));
      WhereDistinct(team, PositionIs(RB));
      WhereDistinct(team, PositionIs(WR));
      WhereDistinct(team, PositionIs(TE));
      WhereDistinct(team, PositionIs(K));
      WhereDistinct(team, PositionIs(DEF));
      if UniqueIndices(team) {
        UniqueIndicesWithin(team, b.rbs);
        UniqueIndicesWithin(team, b.wrs);
        UniqueIndicesWithin(team, b.tes);
      }
    }
  }

  lemma UniqueIndicesDistinctIf(team: seq<Row>)
    requires Distinct(team) || UniqueIndices(team)
    ensures Distinct(team)
  {
  }

  // ---------------------------------------------------------------------------
  // Where each pick comes from

  /** A pick of `n` from a bucket at one position is drawn from that bucket and stays at that position. */
  lemma PickFacts(bucket: seq<Row>, n: nat, pos: Position)
    requires AllIn(bucket, {pos})
    ensures Within(NLargest(bucket, n), bucket) && AllIn(NLargest(bucket, n), {pos})
    ensures Within(Leftover(bucket, n), bucket) && AllIn(Leftover(bucket, n), {pos})
    ensures Distinct(bucket) ==> Distinct(NLargest(bucket, n)) && Distinct(Leftover(bucket, n))
  {
    Members(bucket, n);
    if Distinct(bucket) {
      PartitionDistinct(bucket, n);
    }
  }

  lemma PoolMembers(b: Buckets, x: Row)
    requires x in FlexPool(b)
    ensures (x in b.rbs && x !in NLargest(b.rbs, 2))
         || (x in b.wrs && x !in NLargest(b.wrs, 3))
         || (x in b.tes && x !in NLargest(b.tes, 1))
  {
    if x in NLargest(b.rbs, 2) {
      assert x.index in Indices(NLargest(b.rbs, 2));
    }
    if x in NLargest(b.wrs, 3) {
      assert x.index in Indices(NLargest(b.wrs, 3));
    }
    if x in NLargest(b.tes, 1) {
      assert x.index in Indices(NLargest(b.tes, 1));
    }
  }

  lemma FlexRow(b: Buckets, x: Row)
    requires Positioned(b) && x in Pick(b).flex
    ensures var p := Pick(b);
      x in FlexPool(b) && x.position in {RB, WR, TE}
      && x !in p.qb && x !in p.rbs && x !in p.wrs && x !in p.te && x !in p.k && x !in p.def
  {
    var p := Pick(b);
    assert x in FlexPool(b) by {
      Members(FlexPool(b), 3);
    }
    PoolMembers(b, x);
    assert x.position in {RB, WR, TE};
    assert x !in p.qb by {
      PickFacts(b.qbs, 1, QB);
    }
    assert x !in p.k by {
      PickFacts(b.ks, 1, K);
    }
    assert x !in p.def by {
      PickFacts(b.defs, 1, DEF);
    }
    assert x !in p.rbs by {
      PickFacts(b.rbs, 2, RB);
    }
    assert x !in p.wrs by {
      PickFacts(b.wrs, 3, WR);
    }
    assert x !in p.te by {
      PickFacts(b.tes, 1, TE);
    }
  }

  /**
   * The FLEX picks are RBs, WRs or TEs from the pool, and none of them is a row
   * already picked for a required slot.
   */
  lemma FlexDisjoint(b: Buckets)
    requires Positioned(b)
    ensures Within(Pick(b).flex, FlexPool(b)) && AllIn(Pick(b).flex, {RB, WR, TE})
    ensures forall x :: x in Pick(b).flex ==> x !in Required(Pick(b))
  {
    forall x | x in Pick(b).flex
      ensures x in FlexPool(b) && x.position in {RB, WR, TE} && x !in Required(Pick(b))
    {
      FlexRow(b, x);
    }
  }

  /** Each required pick takes its quota of the bucket, and nobody left in the bucket outscores a pick. */
  lemma RequiredBest(b: Buckets)
    requires DistinctRows(b) && Eligible(b)
    ensures var p := Pick(b);
      |p.qb| == 1 && |p.rbs| == 2 && |p.wrs| == 3 && |p.te| == 1 && |p.k| == 1 && |p.def| == 1
    ensures var p := Pick(b);
      OutScores(p.qb, b.qbs) && OutScores(p.rbs, b.rbs) && OutScores(p.wrs, b.wrs)
      && OutScores(p.te, b.tes) && OutScores(p.k, b.ks) && OutScores(p.def, b.defs)
  {
    PicksBest(b.qbs, 1);
    PicksBest(b.rbs, 2);
    PicksBest(b.wrs, 3);
    PicksBest(b.tes, 1);
    PicksBest(b.ks, 1);
    PicksBest(b.defs, 1);
  }

  /** FLEX takes Min(3, |pool|) rows of the pool, and nobody left in the pool outscores a FLEX pick. */
  lemma FlexBest(b: Buckets)
    requires Positioned(b) && DistinctRows(b)
    ensures |Pick(b).flex| == Min(3, |FlexPool(b)|)
    ensures OutScores(Pick(b).flex, FlexPool(b))
  {
    PoolDistinct(b);
    PicksBest(FlexPool(b), 3);
  }

  /** With unique row labels the pool is exactly what the three required picks leave over. */
  lemma PoolIsLeftovers(b: Buckets)
    requires Labelled(b)
    ensures FlexPool(b) == Leftover(b.rbs, 2) + Leftover(b.wrs, 3) + Leftover(b.tes, 1)
    ensures |b.rbs| >= 2 && |b.wrs| >= 3 && |b.tes| >= 1 ==> |FlexPool(b)| == |b.rbs| + |b.wrs| + |b.tes| - 6
  {
    ExcludingPicks(b.rbs, 2);
    ExcludingPicks(b.wrs, 3);
    ExcludingPicks(b.tes, 1);
    Sizes(b.rbs, 2);
    Sizes(b.wrs, 3);
    Sizes(b.tes, 1);
  }

  // ---------------------------------------------------------------------------
  // Counting rows by position

  const Positions: set<Position> := {QB, RB, WR, TE, K, DEF}

  /** Number of rows at a position. */
  function CountAt(s: seq<Row>, pos: Position): nat
  {
    |OfPosition(s, pos)|
  }

  lemma CountAppend(a: seq<Row>, b: seq<Row>, pos: Position)
    ensures CountAt(a + b, pos) == CountAt(a, pos) + CountAt(b, pos)
  {
    WhereAppend(a, b, PositionIs(pos));
  }

  lemma CountPiece(s: seq<Row>, at: Position, pos: Position)
    requires AllIn(s, {at})
    ensures CountAt(s, pos) == if pos == at then |s| else 0
  {
    if pos == at {
      WhereAll(s, PositionIs(pos));
    } else {
      WhereNone(s, PositionIs(pos));
    }
  }

  lemma PositionCons(x: Row, s: seq<Row>, pos: Position)
    ensures OfPosition([x] + s, pos) == (if x.position == pos then [x] else []) + OfPosition(s, pos)
  {
    assert ([x] + s)[0] == x && ([x] + s)[1..] == s;
  }

  /** One if the row is at the position, zero otherwise. */
  function OneAt(x: Row, pos: Position): nat
  {
    if x.position == pos then 1 else 0
  }

  lemma OneSplit(x: Row)
    requires x.position in Positions
    ensures OneAt(x, QB) + OneAt(x, RB) + OneAt(x, WR) + OneAt(x, TE) + OneAt(x, K) + OneAt(x, DEF) == 1
  {
  }

  lemma CountCons(x: Row, s: seq<Row>, pos: Position)
    ensures CountAt([x] + s, pos) == OneAt(x, pos) + CountAt(s, pos)
  {
    PositionCons(x, s, pos);
  }

  lemma SumAtCons(x: Row, s: seq<Row>, pos: Position)
    ensures Sum(OfPosition([x] + s, pos)) == PointsAt(x, pos) + Sum(OfPosition(s, pos))
  {
    PositionCons(x, s, pos);
    if x.position == pos {
      SumCons(x, OfPosition(s, pos));
    } else {
      assert [] + OfPosition(s, pos) == OfPosition(s, pos);
    }
  }

  /** Counting a lineup position by position accounts for every row. */
  lemma {:induction false} CountByPosition(s: seq<Row>)
    requires AllIn(s, Positions)
    ensures CountAt(s, QB) + CountAt(s, RB) + CountAt(s, WR) + CountAt(s, TE) + CountAt(s, K) + CountAt(s, DEF) == |s|
  {
    if s != [] {
      var x, t := s[0], s[1..];
      CountByPosition(t);
      assert s == [x] + t;
      OneSplit(x);
      CountCons(x, t, QB);
      CountCons(x, t, RB);
      CountCons(x, t, WR);
      CountCons(x, t, TE);
      CountCons(x, t, K);
      CountCons(x, t, DEF);
    }
  }

  /** A row's points, counted under its own position only. */
  function PointsAt(x: Row, pos: Position): int
  {
    if x.position == pos then x.points else 0
  }

  lemma PointsSplit(x: Row)
    requires x.position in Positions
    ensures PointsAt(x, QB) + PointsAt(x, RB) + PointsAt(x, WR) + PointsAt(x, TE) + PointsAt(x, K) + PointsAt(x, DEF)
         == x.points
  {
  }

  /** Summing a lineup position by position accounts for every row's points. */
  lemma {:induction false} SumByPosition(s: seq<Row>)
    requires AllIn(s, Positions)
    ensures Sum(OfPosition(s, QB)) + Sum(OfPosition(s, RB)) + Sum(OfPosition(s, WR)) + Sum(OfPosition(s, TE))
          + Sum(OfPosition(s, K)) + Sum(OfPosition(s, DEF)) == Sum(s)
  {
    if s != [] {
      var x, t := s[0], s[1..];
      SumByPosition(t);
      assert s == [x] + t;
      SumCons(x, t);
      PointsSplit(x);
      SumAtCons(x, t, QB);
      SumAtCons(x, t, RB);
      SumAtCons(x, t, WR);
      SumAtCons(x, t, TE);
      SumAtCons(x, t, K);
      SumAtCons(x, t, DEF);
    }
  }

  lemma RequiredCount(p: Picks, pos: Position)
    ensures CountAt(Required(p), pos)
         == CountAt(p.qb, pos) + CountAt(p.rbs, pos) + CountAt(p.wrs, pos) + CountAt(p.te, pos)
          + CountAt(p.k, pos) + CountAt(p.def, pos)
  {
    CountAppend(p.qb, p.rbs, pos);
    CountAppend(p.qb + p.rbs, p.wrs, pos);
    CountAppend(p.qb + p.rbs + p.wrs, p.te, pos);
    CountAppend(p.qb + p.rbs + p.wrs + p.te, p.k, pos);
    CountAppend(p.qb + p.rbs + p.wrs + p.te + p.k, p.def, pos);
  }

  /** Picking `n` rows of a bucket at position `at` contributes `n` rows at `at` and none elsewhere. */
  lemma PickCount(bucket: seq<Row>, n: nat, at: Position, pos: Position)
    requires AllIn(bucket, {at}) && n <= |bucket|
    ensures CountAt(NLargest(bucket, n), pos) == if pos == at then n else 0
  {
    PickFacts(bucket, n, at);
    Sizes(bucket, n);
    CountPiece(NLargest(bucket, n), at, pos);
  }

  lemma RequiredCountAt(b: Buckets, pos: Position)
    requires Positioned(b) && Eligible(b)
    ensures CountAt(Required(Pick(b)), pos)
         == (if pos == QB then 1 else 0) + (if pos == RB then 2 else 0) + (if pos == WR then 3 else 0)
          + (if pos == TE then 1 else 0) + (if pos == K then 1 else 0) + (if pos == DEF then 1 else 0)
  {
    RequiredCount(Pick(b), pos);
    PickCount(b.qbs, 1, QB, pos);
    PickCount(b.rbs, 2, RB, pos);
    PickCount(b.wrs, 3, WR, pos);
    PickCount(b.tes, 1, TE, pos);
    PickCount(b.ks, 1, K, pos);
    PickCount(b.defs, 1, DEF, pos);
  }

  /** The required slots hold 1 QB, 2 RB, 3 WR, 1 TE, 1 K and 1 DEF. */
  lemma RequiredCounts(b: Buckets)
    requires Positioned(b) && Eligible(b)
    ensures var r := Required(Pick(b));
      CountAt(r, QB) == 1 && CountAt(r, RB) == 2 && CountAt(r, WR) == 3
      && CountAt(r, TE) == 1 && CountAt(r, K) == 1 && CountAt(r, DEF) == 1
  {
    RequiredCountAt(b, QB);
    RequiredCountAt(b, RB);
    RequiredCountAt(b, WR);
    RequiredCountAt(b, TE);
    RequiredCountAt(b, K);
    RequiredCountAt(b, DEF);
  }

  /** Rows that are RBs, WRs or TEs count as such and nowhere else. */
  lemma CountFlexRows(f: seq<Row>)
    requires AllIn(f, {RB, WR, TE})
    ensures CountAt(f, QB) == 0 && CountAt(f, K) == 0 && CountAt(f, DEF) == 0
    ensures CountAt(f, RB) + CountAt(f, WR) + CountAt(f, TE) == |f|
  {
    CountByPosition(f);
    WhereNone(f, PositionIs(QB));
    WhereNone(f, PositionIs(K));
    WhereNone(f, PositionIs(DEF));
  }

  /** FLEX rows are RBs, WRs and TEs only. */
  lemma FlexCount(b: Buckets)
    requires Positioned(b)
    ensures var f := Pick(b).flex;
      CountAt(f, QB) == 0 && CountAt(f, K) == 0 && CountAt(f, DEF) == 0
      && CountAt(f, RB) + CountAt(f, WR) + CountAt(f, TE) == |f|
  {
    FlexDisjoint(b);
    CountFlexRows(Pick(b).flex);
  }

  // ---------------------------------------------------------------------------
  // No row twice, no row from elsewhere

  lemma PoolDistinct(b: Buckets)
    requires Positioned(b) && DistinctRows(b)
    ensures Distinct(FlexPool(b))
  {
    var r, w, t := Excluding(b.rbs, Indices(NLargest(b.rbs, 2))),
                   Excluding(b.wrs, Indices(NLargest(b.wrs, 3))),
                   Excluding(b.tes, Indices(NLargest(b.tes, 1)));
    WhereDistinct(b.rbs, LabelNotIn(Indices(NLargest(b.rbs, 2))));
    WhereDistinct(b.wrs, LabelNotIn(Indices(NLargest(b.wrs, 3))));
    WhereDistinct(b.tes, LabelNotIn(Indices(NLargest(b.tes, 1))));
    assert AllIn(r, {RB}) && AllIn(w, {WR}) && AllIn(t, {TE});
    ThreeDistinct(r, w, t);
  }

  /** Appending rows at a position the prefix does not use keeps rows distinct. */
  lemma AppendAt(a: seq<Row>, b: seq<Row>, pos: Position)
    requires Distinct(a) && Distinct(b) && AllIn(b, {pos})
    requires forall x :: x in a ==> x.position != pos
    ensures Distinct(a + b)
  {
    DistinctAppend(a, b);
  }

  lemma ThreeDistinct(r: seq<Row>, w: seq<Row>, t: seq<Row>)
    requires Distinct(r) && Distinct(w) && Distinct(t)
    requires AllIn(r, {RB}) && AllIn(w, {WR}) && AllIn(t, {TE})
    ensures Distinct(r + w + t)
  {
    AppendAt(r, w, WR);
    AppendAt(r + w, t, TE);
  }

  lemma SixDistinct(qb: seq<Row>, rbs: seq<Row>, wrs: seq<Row>, te: seq<Row>, k: seq<Row>, def: seq<Row>)
    requires Distinct(qb) && Distinct(rbs) && Distinct(wrs) && Distinct(te) && Distinct(k) && Distinct(def)
    requires AllIn(qb, {QB}) && AllIn(rbs, {RB}) && AllIn(wrs, {WR})
    requires AllIn(te, {TE}) && AllIn(k, {K}) && AllIn(def, {DEF})
    ensures Distinct(qb + rbs + wrs + te + k + def) && AllIn(qb + rbs + wrs + te + k + def, Positions)
  {
    AppendAt(qb, rbs, RB);
    AppendAt(qb + rbs, wrs, WR);
    AppendAt(qb + rbs + wrs, te, TE);
    AppendAt(qb + rbs + wrs + te, k, K);
    AppendAt(qb + rbs + wrs + te + k, def, DEF);
  }

  lemma RequiredDistinct(b: Buckets)
    requires Positioned(b) && DistinctRows(b)
    ensures var r := Required(Pick(b)); Distinct(r) && AllIn(r, Positions)
  {
    PickFacts(b.qbs, 1, QB);
    PickFacts(b.rbs, 2, RB);
    PickFacts(b.wrs, 3, WR);
    PickFacts(b.tes, 1, TE);
    PickFacts(b.ks, 1, K);
    PickFacts(b.defs, 1, DEF);
    var p := Pick(b);
    SixDistinct(p.qb, p.rbs, p.wrs, p.te, p.k, p.def);
  }

  /** No row appears twice in the lineup, and every row is at one of the six positions. */
  lemma ConcatDistinct(b: Buckets)
    requires Positioned(b) && DistinctRows(b)
    ensures Distinct(Concat(Pick(b))) && AllIn(Concat(Pick(b)), Positions)
  {
    var p := Pick(b);
    RequiredDistinct(b);
    PoolDistinct(b);
    PartitionDistinct(FlexPool(b), 3);
    FlexDisjoint(b);
    DistinctAppend(Required(p), p.flex);
  }

  /** Every lineup row comes from one of the buckets. */
  lemma ConcatWithin(b: Buckets)
    requires Positioned(b)
    ensures Within(Concat(Pick(b)), Rows(b))
  {
    PickFacts(b.qbs, 1, QB);
    PickFacts(b.rbs, 2, RB);
    PickFacts(b.wrs, 3, WR);
    PickFacts(b.tes, 1, TE);
    PickFacts(b.ks, 1, K);
    PickFacts(b.defs, 1, DEF);
    FlexDisjoint(b);
  }

  // ---------------------------------------------------------------------------
  // What OptimizeTeam reports

  lemma {:induction false} SumRetag(rows: seq<Row>, name: string)
    ensures Sum(Retag(rows, name)) == Sum(rows)
  {
    if rows != [] {
      SumRetag(rows[1..], name);
      SumCons(rows[0].(teamName := name), Retag(rows[1..], name));
    }
  }

  lemma RetagTags(rows: seq<Row>, name: string)
    ensures forall x :: x in Retag(rows, name) ==> x.teamName == name
  {
    var r := Retag(rows, name);
    forall x | x in r
      ensures x.teamName == name
    {
      var i :| 0 <= i < |r| && r[i] == x;
    }
  }

  /** Retagging rows that already carry the name changes nothing. */
  lemma RetagKeeps(rows: seq<Row>, name: string)
    requires forall x :: x in rows ==> x.teamName == name
    ensures Retag(rows, name) == rows
  {
    assert forall i :: 0 <= i < |rows| ==> rows[i].(teamName := name) == rows[i];
  }

  lemma ConcatSize(b: Buckets)
    requires Eligible(b)
    ensures |Concat(Pick(b))| == 9 + Min(3, |FlexPool(b)|)
  {
    Sizes(b.qbs, 1);
    Sizes(b.rbs, 2);
    Sizes(b.wrs, 3);
    Sizes(b.tes, 1);
    Sizes(b.ks, 1);
    Sizes(b.defs, 1);
    Sizes(FlexPool(b), 3);
  }

  /**
   * An eligible team gets an entry carrying its name whose total is the points
   * of its lineup; every lineup row is tagged with that name.
   */
  lemma TeamTotal(team: seq<Row>, name: string)
    requires Eligible(Bucket(team))
    ensures OptimizeTeam(team, name).Some?
    ensures var r := OptimizeTeam(team, name).value;
      r.teamName == name && r.total == Sum(r.lineup) && forall x :: x in r.lineup ==> x.teamName == name
  {
    var p := Pick(Bucket(team));
    SumRetag(Concat(p), name);
    RetagTags(Concat(p), name);
  }

  /** The lineup has the 9 required rows plus as many FLEX rows as the pool allows, up to 3. */
  lemma TeamSize(team: seq<Row>, name: string)
    requires Eligible(Bucket(team))
    ensures |OptimizeTeam(team, name).value.lineup| == 9 + Min(3, |FlexPool(Bucket(team))|)
    ensures UniqueIndices(team) ==>
      var b := Bucket(team);
      |OptimizeTeam(team, name).value.lineup| == Min(12, 3 + |b.rbs| + |b.wrs| + |b.tes|)
  {
    var b := Bucket(team);
    ConcatSize(b);
    if UniqueIndices(team) {
      assert Labelled(b) by { BucketShape(team); }
      assert |FlexPool(b)| == |b.rbs| + |b.wrs| + |b.tes| - 6 by { PoolIsLeftovers(b); }
    }
  }

  /** With distinct row labels in the team, no label appears twice in its lineup. */
  lemma TeamLineupUnique(team: seq<Row>, name: string)
    requires UniqueIndices(team) && Eligible(Bucket(team))
    ensures UniqueIndices(OptimizeTeam(team, name).value.lineup)
  {
    var b := Bucket(team);
    var l := Concat(Pick(b));
    BucketShape(team);
    ConcatDistinct(b);
    ConcatWithin(b);
    assert Within(l, team);
    UniqueIndicesWithin(team, l);
  }

  // ---------------------------------------------------------------------------
  // The greedy lineup is legal and no legal lineup scores more

  /**
   * A lineup that fills the same slots from the same team: rows of the team,
   * none twice, exactly one QB, K and DEF, at least 2 RB, 3 WR and 1 TE, and as
   * many RB/WR/TE rows as the nine offensive slots the team's roster can fill.
   */
  predicate Legal(team: seq<Row>, lineup: seq<Row>)
  {
    Distinct(lineup) && Within(lineup, team) && AllIn(lineup, Positions)
    && CountAt(lineup, QB) == 1 && CountAt(lineup, K) == 1 && CountAt(lineup, DEF) == 1
    && CountAt(lineup, RB) >= 2 && CountAt(lineup, WR) >= 3 && CountAt(lineup, TE) >= 1
    && CountAt(lineup, RB) + CountAt(lineup, WR) + CountAt(lineup, TE)
       == Min(9, CountAt(team, RB) + CountAt(team, WR) + CountAt(team, TE))
  }

  lemma ConcatCount(p: Picks, pos: Position)
    ensures CountAt(Concat(p), pos) == CountAt(Required(p), pos) + CountAt(p.flex, pos)
  {
    CountAppend(Required(p), p.flex, pos);
  }

  lemma FixedCounts(p: Picks)
    requires CountAt(Required(p), QB) == 1 && CountAt(Required(p), K) == 1 && CountAt(Required(p), DEF) == 1
    requires CountAt(p.flex, QB) == 0 && CountAt(p.flex, K) == 0 && CountAt(p.flex, DEF) == 0
    ensures CountAt(Concat(p), QB) == 1 && CountAt(Concat(p), K) == 1 && CountAt(Concat(p), DEF) == 1
  {
    ConcatCount(p, QB);
    ConcatCount(p, K);
    ConcatCount(p, DEF);
  }

  lemma OffenceCounts(p: Picks, n: int)
    requires CountAt(Required(p), RB) == 2 && CountAt(Required(p), WR) == 3 && CountAt(Required(p), TE) == 1
    requires CountAt(p.flex, RB) + CountAt(p.flex, WR) + CountAt(p.flex, TE) == |p.flex| == Min(3, n - 6)
    ensures var l := Concat(p);
      CountAt(l, RB) >= 2 && CountAt(l, WR) >= 3 && CountAt(l, TE) >= 1
      && CountAt(l, RB) + CountAt(l, WR) + CountAt(l, TE) == Min(9, n)
  {
    ConcatCount(p, RB);
    ConcatCount(p, WR);
    ConcatCount(p, TE);
  }

  lemma GreedyCountsRequired(b: Buckets)
    requires Positioned(b) && Eligible(b)
    ensures var l := Concat(Pick(b));
      CountAt(l, QB) == 1 && CountAt(l, K) == 1 && CountAt(l, DEF) == 1
  {
    RequiredCounts(b);
    FlexCount(b);
    FixedCounts(Pick(b));
  }

  lemma GreedyCountsFlex(b: Buckets)
    requires Positioned(b) && Labelled(b) && Eligible(b)
    ensures var l := Concat(Pick(b));
      CountAt(l, RB) >= 2 && CountAt(l, WR) >= 3 && CountAt(l, TE) >= 1
      && CountAt(l, RB) + CountAt(l, WR) + CountAt(l, TE) == Min(9, |b.rbs| + |b.wrs| + |b.tes|)
  {
    RequiredCounts(b);
    FlexCount(b);
    FlexSize(b);
    OffenceCounts(Pick(b), |b.rbs| + |b.wrs| + |b.tes|);
  }

  lemma FlexSize(b: Buckets)
    requires Labelled(b) && Eligible(b)
    ensures |Pick(b).flex| == Min(3, |b.rbs| + |b.wrs| + |b.tes| - 6)
  {
    PoolIsLeftovers(b);
    Sizes(FlexPool(b), 3);
  }

  lemma GreedyRows(team: seq<Row>)
    requires UniqueIndices(team)
    ensures var l := Concat(Pick(Bucket(team)));
      Distinct(l) && Within(l, team) && AllIn(l, Positions)
  {
    var b := Bucket(team);
    BucketShape(team);
    ConcatDistinct(b);
    ConcatWithin(b);
  }

  lemma GreedyCounts(team: seq<Row>)
    requires UniqueIndices(team) && Eligible(Bucket(team))
    ensures var l := Concat(Pick(Bucket(team)));
      CountAt(l, QB) == 1 && CountAt(l, K) == 1 && CountAt(l, DEF) == 1
      && CountAt(l, RB) >= 2 && CountAt(l, WR) >= 3 && CountAt(l, TE) >= 1
      && CountAt(l, RB) + CountAt(l, WR) + CountAt(l, TE)
         == Min(9, CountAt(team, RB) + CountAt(team, WR) + CountAt(team, TE))
  {
    var b := Bucket(team);
    BucketShape(team);
    GreedyCountsRequired(b);
    GreedyCountsFlex(b);
  }

  /** The lineup `calculate_max_pf` builds for an eligible team is a legal lineup. */
  lemma GreedyIsLegal(team: seq<Row>)
    requires UniqueIndices(team) && Eligible(Bucket(team))
    ensures Legal(team, Concat(Pick(Bucket(team))))
  {
    GreedyRows(team);
    GreedyCounts(team);
  }

  /** A legal lineup's rows at one position score no more than that many top rows of the bucket. */
  lemma BucketBound(team: seq<Row>, lineup: seq<Row>, pos: Position)
    requires Distinct(team) && Distinct(lineup) && Within(lineup, team)
    ensures CountAt(lineup, pos) <= |OfPosition(team, pos)|
    ensures Sum(OfPosition(lineup, pos)) <= Sum(NLargest(OfPosition(team, pos), CountAt(lineup, pos)))
  {
    WhereDistinct(team, PositionIs(pos));
    WhereDistinct(lineup, PositionIs(pos));
    IsBest(OfPosition(team, pos), OfPosition(lineup, pos));
  }

  /** The best a lineup playing `a` RBs, `w` WRs and `t` TEs could score, position by position. */
  function SlotTops(b: Buckets, a: nat, w: nat, t: nat): int
  {
    Sum(NLargest(b.qbs, 1)) + Sum(NLargest(b.rbs, a)) + Sum(NLargest(b.wrs, w))
    + Sum(NLargest(b.tes, t)) + Sum(NLargest(b.ks, 1)) + Sum(NLargest(b.defs, 1))
  }

  lemma CountBound(team: seq<Row>, lineup: seq<Row>, pos: Position)
    requires Distinct(team) && Distinct(lineup) && Within(lineup, team)
    ensures CountAt(lineup, pos) <= CountAt(team, pos)
  {
    BucketBound(team, lineup, pos);
  }

  /** A team with a legal lineup has every required position, and the lineup's slot counts fit its buckets. */
  lemma LegalFits(team: seq<Row>, other: seq<Row>)
    requires UniqueIndices(team) && Legal(team, other)
    ensures Eligible(Bucket(team))
    ensures var b := Bucket(team);
      2 <= CountAt(other, RB) <= |b.rbs| && 3 <= CountAt(other, WR) <= |b.wrs| && 1 <= CountAt(other, TE) <= |b.tes|
    ensures var b := Bucket(team);
      CountAt(other, RB) + CountAt(other, WR) + CountAt(other, TE) == Min(9, |b.rbs| + |b.wrs| + |b.tes|)
  {
    UniqueIndicesDistinct(team);
    CountBound(team, other, QB);
    CountBound(team, other, RB);
    CountBound(team, other, WR);
    CountBound(team, other, TE);
    CountBound(team, other, K);
    CountBound(team, other, DEF);
  }

  /** Bounds a legal lineup's points slot group by slot group. */
  lemma LegalBound(team: seq<Row>, other: seq<Row>)
    requires UniqueIndices(team) && Legal(team, other)
    ensures Sum(other) <= SlotTops(Bucket(team), CountAt(other, RB), CountAt(other, WR), CountAt(other, TE))
  {
    UniqueIndicesDistinct(team);
    BucketBound(team, other, QB);
    BucketBound(team, other, RB);
    BucketBound(team, other, WR);
    BucketBound(team, other, TE);
    BucketBound(team, other, K);
    BucketBound(team, other, DEF);
    SumByPosition(other);
  }

  lemma SlotBound(bucket: seq<Row>, n: nat, c: nat)
    requires n <= c
    ensures Sum(NLargest(bucket, c)) == Sum(NLargest(bucket, n)) + Sum(NLargest(Leftover(bucket, n), c - n))
  {
    TopN.Split(bucket, n, c);
    SumAppend(NLargest(bucket, n), NLargest(Leftover(bucket, n), c - n));
  }

  lemma LeftPick(bucket: seq<Row>, n: nat, m: nat, pos: Position)
    requires AllIn(bucket, {pos}) && Distinct(bucket)
    ensures Distinct(NLargest(Leftover(bucket, n), m)) && AllIn(NLargest(Leftover(bucket, n), m), {pos})
    ensures Within(NLargest(Leftover(bucket, n), m), Leftover(bucket, n))
  {
    PickFacts(bucket, n, pos);
    PickFacts(Leftover(bucket, n), m, pos);
  }

  lemma LeftPickSize(bucket: seq<Row>, n: nat, m: nat)
    requires n + m <= |bucket|
    ensures |NLargest(Leftover(bucket, n), m)| == m
  {
    Sizes(bucket, n);
    Sizes(Leftover(bucket, n), m);
  }

  lemma WithinThree(yr: seq<Row>, yw: seq<Row>, yt: seq<Row>, lr: seq<Row>, lw: seq<Row>, lt: seq<Row>)
    requires Within(yr, lr) && Within(yw, lw) && Within(yt, lt)
    ensures Within(yr + yw + yt, lr + lw + lt)
  {
  }

  /** The extra RBs, WRs and TEs a legal lineup can play are candidates for FLEX. */
  lemma FlexCandidates(b: Buckets, a: nat, w: nat, t: nat)
    requires Positioned(b) && DistinctRows(b) && Labelled(b)
    ensures var y := NLargest(Leftover(b.rbs, 2), a) + NLargest(Leftover(b.wrs, 3), w) + NLargest(Leftover(b.tes, 1), t);
      Distinct(y) && Within(y, FlexPool(b))
  {
    var lr, lw, lt := Leftover(b.rbs, 2), Leftover(b.wrs, 3), Leftover(b.tes, 1);
    LeftPick(b.rbs, 2, a, RB);
    LeftPick(b.wrs, 3, w, WR);
    LeftPick(b.tes, 1, t, TE);
    ThreeDistinct(NLargest(lr, a), NLargest(lw, w), NLargest(lt, t));
    WithinThree(NLargest(lr, a), NLargest(lw, w), NLargest(lt, t), lr, lw, lt);
    PoolIsLeftovers(b);
  }

  lemma FlexCandidatesSize(b: Buckets, a: nat, w: nat, t: nat)
    requires 2 + a <= |b.rbs| && 3 + w <= |b.wrs| && 1 + t <= |b.tes|
    ensures |NLargest(Leftover(b.rbs, 2), a) + NLargest(Leftover(b.wrs, 3), w) + NLargest(Leftover(b.tes, 1), t)|
         == a + w + t
  {
    LeftPickSize(b.rbs, 2, a);
    LeftPickSize(b.wrs, 3, w);
    LeftPickSize(b.tes, 1, t);
  }

  /** Any distinct rows of the pool, as many as FLEX takes, score no more than FLEX. */
  lemma PoolBound(pool: seq<Row>, y: seq<Row>)
    requires Distinct(pool) && Distinct(y) && Within(y, pool) && |y| == Min(3, |pool|)
    ensures Sum(y) <= Sum(NLargest(pool, 3))
  {
    IsBest(pool, y);
    Cap(pool, |y|, 3);
  }

  lemma MinShift(s: int)
    requires s >= 6
    ensures Min(9, s) - 6 == Min(3, s - 6)
  {
  }

  lemma SumThree(r: seq<Row>, w: seq<Row>, t: seq<Row>)
    ensures Sum(r + w + t) == Sum(r) + Sum(w) + Sum(t)
  {
    SumAppend(r, w);
    SumAppend(r + w, t);
  }

  /** The extra rows a legal lineup plays at RB, WR and TE beyond the required ones. */
  function Extras(b: Buckets, a: nat, w: nat, t: nat): seq<Row>
  {
    NLargest(Leftover(b.rbs, 2), a) + NLargest(Leftover(b.wrs, 3), w) + NLargest(Leftover(b.tes, 1), t)
  }

  lemma ExtrasSize(b: Buckets, a: nat, w: nat, t: nat)
    requires Labelled(b)
    requires 2 + a <= |b.rbs| && 3 + w <= |b.wrs| && 1 + t <= |b.tes|
    requires a + w + t + 6 == Min(9, |b.rbs| + |b.wrs| + |b.tes|)
    ensures |Extras(b, a, w, t)| == Min(3, |FlexPool(b)|)
  {
    FlexCandidatesSize(b, a, w, t);
    PoolIsLeftovers(b);
    MinShift(|b.rbs| + |b.wrs| + |b.tes|);
  }

  lemma ExtrasRows(b: Buckets, a: nat, w: nat, t: nat)
    requires Positioned(b) && DistinctRows(b) && Labelled(b)
    ensures Distinct(FlexPool(b)) && Distinct(Extras(b, a, w, t)) && Within(Extras(b, a, w, t), FlexPool(b))
  {
    FlexCandidates(b, a, w, t);
    PoolDistinct(b);
  }

  /**
   * Whatever extra RBs, WRs and TEs a legal lineup plays beyond the required
   * 2, 3 and 1 score no more than the FLEX picks.
   */
  lemma FlexBound(b: Buckets, a: nat, w: nat, t: nat)
    requires Positioned(b) && DistinctRows(b) && Labelled(b)
    requires 2 + a <= |b.rbs| && 3 + w <= |b.wrs| && 1 + t <= |b.tes|
    requires a + w + t + 6 == Min(9, |b.rbs| + |b.wrs| + |b.tes|)
    ensures Sum(Extras(b, a, w, t)) <= Sum(Pick(b).flex)
  {
    ExtrasSize(b, a, w, t);
    ExtrasRows(b, a, w, t);
    PoolBound(FlexPool(b), Extras(b, a, w, t));
  }

  lemma TopsArith(rbs: seq<Row>, wrs: seq<Row>, tes: seq<Row>, flex: seq<Row>, a: nat, w: nat, t: nat)
    requires 2 <= a && 3 <= w && 1 <= t
    requires Sum(NLargest(Leftover(rbs, 2), a - 2)) + Sum(NLargest(Leftover(wrs, 3), w - 3))
      + Sum(NLargest(Leftover(tes, 1), t - 1)) <= Sum(flex)
    ensures Sum(NLargest(rbs, a)) + Sum(NLargest(wrs, w)) + Sum(NLargest(tes, t))
         <= Sum(NLargest(rbs, 2)) + Sum(NLargest(wrs, 3)) + Sum(NLargest(tes, 1)) + Sum(flex)
  {
    var r, r0, r1 := Sum(NLargest(rbs, a)), Sum(NLargest(rbs, 2)), Sum(NLargest(Leftover(rbs, 2), a - 2));
    var v, v0, v1 := Sum(NLargest(wrs, w)), Sum(NLargest(wrs, 3)), Sum(NLargest(Leftover(wrs, 3), w - 3));
    var e, e0, e1 := Sum(NLargest(tes, t)), Sum(NLargest(tes, 1)), Sum(NLargest(Leftover(tes, 1), t - 1));
    assert r == r0 + r1 by {
      SlotBound(rbs, 2, a);
    }
    assert v == v0 + v1 by {
      SlotBound(wrs, 3, w);
    }
    assert e == e0 + e1 by {
      SlotBound(tes, 1, t);
    }
  }

  /** The greedy total reaches the position-by-position bound once FLEX covers the extras. */
  lemma TopsTotal(b: Buckets, a: nat, w: nat, t: nat)
    requires 2 <= a && 3 <= w && 1 <= t
    requires Sum(Extras(b, a - 2, w - 3, t - 1)) <= Sum(Pick(b).flex)
    ensures SlotTops(b, a, w, t) <= Total(Pick(b))
  {
    SumThree(NLargest(Leftover(b.rbs, 2), a - 2), NLargest(Leftover(b.wrs, 3), w - 3), NLargest(Leftover(b.tes, 1), t - 1));
    TopsArith(b.rbs, b.wrs, b.tes, Pick(b).flex, a, w, t);
  }

  /** The greedy picks reach the position-by-position bound of any legal split of the nine offensive slots. */
  lemma BestIsGreedy(b: Buckets, a: nat, w: nat, t: nat)
    requires Positioned(b) && DistinctRows(b) && Labelled(b)
    requires 2 <= a <= |b.rbs| && 3 <= w <= |b.wrs| && 1 <= t <= |b.tes|
    requires a + w + t == Min(9, |b.rbs| + |b.wrs| + |b.tes|)
    ensures SlotTops(b, a, w, t) <= Total(Pick(b))
  {
    var a', w', t' := a - 2, w - 3, t - 1;
    assert Sum(Extras(b, a', w', t')) <= Sum(Pick(b).flex) by {
      FlexBound(b, a', w', t');
    }
    TopsTotal(b, a, w, t);
  }

  lemma GreedyReaches(team: seq<Row>, a: nat, w: nat, t: nat)
    requires UniqueIndices(team)
    requires var b := Bucket(team); 2 <= a <= |b.rbs| && 3 <= w <= |b.wrs| && 1 <= t <= |b.tes|
    requires var b := Bucket(team); a + w + t == Min(9, |b.rbs| + |b.wrs| + |b.tes|)
    ensures SlotTops(Bucket(team), a, w, t) <= Total(Pick(Bucket(team)))
  {
    var b := Bucket(team);
    assert Positioned(b) && DistinctRows(b) && Labelled(b) by {
      BucketShape(team);
    }
    BestIsGreedy(b, a, w, t);
  }

  /** An eligible team's reported total is the greedy picks' total. */
  lemma ReportedTotal(team: seq<Row>, name: string)
    requires Eligible(Bucket(team))
    ensures OptimizeTeam(team, name) == Some(TeamResult(name, Total(Pick(Bucket(team))), Retag(Concat(Pick(Bucket(team))), name)))
  {
  }

  /**
   * Optimality: for a team whose rows carry distinct labels, no legal lineup
   * scores more than the total `calculate_max_pf` reports.
   */
  lemma GreedyIsOptimal(team: seq<Row>, name: string, other: seq<Row>)
    requires UniqueIndices(team) && Legal(team, other)
    ensures OptimizeTeam(team, name).Some?
    ensures Sum(other) <= OptimizeTeam(team, name).value.total
  {
    var b := Bucket(team);
    var a, w, t := CountAt(other, RB), CountAt(other, WR), CountAt(other, TE);
    LegalFits(team, other);
    assert Sum(other) <= SlotTops(b, a, w, t) by {
      LegalBound(team, other);
    }
    assert SlotTops(b, a, w, t) <= Total(Pick(b)) by {
      GreedyReaches(team, a, w, t);
    }
    ReportedTotal(team, name);
  }
}
