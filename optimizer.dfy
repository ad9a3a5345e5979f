/**
 * `calculate_max_pf`: the loop over the frame's team names in order of first
 * appearance, the dictionary of totals it fills, and the `pd.concat` of the
 * lineups of the teams that were not skipped.
 */
module Optimizer {
  import opened Wrappers
  import opened Frame
  import opened Lineup

  // ---------------------------------------------------------------------------
  // `df['Team Name'].unique()`

  /** The team names that occur in the frame. */
  function NamesOf(rows: seq<Row>): set<string>
  {
    set x | x in rows :: x.teamName
  }

  predicate Unique(names: seq<string>)
  {
    forall i, j :: 0 <= i < j < |names| ==> names[i] != names[j]
  }

  lemma NamesOfSnoc(rows: seq<Row>, x: Row)
    ensures NamesOf(rows + [x]) == NamesOf(rows) + {x.teamName}
  {
    assert forall y :: y in rows + [x] <==> y in rows || y == x;
  }

  /** The team names of the frame, each once, in order of first appearance. */
  function TeamNames(rows: seq<Row>): (names: seq<string>)
    ensures Unique(names)
    ensures forall n :: n in names <==> n in NamesOf(rows)
  {
    if rows == [] then []
    else
      var init, last := rows[..|rows| - 1], rows[|rows| - 1];
      var ns := TeamNames(init);
      assert rows == init + [last];
      NamesOfSnoc(init, last);
      if last.teamName in ns then ns else ns + [last.teamName]
  }

  /** Names already met in the first p rows keep their places: a name's place follows its first row. */
  lemma {:induction false} TeamNamesPrefix(rows: seq<Row>, p: nat)
    requires p <= |rows|
    ensures TeamNames(rows[..p]) <= TeamNames(rows)
    decreases |rows| - p
  {
    if p < |rows| {
      TeamNamesPrefix(rows, p + 1);
      assert rows[..p + 1][..p] == rows[..p];
    } else {
      assert rows[..p] == rows;
    }
  }

  // ---------------------------------------------------------------------------
  // The dictionary `max_pf_by_team`: keys in insertion order

  function Keys(d: seq<(string, int)>): (ks: seq<string>)
    ensures |ks| == |d| && forall i :: 0 <= i < |d| ==> ks[i] == d[i].0
  {
    if d == [] then [] else [d[0].0] + Keys(d[1..])
  }

  /** `d[k]`: the value stored under k, if any. */
  function Lookup(d: seq<(string, int)>, k: string): (r: Option<int>)
    ensures r.Some? <==> k in Keys(d)
  {
    if d == [] then None
    else if d[0].0 == k then Some(d[0].1)
    else Lookup(d[1..], k)
  }

  /** `d[k] = v`: overwrite the entry of k in place, or insert it at the end. */
  function Put(d: seq<(string, int)>, k: string, v: int): (r: seq<(string, int)>)
    ensures Lookup(r, k) == Some(v)
    ensures forall k' :: k' != k ==> Lookup(r, k') == Lookup(d, k')
    ensures k in Keys(d) ==> |r| == |d|
  {
    if d == [] then [(k, v)]
    else if d[0].0 == k then [(k, v)] + d[1..]
    else [d[0]] + Put(d[1..], k, v)
  }

  /** Storing under a new key appends it. */
  lemma {:induction false} PutFresh(d: seq<(string, int)>, k: string, v: int)
    requires k !in Keys(d)
    ensures Put(d, k, v) == d + [(k, v)]
  {
    if d != [] {
      PutFresh(d[1..], k, v);
    }
  }

  // ---------------------------------------------------------------------------
  // The team loop, as a function of the names visited so far

  /** What the team body yields for each name, in loop order: None for a skipped team. */
  function Outcomes(rows: seq<Row>, names: seq<string>): (os: seq<Option<TeamResult>>)
    ensures |os| == |names|
    ensures forall i :: 0 <= i < |names| ==> os[i] == OptimizeTeam(OfTeam(rows, names[i]), names[i])
  {
    if names == [] then []
    else
      var n := names[|names| - 1];
      Outcomes(rows, names[..|names| - 1]) + [OptimizeTeam(OfTeam(rows, n), n)]
  }

  lemma OutcomesStep(rows: seq<Row>, names: seq<string>, i: nat)
    requires i < |names|
    ensures Outcomes(rows, names[..i + 1]) == Outcomes(rows, names[..i]) + [OptimizeTeam(OfTeam(rows, names[i]), names[i])]
  {
  }

  /** The results of the teams that were not skipped, in loop order. */
  function Kept(os: seq<Option<TeamResult>>): seq<TeamResult>
  {
    if os == [] then []
    else
      var o := os[|os| - 1];
      Kept(os[..|os| - 1]) + (if o.Some? then [o.value] else [])
  }

  lemma KeptStep(os: seq<Option<TeamResult>>, o: Option<TeamResult>)
    ensures Kept(os + [o]) == Kept(os) + (if o.Some? then [o.value] else [])
  {
    assert (os + [o])[..|os|] == os;
  }

  /** One pass of the loop body: a skipped team changes nothing, a kept one is stored and appended. */
  lemma LoopStep(rows: seq<Row>, names: seq<string>, i: nat)
    requires i < |names|
    ensures var o := OptimizeTeam(OfTeam(rows, names[i]), names[i]);
      var rs, rs' := Kept(Outcomes(rows, names[..i])), Kept(Outcomes(rows, names[..i + 1]));
      (o.None? ==> rs' == rs)
      && (o.Some? ==> Totals(rs') == Put(Totals(rs), names[i], o.value.total)
                      && Frames(rs') == Frames(rs) + [o.value.lineup])
  {
    var o := OptimizeTeam(OfTeam(rows, names[i]), names[i]);
    var rs := Kept(Outcomes(rows, names[..i]));
    assert o.Some? ==> o.value.teamName == names[i] by {
    }
    OutcomesStep(rows, names, i);
    KeptStep(Outcomes(rows, names[..i]), o);
    if o.Some? {
      assert (rs + [o.value])[..|rs|] == rs;
    }
  }

  /** `max_pf_by_team` after storing every result's total under its team name. */
  function Totals(rs: seq<TeamResult>): seq<(string, int)>
  {
    if rs == [] then [] else Put(Totals(rs[..|rs| - 1]), rs[|rs| - 1].teamName, rs[|rs| - 1].total)
  }

  /** `optimal_lineups`: one frame per result. */
  function Frames(rs: seq<TeamResult>): (fs: seq<seq<Row>>)
    ensures |fs| == |rs| && forall i :: 0 <= i < |rs| ==> fs[i] == rs[i].lineup
  {
    if rs == [] then [] else Frames(rs[..|rs| - 1]) + [rs[|rs| - 1].lineup]
  }

  function Flatten(frames: seq<seq<Row>>): seq<Row>
  {
    if frames == [] then [] else Flatten(frames[..|frames| - 1]) + frames[|frames| - 1]
  }

  /** Total number of rows over all frames. */
  function RowCount(frames: seq<seq<Row>>): nat
  {
    if frames == [] then 0 else RowCount(frames[..|frames| - 1]) + |frames[|frames| - 1]|
  }

  /** Some frame of the list holds the row. */
  predicate InSomeFrame(frames: seq<seq<Row>>, x: Row)
  {
    exists i :: 0 <= i < |frames| && x in frames[i]
  }

  /** Concatenation keeps every row of every frame and adds none. */
  lemma {:induction false} FlattenContents(frames: seq<seq<Row>>)
    ensures |Flatten(frames)| == RowCount(frames)
    ensures forall x :: x in Flatten(frames) <==> InSomeFrame(frames, x)
  {
    if frames != [] {
      var init, last := frames[..|frames| - 1], frames[|frames| - 1];
      FlattenContents(init);
      forall x
        ensures x in Flatten(frames) <==> InSomeFrame(frames, x)
      {
        if InSomeFrame(init, x) {
          var i :| 0 <= i < |init| && x in init[i];
          assert frames[i] == init[i];
        }
        if InSomeFrame(frames, x) {
          var i :| 0 <= i < |frames| && x in frames[i];
          if i < |init| {
            assert init[i] == frames[i];
          }
        }
        if x in last {
          assert InSomeFrame(frames, x) by { assert x in frames[|frames| - 1]; }
        }
      }
    }
  }

  datatype Error =
    | MissingTeamNameColumn   // `df['Team Name']` on the frame of an empty list: KeyError
    | NothingToConcatenate    // `pd.concat([])` when every team was skipped: ValueError

  /** `pd.concat(frames)`: rows of the frames in order, an error on an empty list. */
  function ConcatFrames(frames: seq<seq<Row>>): (r: Result<seq<Row>, Error>)
    ensures r.Err? <==> frames == []
    ensures r.Ok? ==> |r.value| == RowCount(frames)
    ensures r.Ok? ==> forall x :: x in r.value <==> InSomeFrame(frames, x)
  {
    if frames == [] then Err(NothingToConcatenate)
    else
      FlattenContents(frames);
      Ok(Flatten(frames))
  }

  datatype Report = Report(maxPfByTeam: seq<(string, int)>, lineups: seq<Row>)

  /** What `calculate_max_pf(df)` returns or raises. */
  function MaxPf(df: seq<Row>): Result<Report, Error>
  {
    if df == [] then Err(MissingTeamNameColumn)
    else
      var rs := Kept(Outcomes(df, TeamNames(df)));
      match ConcatFrames(Frames(rs))
      case Err(e) => Err(e)
      case Ok(lineups) => Ok(Report(Totals(rs), lineups))
  }

  method CalculateMaxPf(df: seq<Row>) returns (r: Result<Report, Error>)
    ensures r == MaxPf(df)
  {
    if df == [] {
      return Err(MissingTeamNameColumn);
    }
    var teamNames := TeamNames(df);
    var maxPfByTeam: seq<(string, int)> := [];
    var optimalLineups: seq<seq<Row>> := [];
    var i := 0;
    while i < |teamNames|
      invariant 0 <= i <= |teamNames|
      invariant maxPfByTeam == Totals(Kept(Outcomes(df, teamNames[..i])))
      invariant optimalLineups == Frames(Kept(Outcomes(df, teamNames[..i])))
    {
      var teamName := teamNames[i];
      var teamDf := OfTeam(df, teamName);
      var outcome := OptimizeTeam(teamDf, teamName);
      LoopStep(df, teamNames, i);
      if outcome.Some? {
        maxPfByTeam := Put(maxPfByTeam, teamName, outcome.value.total);
        optimalLineups := optimalLineups + [outcome.value.lineup];
      }
      i := i + 1;
    }
    assert teamNames[..i] == teamNames;
    if optimalLineups == [] {
      return Err(NothingToConcatenate);
    }
    return Ok(Report(maxPfByTeam, Flatten(optimalLineups)));
  }

  // ---------------------------------------------------------------------------
  // What the loop collects

  function TeamsOf(rs: seq<TeamResult>): (names: seq<string>)
    ensures |names| == |rs| && forall i :: 0 <= i < |rs| ==> names[i] == rs[i].teamName
  {
    if rs == [] then [] else TeamsOf(rs[..|rs| - 1]) + [rs[|rs| - 1].teamName]
  }

  /** With distinct team names every store is an insertion: one entry per result, in order. */
  lemma {:induction false} TotalsInOrder(rs: seq<TeamResult>)
    requires Unique(TeamsOf(rs))
    ensures |Totals(rs)| == |rs|
    ensures forall i :: 0 <= i < |rs| ==> Totals(rs)[i] == (rs[i].teamName, rs[i].total)
  {
    if rs != [] {
      var init := rs[..|rs| - 1];
      assert TeamsOf(init) == TeamsOf(rs)[..|rs| - 1];
      TotalsInOrder(init);
      assert Keys(Totals(init)) == TeamsOf(init);
      PutFresh(Totals(init), rs[|rs| - 1].teamName, rs[|rs| - 1].total);
    }
  }

  /** Every lineup row carries its own result's team name. */
  predicate Tagged(rs: seq<TeamResult>)
  {
    forall i :: 0 <= i < |rs| ==> forall x :: x in rs[i].lineup ==> x.teamName == rs[i].teamName
  }

  /** Selecting one team's rows from the concatenated lineups gives back that team's lineup. */
  lemma {:induction false} LineupOfTeam(rs: seq<TeamResult>, i: nat)
    requires i < |rs| && Unique(TeamsOf(rs)) && Tagged(rs)
    ensures OfTeam(Flatten(Frames(rs)), rs[i].teamName) == rs[i].lineup
  {
    var init, last := rs[..|rs| - 1], rs[|rs| - 1];
    var n := rs[i].teamName;
    assert TeamsOf(init) == TeamsOf(rs)[..|rs| - 1];
    assert Frames(rs) == Frames(init) + [last.lineup];
    assert Frames(rs)[..|rs| - 1] == Frames(init);
    WhereAppend(Flatten(Frames(init)), last.lineup, TeamIs(n));
    if i == |rs| - 1 {
      WhereAll(last.lineup, TeamIs(n));
      assert OfTeam(Flatten(Frames(init)), n) == [] by {
        FlattenNames(init);
        WhereNone(Flatten(Frames(init)), TeamIs(n));
      }
    } else {
      LineupOfTeam(init, i);
      WhereNone(last.lineup, TeamIs(n));
    }
  }

  /** The rows of each named team, team after team in the order given. */
  function Grouped(rows: seq<Row>, names: seq<string>): seq<Row>
  {
    if names == [] then [] else Grouped(rows, names[..|names| - 1]) + OfTeam(rows, names[|names| - 1])
  }

  /** When each result's team selects its own lineup, the concatenation is those selections in result order. */
  lemma {:induction false} GroupedFlatten(lineups: seq<Row>, rs: seq<TeamResult>)
    requires forall i :: 0 <= i < |rs| ==> OfTeam(lineups, rs[i].teamName) == rs[i].lineup
    ensures Grouped(lineups, TeamsOf(rs)) == Flatten(Frames(rs))
  {
    if rs != [] {
      var init := rs[..|rs| - 1];
      assert TeamsOf(rs)[..|rs| - 1] == TeamsOf(init);
      assert Frames(rs)[..|rs| - 1] == Frames(init);
      GroupedFlatten(lineups, init);
    }
  }

  /** The concatenated rows of a prefix of results carry the prefix's team names. */
  lemma {:induction false} FlattenNames(rs: seq<TeamResult>)
    requires Tagged(rs)
    ensures forall x :: x in Flatten(Frames(rs)) ==> x.teamName in TeamsOf(rs)
  {
    if rs != [] {
      var init := rs[..|rs| - 1];
      assert Frames(rs)[..|rs| - 1] == Frames(init);
      FlattenNames(init);
      assert forall n :: n in TeamsOf(init) ==> n in TeamsOf(rs);
    }
  }

  /** Each outcome is labelled with its own name; kept exactly when the team is eligible. */
  predicate NamesMatch(os: seq<Option<TeamResult>>, names: seq<string>)
  {
    |os| == |names| && forall i :: 0 <= i < |os| && os[i].Some? ==> os[i].value.teamName == names[i]
  }

  lemma OutcomesNamed(rows: seq<Row>, names: seq<string>)
    ensures NamesMatch(Outcomes(rows, names), names)
    ensures forall i :: 0 <= i < |names| ==> (Outcomes(rows, names)[i].Some? <==> Eligible(Bucket(OfTeam(rows, names[i]))))
  {
    var os := Outcomes(rows, names);
    forall i | 0 <= i < |names|
      ensures os[i].Some? ==> os[i].value.teamName == names[i]
      ensures os[i].Some? <==> Eligible(Bucket(OfTeam(rows, names[i])))
    {
    }
  }

  /** The kept results are the present outcomes. */
  lemma {:induction false} KeptMembers(os: seq<Option<TeamResult>>)
    ensures forall r :: r in Kept(os) <==> Some(r) in os
  {
    if os != [] {
      var init, o := os[..|os| - 1], os[|os| - 1];
      KeptMembers(init);
      assert os == init + [o];
    }
  }

  /** A name heads a kept result exactly when some outcome under that name is present. */
  lemma {:induction false} KeptNames(os: seq<Option<TeamResult>>, names: seq<string>)
    requires NamesMatch(os, names)
    ensures forall n :: n in TeamsOf(Kept(os)) <==> exists i :: 0 <= i < |os| && os[i].Some? && names[i] == n
  {
    if os != [] {
      var init, o := os[..|os| - 1], os[|os| - 1];
      KeptNames(init, names[..|os| - 1]);
      var rs := Kept(init);
      var rs' := rs + (if o.Some? then [o.value] else []);
      assert TeamsOf(rs') == TeamsOf(rs) + (if o.Some? then [o.value.teamName] else []) by {
        if o.Some? {
          assert rs'[..|rs|] == rs;
        }
      }
      forall n | n in TeamsOf(rs')
        ensures exists i :: 0 <= i < |os| && os[i].Some? && names[i] == n
      {
        if n !in TeamsOf(rs) {
          assert os[|os| - 1].Some? && names[|os| - 1] == n;
        }
      }
      forall n | exists i :: 0 <= i < |os| && os[i].Some? && names[i] == n
        ensures n in TeamsOf(rs')
      {
        var i :| 0 <= i < |os| && os[i].Some? && names[i] == n;
        if i < |init| {
          assert init[i].Some? && names[..|os| - 1][i] == n;
        }
      }
    }
  }

  /** Distinct names give distinct kept results. */
  lemma {:induction false} KeptUnique(os: seq<Option<TeamResult>>, names: seq<string>)
    requires NamesMatch(os, names) && Unique(names)
    ensures Unique(TeamsOf(Kept(os)))
  {
    if os != [] {
      var init, o := os[..|os| - 1], os[|os| - 1];
      var ns := names[..|os| - 1];
      KeptUnique(init, ns);
      KeptNames(init, ns);
      assert os == init + [o];
      var rs := Kept(init);
      if o.Some? {
        var rs' := rs + [o.value];
        assert rs'[..|rs|] == rs;
        assert o.value.teamName !in TeamsOf(rs);
      }
    }
  }

  /** A result the team body produced for the frame. */
  predicate Sound(rows: seq<Row>, r: TeamResult)
  {
    OptimizeTeam(OfTeam(rows, r.teamName), r.teamName) == Some(r)
  }

  lemma KeptSound(rows: seq<Row>, names: seq<string>)
    ensures forall r :: r in Kept(Outcomes(rows, names)) ==> Sound(rows, r)
  {
    var os := Outcomes(rows, names);
    KeptMembers(os);
    forall r | r in Kept(os)
      ensures Sound(rows, r)
    {
      var i :| 0 <= i < |os| && os[i] == Some(r);
      SoundOf(rows, names[i], r);
    }
  }

  lemma SoundOf(rows: seq<Row>, n: string, r: TeamResult)
    requires OptimizeTeam(OfTeam(rows, n), n) == Some(r)
    ensures Sound(rows, r)
  {
  }

  /** A sound result's total is the sum of its lineup, whose rows carry the team's name. */
  lemma SoundTotal(rows: seq<Row>, r: TeamResult)
    requires Sound(rows, r)
    ensures r.total == Sum(r.lineup) && forall x :: x in r.lineup ==> x.teamName == r.teamName
  {
    TeamTotal(OfTeam(rows, r.teamName), r.teamName);
  }

  lemma SoundTagged(rows: seq<Row>, rs: seq<TeamResult>)
    requires forall r :: r in rs ==> Sound(rows, r)
    ensures Tagged(rs)
  {
    forall i | 0 <= i < |rs|
      ensures forall x :: x in rs[i].lineup ==> x.teamName == rs[i].teamName
    {
      SoundTotal(rows, rs[i]);
    }
  }

  /** A team's rows carry distinct labels when the frame's do. */
  lemma TeamLabels(rows: seq<Row>, name: string)
    requires UniqueIndices(rows)
    ensures UniqueIndices(OfTeam(rows, name))
  {
    UniqueIndicesDistinct(rows);
    WhereDistinct(rows, TeamIs(name));
    UniqueIndicesWithin(rows, OfTeam(rows, name));
  }

  /** A sound result's lineup is a legal lineup of its team. */
  lemma SoundLegal(rows: seq<Row>, r: TeamResult)
    requires UniqueIndices(rows) && Sound(rows, r)
    ensures Legal(OfTeam(rows, r.teamName), r.lineup)
  {
    var team := OfTeam(rows, r.teamName);
    TeamLabels(rows, r.teamName);
    GreedyIsLegal(team);
    GreedyRows(team);
    RetagKeeps(Concat(Pick(Bucket(team))), r.teamName);
  }

  /** No legal lineup of its team beats a sound result's total. */
  lemma SoundOptimal(rows: seq<Row>, r: TeamResult, other: seq<Row>)
    requires UniqueIndices(rows) && Sound(rows, r) && Legal(OfTeam(rows, r.teamName), other)
    ensures Sum(other) <= r.total
  {
    TeamLabels(rows, r.teamName);
    GreedyIsOptimal(OfTeam(rows, r.teamName), r.teamName, other);
  }

  // ---------------------------------------------------------------------------
  // What `calculate_max_pf` promises

  /** It raises KeyError exactly on an empty frame and ValueError exactly when every team is skipped. */
  lemma MaxPfErrors(df: seq<Row>)
    ensures MaxPf(df) == Err(MissingTeamNameColumn) <==> df == []
    ensures MaxPf(df) == Err(NothingToConcatenate)
        <==> df != [] && forall n :: n in NamesOf(df) ==> !Eligible(Bucket(OfTeam(df, n)))
  {
    if df != [] {
      var names := TeamNames(df);
      var os := Outcomes(df, names);
      var rs := Kept(os);
      KeptMembers(os);
      OutcomesNamed(df, names);
      assert |Frames(rs)| == |rs|;
      if rs == [] {
        forall n | n in NamesOf(df)
          ensures !Eligible(Bucket(OfTeam(df, n)))
        {
          var i :| 0 <= i < |names| && names[i] == n;
          assert os[i] !in os || os[i].None?;
        }
      } else {
        assert Some(rs[0]) in os;
        var i :| 0 <= i < |os| && os[i] == Some(rs[0]);
        assert names[i] in NamesOf(df) && Eligible(Bucket(OfTeam(df, names[i])));
      }
    }
  }

  /** The dictionary holds one entry per eligible team name of the frame, and no other. */
  lemma MaxPfKeys(df: seq<Row>)
    requires MaxPf(df).Ok?
    ensures var d := MaxPf(df).value.maxPfByTeam;
      Unique(Keys(d)) && forall n :: n in Keys(d) <==> n in NamesOf(df) && Eligible(Bucket(OfTeam(df, n)))
  {
    var names := TeamNames(df);
    var rs := Kept(Outcomes(df, names));
    assert Keys(Totals(rs)) == TeamsOf(rs) by {
      OutcomesNamed(df, names);
      KeptUnique(Outcomes(df, names), names);
      TotalsInOrder(rs);
    }
    assert Unique(TeamsOf(rs)) by {
      OutcomesNamed(df, names);
      KeptUnique(Outcomes(df, names), names);
    }
    KeptEligible(df, names);
  }

  /**
   * The dictionary's keys are the frame's eligible team names in order of first
   * appearance, and the lineups are those teams' rows, team after team in that order.
   */
  lemma MaxPfOrder(df: seq<Row>)
    requires MaxPf(df).Ok?
    ensures var r := MaxPf(df).value;
      Keys(r.maxPfByTeam) == EligibleNames(df, TeamNames(df)) && r.lineups == Grouped(r.lineups, Keys(r.maxPfByTeam))
  {
    var names := TeamNames(df);
    var rs := Kept(Outcomes(df, names));
    var lineups := MaxPf(df).value.lineups;
    assert lineups == Flatten(Frames(rs));
    assert Unique(TeamsOf(rs)) by {
      OutcomesNamed(df, names);
      KeptUnique(Outcomes(df, names), names);
    }
    assert Keys(Totals(rs)) == TeamsOf(rs) by {
      TotalsInOrder(rs);
    }
    KeptTeams(df, names);
    assert Tagged(rs) by {
      KeptSound(df, names);
      SoundTagged(df, rs);
    }
    forall i | 0 <= i < |rs|
      ensures OfTeam(lineups, rs[i].teamName) == rs[i].lineup
    {
      LineupOfTeam(rs, i);
    }
    GroupedFlatten(lineups, rs);
  }

  /** A team that cannot fill the required slots gets neither an entry nor any lineup rows. */
  lemma MaxPfSkipped(df: seq<Row>, n: string)
    requires MaxPf(df).Ok? && !Eligible(Bucket(OfTeam(df, n)))
    ensures n !in Keys(MaxPf(df).value.maxPfByTeam)
    ensures OfTeam(MaxPf(df).value.lineups, n) == []
  {
    var names := TeamNames(df);
    var rs := Kept(Outcomes(df, names));
    assert MaxPf(df).value.lineups == Flatten(Frames(rs));
    MaxPfKeys(df);
    assert n !in TeamsOf(rs) by {
      KeptEligible(df, names);
    }
    assert Tagged(rs) by {
      KeptSound(df, names);
      SoundTagged(df, rs);
    }
    FlattenNames(rs);
    WhereNone(Flatten(Frames(rs)), TeamIs(n));
  }

  /** `names` with the teams the guard skips filtered out, in the same order. */
  function EligibleNames(rows: seq<Row>, names: seq<string>): (kept: seq<string>)
    ensures |kept| <= |names|
    ensures forall n :: n in kept <==> n in names && Eligible(Bucket(OfTeam(rows, n)))
  {
    if names == [] then []
    else
      var n := names[|names| - 1];
      EligibleNames(rows, names[..|names| - 1]) + (if Eligible(Bucket(OfTeam(rows, n))) then [n] else [])
  }

  /** The kept results carry exactly the eligible names, in loop order. */
  lemma {:induction false} KeptTeams(rows: seq<Row>, names: seq<string>)
    ensures TeamsOf(Kept(Outcomes(rows, names))) == EligibleNames(rows, names)
  {
    if names != [] {
      var init, n := names[..|names| - 1], names[|names| - 1];
      var o := OptimizeTeam(OfTeam(rows, n), n);
      var rs := Kept(Outcomes(rows, init));
      KeptTeams(rows, init);
      assert Outcomes(rows, names) == Outcomes(rows, init) + [o];
      KeptStep(Outcomes(rows, init), o);
      if o.Some? {
        assert (rs + [o.value])[..|rs|] == rs;
        assert TeamsOf(rs + [o.value]) == TeamsOf(rs) + [n];
      }
    }
  }

  /** A name heads a kept result exactly when it was visited and its team is eligible. */
  lemma KeptEligible(rows: seq<Row>, names: seq<string>)
    ensures forall n :: n in TeamsOf(Kept(Outcomes(rows, names))) <==> n in names && Eligible(Bucket(OfTeam(rows, n)))
  {
    var os := Outcomes(rows, names);
    OutcomesNamed(rows, names);
    KeptNames(os, names);
    forall n | n in names && Eligible(Bucket(OfTeam(rows, n)))
      ensures exists i :: 0 <= i < |os| && os[i].Some? && names[i] == n
    {
      var i :| 0 <= i < |names| && names[i] == n;
      assert os[i].Some?;
    }
  }

  /** Entry i of the dictionary, with the result of the team it names. */
  lemma MaxPfEntry(df: seq<Row>, i: nat)
    requires MaxPf(df).Ok? && i < |MaxPf(df).value.maxPfByTeam|
    ensures var rs := Kept(Outcomes(df, TeamNames(df)));
      i < |rs| && Sound(df, rs[i]) && MaxPf(df).value.maxPfByTeam[i] == (rs[i].teamName, rs[i].total)
      && OfTeam(MaxPf(df).value.lineups, rs[i].teamName) == rs[i].lineup
  {
    var names := TeamNames(df);
    var os := Outcomes(df, names);
    var rs := Kept(os);
    OutcomesNamed(df, names);
    KeptUnique(os, names);
    TotalsInOrder(rs);
    KeptSound(df, names);
    SoundTagged(df, rs);
    LineupOfTeam(rs, i);
  }

  /**
   * Each stored total is the points of the team's rows in the returned lineups,
   * and those rows form a legal lineup of the team.
   */
  lemma MaxPfLineups(df: seq<Row>, i: nat)
    requires UniqueIndices(df) && MaxPf(df).Ok? && i < |MaxPf(df).value.maxPfByTeam|
    ensures var (n, v) := MaxPf(df).value.maxPfByTeam[i];
      var lineup := OfTeam(MaxPf(df).value.lineups, n);
      v == Sum(lineup) && Legal(OfTeam(df, n), lineup)
  {
    MaxPfEntry(df, i);
    var rs := Kept(Outcomes(df, TeamNames(df)));
    SoundTotal(df, rs[i]);
    SoundLegal(df, rs[i]);
  }

  /** Each stored total is the maximum over the team's legal lineups. */
  lemma MaxPfOptimal(df: seq<Row>, i: nat, other: seq<Row>)
    requires UniqueIndices(df) && MaxPf(df).Ok? && i < |MaxPf(df).value.maxPfByTeam|
    requires Legal(OfTeam(df, MaxPf(df).value.maxPfByTeam[i].0), other)
    ensures Sum(other) <= MaxPf(df).value.maxPfByTeam[i].1
  {
    MaxPfEntry(df, i);
    var rs := Kept(Outcomes(df, TeamNames(df)));
    SoundOptimal(df, rs[i], other);
  }
}
