/**
 * `process_rosters_and_matchups` up to the optimizer's result: build the two
 * dictionaries, run the roster loop, turn the player records into the frame
 * `pd.DataFrame(data)` and call `calculate_max_pf` on it. The four API
 * responses are parameters; writing the CSV files is not part of this model.
 */
module Pipeline {
  import opened Wrappers
  import opened Frame
  import opened Lineup
  import opened Optimizer
  import opened Rosters

  /** The six position strings the optimizer selects on. */
  predicate SlotName(s: string)
  {
    s == "QB" || s == "RB" || s == "WR" || s == "TE" || s == "K" || s == "DEF"
  }

  /**
   * The Position column as the optimizer compares it. Parsing keeps the
   * column's text, and only the six slot names parse as slots, so
   * `df['Position'] == 'QB'` holds exactly for the rows parsed as QB.
   */
  function PositionOf(s: string): (p: Position)
    ensures PositionText(p) == s
    ensures p.Other? <==> !SlotName(s)
  {
    if s == "QB" then QB
    else if s == "RB" then RB
    else if s == "WR" then WR
    else if s == "TE" then TE
    else if s == "K" then K
    else if s == "DEF" then DEF
    else Other(s)
  }

  function PositionText(p: Position): string
  {
    match p
    case QB => "QB"
    case RB => "RB"
    case WR => "WR"
    case TE => "TE"
    case K => "K"
    case DEF => "DEF"
    case Other(text) => text
  }

  /** One record as a frame row with label i. */
  function RowOf(i: nat, r: PlayerRecord): Row
  {
    Row(i, r.teamName, r.teamId, r.player, PositionOf(r.position), r.points)
  }

  function RecordOf(row: Row): PlayerRecord
  {
    PlayerRecord(row.teamName, row.teamId, row.player, PositionText(row.position), row.points)
  }

  /** `pd.DataFrame(data)`: one row per record, in list order, labelled 0, 1, 2, ... */
  function ToFrame(records: seq<PlayerRecord>): (df: seq<Row>)
    ensures |df| == |records|
    ensures forall i :: 0 <= i < |df| ==> df[i] == RowOf(i, records[i])
  {
    if records == [] then []
    else ToFrame(records[..|records| - 1]) + [RowOf(|records| - 1, records[|records| - 1])]
  }

  /** The frame's labels are distinct and each row reads back as its record. */
  lemma ToFrameRows(records: seq<PlayerRecord>)
    ensures UniqueIndices(ToFrame(records))
    ensures forall i :: 0 <= i < |records| ==> ToFrame(records)[i].index == i && RecordOf(ToFrame(records)[i]) == records[i]
  {
    forall i | 0 <= i < |records|
      ensures RecordOf(ToFrame(records)[i]) == records[i]
    {
    }
  }

  /** The frame's team names are those of the records. */
  lemma ToFrameNames(records: seq<PlayerRecord>)
    ensures forall n :: n in NamesOf(ToFrame(records)) <==> exists i :: 0 <= i < |records| && records[i].teamName == n
  {
    var df := ToFrame(records);
    forall n | n in NamesOf(df)
      ensures exists i :: 0 <= i < |records| && records[i].teamName == n
    {
      var x :| x in df && x.teamName == n;
      var i :| 0 <= i < |df| && df[i] == x;
      assert records[i].teamName == n;
    }
    forall n | exists i :: 0 <= i < |records| && records[i].teamName == n
      ensures n in NamesOf(df)
    {
      var i :| 0 <= i < |records| && records[i].teamName == n;
      assert df[i] in df && df[i].teamName == n;
    }
  }

  /** The frame `calculate_max_pf` receives: one row per active id over all rosters. */
  function PlayerFrame(playersInfo: map<string, Player>, rosters: seq<Roster>, matchups: seq<Matchup>, users: seq<User>): (df: seq<Row>)
    ensures |df| == ActiveCount(rosters)
  {
    ToFrame(PlayerData(playersInfo, MergedPoints(matchups), TeamNameMap(users), rosters))
  }

  method ProcessRostersAndMatchups(playersInfo: map<string, Player>, rosters: seq<Roster>, matchups: seq<Matchup>, users: seq<User>)
    returns (result: Result<Report, Error>, taxiDf: seq<TaxiRecord>)
    ensures result == MaxPf(PlayerFrame(playersInfo, rosters, matchups, users))
    ensures taxiDf == TaxiData(playersInfo, TeamNameMap(users), rosters)
  {
    var teamNameMap := TeamNameMap(users);
    var pointsByPlayer := MergePoints(matchups);
    var data, taxiData := AssembleRecords(playersInfo, pointsByPlayer, teamNameMap, rosters);
    var df := ToFrame(data);
    taxiDf := taxiData;
    result := CalculateMaxPf(df);
  }

  /** With no active player on any roster the frame has no Team Name column, so the optimizer raises KeyError. */
  lemma ProcessEmpty(playersInfo: map<string, Player>, rosters: seq<Roster>, matchups: seq<Matchup>, users: seq<User>)
    ensures MaxPf(PlayerFrame(playersInfo, rosters, matchups, users)) == Err(MissingTeamNameColumn)
            <==> ActiveCount(rosters) == 0
  {
    MaxPfErrors(PlayerFrame(playersInfo, rosters, matchups, users));
  }

  /** Every total reported for the assembled frame is the best any legal lineup of that team reaches. */
  lemma ProcessOptimal(playersInfo: map<string, Player>, rosters: seq<Roster>, matchups: seq<Matchup>, users: seq<User>, i: nat, other: seq<Row>)
    requires var df := PlayerFrame(playersInfo, rosters, matchups, users);
      MaxPf(df).Ok? && i < |MaxPf(df).value.maxPfByTeam| && Legal(OfTeam(df, MaxPf(df).value.maxPfByTeam[i].0), other)
    ensures Sum(other) <= MaxPf(PlayerFrame(playersInfo, rosters, matchups, users)).value.maxPfByTeam[i].1
  {
    var df := PlayerFrame(playersInfo, rosters, matchups, users);
    ToFrameRows(PlayerData(playersInfo, MergedPoints(matchups), TeamNameMap(users), rosters));
    MaxPfOptimal(df, i, other);
  }

  /**
   * The optimizer reports a total for exactly the team names of rosters with
   * an active player whose players can fill the required slots.
   */
  lemma ProcessKeys(playersInfo: map<string, Player>, rosters: seq<Roster>, matchups: seq<Matchup>, users: seq<User>, n: string)
    requires MaxPf(PlayerFrame(playersInfo, rosters, matchups, users)).Ok?
    ensures var df := PlayerFrame(playersInfo, rosters, matchups, users);
      n in Keys(MaxPf(df).value.maxPfByTeam)
      <==> n in ActiveNames(TeamNameMap(users), rosters) && Eligible(Bucket(OfTeam(df, n)))
  {
    var df := PlayerFrame(playersInfo, rosters, matchups, users);
    var data := PlayerData(playersInfo, MergedPoints(matchups), TeamNameMap(users), rosters);
    MaxPfKeys(df);
    assert n in NamesOf(df) <==> RecordNamed(data, n) by { ToFrameNames(data); }
    PlayerDataTeams(playersInfo, MergedPoints(matchups), TeamNameMap(users), rosters, n);
  }
}
