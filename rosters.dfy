/**
 * The pure-data part of `process_rosters_and_matchups`: the owner-to-name map,
 * the merged per-player points, and one record per active and per taxi player
 * id of every roster, with fixed fallback text when a lookup misses. The four
 * API responses are inputs; each JSON dictionary becomes a `map`, a key the
 * response may lack becomes an `Option`.
 */
module Rosters {
  import opened Wrappers
  import Frame

  // ---------------------------------------------------------------------------
  // The API responses

  /** A catalog entry; either key may be absent. A missing id reads as the empty entry. */
  datatype Player = Player(fullName: Option<string>, position: Option<string>)

  datatype User = User(userId: string, displayName: string)

  /** `taxi` may be absent from a roster. */
  datatype Roster = Roster(rosterId: int, ownerId: string, players: seq<string>, taxi: Option<seq<string>>)

  /** `players_points` may be absent from a matchup. */
  datatype Matchup = Matchup(playersPoints: Option<map<string, int>>)

  /** `d.get(k, default)` */
  function Get<K, V>(d: map<K, V>, k: K, default: V): (v: V)
    ensures k in d ==> v == d[k]
    ensures k !in d ==> v == default
  {
    if k in d then d[k] else default
  }

  // ---------------------------------------------------------------------------
  // Decimal text of an integer, as an f-string prints it

  function DigitChar(d: nat): (c: char)
    requires d < 10
    ensures '0' <= c <= '9' && c as int - '0' as int == d
  {
    (d + '0' as int) as char
  }

  predicate IsDigits(s: string)
  {
    forall i :: 0 <= i < |s| ==> '0' <= s[i] <= '9'
  }

  function NatToString(n: nat): (s: string)
    ensures |s| >= 1 && IsDigits(s)
  {
    if n < 10 then [DigitChar(n)] else NatToString(n / 10) + [DigitChar(n % 10)]
  }

  function IntToString(n: int): string
  {
    if n < 0 then "-" + NatToString(-n) else NatToString(n)
  }

  function ParseNat(s: string): nat
    requires IsDigits(s)
  {
    if s == [] then 0 else 10 * ParseNat(s[..|s| - 1]) + (s[|s| - 1] as int - '0' as int)
  }

  function ParseInt(s: string): int
  {
    if |s| > 0 && s[0] == '-' && IsDigits(s[1..]) then -(ParseNat(s[1..]) as int)
    else if IsDigits(s) then ParseNat(s)
    else 0
  }

  lemma {:induction false} ParseNatToString(n: nat)
    ensures ParseNat(NatToString(n)) == n
  {
    if n >= 10 {
      var s := NatToString(n);
      ParseNatToString(n / 10);
      assert s[..|s| - 1] == NatToString(n / 10);
    }
  }

  /** The decimal text reads back as the number it was printed from. */
  lemma IntToStringRoundTrip(n: int)
    ensures ParseInt(IntToString(n)) == n
  {
    if n < 0 {
      ParseNatToString(-n);
      assert ("-" + NatToString(-n))[1..] == NatToString(-n);
    } else {
      ParseNatToString(n);
    }
  }

  // ---------------------------------------------------------------------------
  // Fallback text

  const UnknownPosition: string := "Unknown Position"

  function UnknownPlayer(playerId: string): string
  {
    "Unknown Player (ID: " + playerId + ")"
  }

  function UnknownTeam(teamId: int): string
  {
    "Unknown Team (ID: " + IntToString(teamId) + ")"
  }

  /** A fallback team name carries the roster id it was made from. */
  lemma UnknownTeamId(teamId: int)
    ensures var s := UnknownTeam(teamId); var prefix := "Unknown Team (ID: ";
      |s| > |prefix| && s[..|prefix|] == prefix && s[|s| - 1] == ')'
      && ParseInt(s[|prefix|..|s| - 1]) == teamId
  {
    var prefix := "Unknown Team (ID: ";
    var s := UnknownTeam(teamId);
    assert s[|prefix|..|s| - 1] == IntToString(teamId);
    IntToStringRoundTrip(teamId);
  }

  // ---------------------------------------------------------------------------
  // The two dictionaries built before the roster loop

  /** `{user['user_id']: user['display_name'] for user in users}`: a later user with the same id wins. */
  function TeamNameMap(users: seq<User>): (names: map<string, string>)
    ensures forall id :: id in names <==> exists i :: 0 <= i < |users| && users[i].userId == id
  {
    if users == [] then map[]
    else
      var last := users[|users| - 1];
      var names := TeamNameMap(users[..|users| - 1]);
      assert forall i :: 0 <= i < |users| - 1 ==> users[..|users| - 1][i] == users[i];
      names[last.userId := last.displayName]
  }

  /** The owner's display name comes from the last user listed with that id. */
  lemma {:induction false} TeamNameMapLastWins(users: seq<User>, i: nat)
    requires i < |users|
    requires forall j :: i < j < |users| ==> users[j].userId != users[i].userId
    ensures TeamNameMap(users)[users[i].userId] == users[i].displayName
  {
    if i < |users| - 1 {
      var init := users[..|users| - 1];
      assert init[i] == users[i];
      TeamNameMapLastWins(init, i);
    }
  }

  function PointsOf(m: Matchup): map<string, int>
  {
    m.playersPoints.GetOr(map[])
  }

  /** `points_by_player` after `update` with every matchup's points in turn. */
  function MergedPoints(matchups: seq<Matchup>): (points: map<string, int>)
    ensures forall id :: id in points <==> exists i :: 0 <= i < |matchups| && id in PointsOf(matchups[i])
  {
    if matchups == [] then map[]
    else
      var init := matchups[..|matchups| - 1];
      assert forall i :: 0 <= i < |init| ==> init[i] == matchups[i];
      MergedPoints(init) + PointsOf(matchups[|matchups| - 1])
  }

  /** A player's points come from the last matchup that lists the player. */
  lemma {:induction false} MergedPointsLastWins(matchups: seq<Matchup>, i: nat, id: string)
    requires i < |matchups| && id in PointsOf(matchups[i])
    requires forall j :: i < j < |matchups| ==> id !in PointsOf(matchups[j])
    ensures MergedPoints(matchups)[id] == PointsOf(matchups[i])[id]
  {
    if i < |matchups| - 1 {
      var init := matchups[..|matchups| - 1];
      assert init[i] == matchups[i];
      assert forall j :: i < j < |init| ==> init[j] == matchups[j];
      MergedPointsLastWins(init, i, id);
    }
  }

  method MergePoints(matchups: seq<Matchup>) returns (pointsByPlayer: map<string, int>)
    ensures pointsByPlayer == MergedPoints(matchups)
  {
    pointsByPlayer := map[];
    for i := 0 to |matchups|
      invariant pointsByPlayer == MergedPoints(matchups[..i])
    {
      assert matchups[..i + 1][..i] == matchups[..i];
      pointsByPlayer := pointsByPlayer + matchups[i].playersPoints.GetOr(map[]);
    }
    assert matchups[..|matchups|] == matchups;
  }

  // ---------------------------------------------------------------------------
  // The records

  datatype PlayerRecord = PlayerRecord(teamName: string, teamId: int, player: string, position: string, points: int)

  datatype TaxiRecord = TaxiRecord(teamName: string, player: string, position: string)

  /** `players_info.get(player_id, {})` */
  function Entry(playersInfo: map<string, Player>, playerId: string): Player
  {
    Get(playersInfo, playerId, Player(None, None))
  }

  function TeamNameOf(teamNames: map<string, string>, r: Roster): string
  {
    Get(teamNames, r.ownerId, UnknownTeam(r.rosterId))
  }

  function ActiveRecord(playersInfo: map<string, Player>, points: map<string, int>, teamName: string, teamId: int, playerId: string): PlayerRecord
  {
    var player := Entry(playersInfo, playerId);
    PlayerRecord(teamName, teamId, player.fullName.GetOr(UnknownPlayer(playerId)),
                 player.position.GetOr(UnknownPosition), Get(points, playerId, 0))
  }

  function TaxiRecordOf(playersInfo: map<string, Player>, teamName: string, playerId: string): TaxiRecord
  {
    var player := Entry(playersInfo, playerId);
    TaxiRecord(teamName, player.fullName.GetOr(UnknownPlayer(playerId)), player.position.GetOr(UnknownPosition))
  }

  /** A player missing from the catalog is named by id with an unknown position; missing points read 0. */
  lemma ActiveFallbacks(playersInfo: map<string, Player>, points: map<string, int>, teamName: string, teamId: int, playerId: string)
    ensures var r := ActiveRecord(playersInfo, points, teamName, teamId, playerId);
      r.teamName == teamName && r.teamId == teamId
      && (playerId !in playersInfo ==> r.player == UnknownPlayer(playerId) && r.position == UnknownPosition)
      && (playerId in playersInfo ==>
            r.player == playersInfo[playerId].fullName.GetOr(UnknownPlayer(playerId))
            && r.position == playersInfo[playerId].position.GetOr(UnknownPosition))
      && r.points == (if playerId in points then points[playerId] else 0)
  {
  }

  /** A taxi record has the same name and position fallbacks, and no points. */
  lemma TaxiFallbacks(playersInfo: map<string, Player>, teamName: string, playerId: string)
    ensures var r := TaxiRecordOf(playersInfo, teamName, playerId);
      r.teamName == teamName
      && r.player == ActiveRecord(playersInfo, map[], teamName, 0, playerId).player
      && r.position == ActiveRecord(playersInfo, map[], teamName, 0, playerId).position
  {
  }

  /** An owner with no user entry gets a team name made from the roster id. */
  lemma TeamFallback(users: seq<User>, r: Roster)
    ensures (forall i :: 0 <= i < |users| ==> users[i].userId != r.ownerId) ==> TeamNameOf(TeamNameMap(users), r) == UnknownTeam(r.rosterId)
    ensures forall i :: 0 <= i < |users| && users[i].userId == r.ownerId
                        && (forall j :: i < j < |users| ==> users[j].userId != r.ownerId) ==>
                        TeamNameOf(TeamNameMap(users), r) == users[i].displayName
  {
    forall i | 0 <= i < |users| && users[i].userId == r.ownerId && (forall j :: i < j < |users| ==> users[j].userId != r.ownerId)
      ensures TeamNameOf(TeamNameMap(users), r) == users[i].displayName
    {
      TeamNameMapLastWins(users, i);
    }
  }

  /** The records of one roster's active ids, one per id, in roster order. */
  function ActiveRecords(playersInfo: map<string, Player>, points: map<string, int>, teamName: string, teamId: int, ids: seq<string>): (rs: seq<PlayerRecord>)
    ensures |rs| == |ids|
    ensures forall k :: 0 <= k < |ids| ==> rs[k] == ActiveRecord(playersInfo, points, teamName, teamId, ids[k])
  {
    if ids == [] then []
    else ActiveRecords(playersInfo, points, teamName, teamId, ids[..|ids| - 1])
         + [ActiveRecord(playersInfo, points, teamName, teamId, ids[|ids| - 1])]
  }

  function TaxiRecords(playersInfo: map<string, Player>, teamName: string, ids: seq<string>): (rs: seq<TaxiRecord>)
    ensures |rs| == |ids|
    ensures forall k :: 0 <= k < |ids| ==> rs[k] == TaxiRecordOf(playersInfo, teamName, ids[k])
  {
    if ids == [] then []
    else TaxiRecords(playersInfo, teamName, ids[..|ids| - 1]) + [TaxiRecordOf(playersInfo, teamName, ids[|ids| - 1])]
  }

  /** `roster.get('taxi', [])` */
  function TaxiIds(r: Roster): seq<string>
  {
    r.taxi.GetOr([])
  }

  /** `data` after the roster loop: every roster's active records, roster after roster. */
  function PlayerData(playersInfo: map<string, Player>, points: map<string, int>, teamNames: map<string, string>, rosters: seq<Roster>): (data: seq<PlayerRecord>)
    ensures |data| == ActiveCount(rosters)
  {
    if rosters == [] then []
    else
      var r := rosters[|rosters| - 1];
      PlayerData(playersInfo, points, teamNames, rosters[..|rosters| - 1])
      + ActiveRecords(playersInfo, points, TeamNameOf(teamNames, r), r.rosterId, r.players)
  }

  /** `taxi_data` after the roster loop. */
  function TaxiData(playersInfo: map<string, Player>, teamNames: map<string, string>, rosters: seq<Roster>): (taxi: seq<TaxiRecord>)
    ensures |taxi| == TaxiCount(rosters)
  {
    if rosters == [] then []
    else
      var r := rosters[|rosters| - 1];
      TaxiData(playersInfo, teamNames, rosters[..|rosters| - 1]) + TaxiRecords(playersInfo, TeamNameOf(teamNames, r), TaxiIds(r))
  }

  /** The number of active ids over the rosters. */
  function ActiveCount(rosters: seq<Roster>): nat
  {
    if rosters == [] then 0 else ActiveCount(rosters[..|rosters| - 1]) + |rosters[|rosters| - 1].players|
  }

  function TaxiCount(rosters: seq<Roster>): nat
  {
    if rosters == [] then 0 else TaxiCount(rosters[..|rosters| - 1]) + |TaxiIds(rosters[|rosters| - 1])|
  }

  lemma PlayerDataSnoc(playersInfo: map<string, Player>, points: map<string, int>, teamNames: map<string, string>, rosters: seq<Roster>, r: Roster)
    ensures PlayerData(playersInfo, points, teamNames, rosters + [r])
         == PlayerData(playersInfo, points, teamNames, rosters) + ActiveRecords(playersInfo, points, TeamNameOf(teamNames, r), r.rosterId, r.players)
  {
    assert (rosters + [r])[..|rosters|] == rosters;
  }

  /** The records of two runs of rosters are those of the first run followed by those of the second. */
  lemma {:induction false} PlayerDataAppend(playersInfo: map<string, Player>, points: map<string, int>, teamNames: map<string, string>, front: seq<Roster>, back: seq<Roster>)
    ensures PlayerData(playersInfo, points, teamNames, front + back)
         == PlayerData(playersInfo, points, teamNames, front) + PlayerData(playersInfo, points, teamNames, back)
  {
    if back != [] {
      var init, r := back[..|back| - 1], back[|back| - 1];
      var block := ActiveRecords(playersInfo, points, TeamNameOf(teamNames, r), r.rosterId, r.players);
      assert front + back == (front + init) + [r];
      PlayerDataAppend(playersInfo, points, teamNames, front, init);
      PlayerDataSnoc(playersInfo, points, teamNames, front + init, r);
      Frame.Assoc(PlayerData(playersInfo, points, teamNames, front), PlayerData(playersInfo, points, teamNames, init), block);
    } else {
      assert front + back == front;
    }
  }


  /** Some record carries the team name n. */
  predicate RecordNamed(data: seq<PlayerRecord>, n: string)
  {
    exists k :: 0 <= k < |data| && data[k].teamName == n
  }

  /** The team names of the rosters that have an active id, in roster order. */
  function ActiveNames(teamNames: map<string, string>, rosters: seq<Roster>): seq<string>
  {
    if rosters == [] then []
    else
      var r := rosters[|rosters| - 1];
      ActiveNames(teamNames, rosters[..|rosters| - 1]) + (if |r.players| > 0 then [TeamNameOf(teamNames, r)] else [])
  }

  lemma RecordNamedAppend(pre: seq<PlayerRecord>, block: seq<PlayerRecord>, n: string)
    ensures RecordNamed(pre + block, n) <==> RecordNamed(pre, n) || RecordNamed(block, n)
  {
    var data := pre + block;
    if RecordNamed(data, n) {
      var k :| 0 <= k < |data| && data[k].teamName == n;
      if k < |pre| {
        assert pre[k] == data[k];
      } else {
        assert block[k - |pre|] == data[k];
      }
    }
    if RecordNamed(pre, n) {
      var k :| 0 <= k < |pre| && pre[k].teamName == n;
      assert data[k] == pre[k];
    }
    if RecordNamed(block, n) {
      var k :| 0 <= k < |block| && block[k].teamName == n;
      assert data[|pre| + k] == block[k];
    }
  }

  lemma ActiveRecordsNamed(playersInfo: map<string, Player>, points: map<string, int>, teamName: string, teamId: int, ids: seq<string>, n: string)
    ensures RecordNamed(ActiveRecords(playersInfo, points, teamName, teamId, ids), n) <==> |ids| > 0 && teamName == n
  {
    if |ids| > 0 && teamName == n {
      assert ActiveRecords(playersInfo, points, teamName, teamId, ids)[0].teamName == n;
    }
  }

  /** A team name appears among the records exactly when a roster of that name has an active id. */
  lemma {:induction false} PlayerDataTeams(playersInfo: map<string, Player>, points: map<string, int>, teamNames: map<string, string>, rosters: seq<Roster>, n: string)
    ensures RecordNamed(PlayerData(playersInfo, points, teamNames, rosters), n) <==> n in ActiveNames(teamNames, rosters)
  {
    if rosters != [] {
      var init, r := rosters[..|rosters| - 1], rosters[|rosters| - 1];
      var pre := PlayerData(playersInfo, points, teamNames, init);
      var block := ActiveRecords(playersInfo, points, TeamNameOf(teamNames, r), r.rosterId, r.players);
      assert RecordNamed(PlayerData(playersInfo, points, teamNames, rosters), n)
          <==> RecordNamed(pre, n) || RecordNamed(block, n) by {
        assert PlayerData(playersInfo, points, teamNames, rosters) == pre + block;
        RecordNamedAppend(pre, block, n);
      }
      assert RecordNamed(block, n) <==> |r.players| > 0 && TeamNameOf(teamNames, r) == n by {
        ActiveRecordsNamed(playersInfo, points, TeamNameOf(teamNames, r), r.rosterId, r.players, n);
      }
      PlayerDataTeams(playersInfo, points, teamNames, init, n);
    }
  }

  /** One pass of the inner loop over active ids: the record it appends. */
  lemma ActiveStep(playersInfo: map<string, Player>, points: map<string, int>, teamName: string, teamId: int, ids: seq<string>, j: nat)
    requires j < |ids|
    ensures var player := Get(playersInfo, ids[j], Player(None, None));
      ActiveRecords(playersInfo, points, teamName, teamId, ids[..j + 1])
      == ActiveRecords(playersInfo, points, teamName, teamId, ids[..j])
         + [PlayerRecord(teamName, teamId, player.fullName.GetOr(UnknownPlayer(ids[j])),
                         player.position.GetOr(UnknownPosition), Get(points, ids[j], 0))]
  {
    assert ids[..j + 1][..j] == ids[..j];
  }

  /** One pass of the inner loop over taxi ids: the record it appends. */
  lemma TaxiStep(playersInfo: map<string, Player>, teamName: string, ids: seq<string>, j: nat)
    requires j < |ids|
    ensures var player := Get(playersInfo, ids[j], Player(None, None));
      TaxiRecords(playersInfo, teamName, ids[..j + 1])
      == TaxiRecords(playersInfo, teamName, ids[..j])
         + [TaxiRecord(teamName, player.fullName.GetOr(UnknownPlayer(ids[j])), player.position.GetOr(UnknownPosition))]
  {
    assert ids[..j + 1][..j] == ids[..j];
  }

  lemma DataStep(playersInfo: map<string, Player>, points: map<string, int>, teamNames: map<string, string>, rosters: seq<Roster>, i: nat)
    requires i < |rosters|
    ensures var r := rosters[i];
      PlayerData(playersInfo, points, teamNames, rosters[..i + 1])
      == PlayerData(playersInfo, points, teamNames, rosters[..i]) + ActiveRecords(playersInfo, points, TeamNameOf(teamNames, r), r.rosterId, r.players)
    ensures var r := rosters[i];
      TaxiData(playersInfo, teamNames, rosters[..i + 1])
      == TaxiData(playersInfo, teamNames, rosters[..i]) + TaxiRecords(playersInfo, TeamNameOf(teamNames, r), TaxiIds(r))
  {
    assert rosters[..i + 1][..i] == rosters[..i];
  }

  /** The inner loop over a roster's active ids, appending one record per id to `data`. */
  method AppendActive(playersInfo: map<string, Player>, pointsByPlayer: map<string, int>, teamName: string, teamId: int, players: seq<string>, data0: seq<PlayerRecord>)
    returns (data: seq<PlayerRecord>)
    ensures data == data0 + ActiveRecords(playersInfo, pointsByPlayer, teamName, teamId, players)
  {
    data := data0;
    for j := 0 to |players|
      invariant data == data0 + ActiveRecords(playersInfo, pointsByPlayer, teamName, teamId, players[..j])
    {
      var playerId := players[j];
      var player := Get(playersInfo, playerId, Player(None, None));
      var playerName := player.fullName.GetOr(UnknownPlayer(playerId));
      var position := player.position.GetOr(UnknownPosition);
      var points := Get(pointsByPlayer, playerId, 0);
      var record := PlayerRecord(teamName, teamId, playerName, position, points);
      ActiveStep(playersInfo, pointsByPlayer, teamName, teamId, players, j);
      Frame.Assoc(data0, ActiveRecords(playersInfo, pointsByPlayer, teamName, teamId, players[..j]), [record]);
      data := data + [record];
    }
    assert players[..|players|] == players;
  }

  /** The inner loop over a roster's taxi ids, appending one record per id to `taxi_data`. */
  method AppendTaxi(playersInfo: map<string, Player>, teamName: string, taxiPlayers: seq<string>, taxiData0: seq<TaxiRecord>)
    returns (taxiData: seq<TaxiRecord>)
    ensures taxiData == taxiData0 + TaxiRecords(playersInfo, teamName, taxiPlayers)
  {
    taxiData := taxiData0;
    for j := 0 to |taxiPlayers|
      invariant taxiData == taxiData0 + TaxiRecords(playersInfo, teamName, taxiPlayers[..j])
    {
      var taxiPlayerId := taxiPlayers[j];
      var taxiPlayer := Get(playersInfo, taxiPlayerId, Player(None, None));
      var taxiPlayerName := taxiPlayer.fullName.GetOr(UnknownPlayer(taxiPlayerId));
      var position := taxiPlayer.position.GetOr(UnknownPosition);
      var record := TaxiRecord(teamName, taxiPlayerName, position);
      TaxiStep(playersInfo, teamName, taxiPlayers, j);
      Frame.Assoc(taxiData0, TaxiRecords(playersInfo, teamName, taxiPlayers[..j]), [record]);
      taxiData := taxiData + [record];
    }
    assert taxiPlayers[..|taxiPlayers|] == taxiPlayers;
  }

  /** The roster loop, appending each roster's active and taxi records to `data` and `taxi_data`. */
  method AssembleRecords(playersInfo: map<string, Player>, pointsByPlayer: map<string, int>, teamNameMap: map<string, string>, rosters: seq<Roster>)
    returns (data: seq<PlayerRecord>, taxiData: seq<TaxiRecord>)
    ensures data == PlayerData(playersInfo, pointsByPlayer, teamNameMap, rosters)
    ensures taxiData == TaxiData(playersInfo, teamNameMap, rosters)
  {
    data := [];
    taxiData := [];
    for i := 0 to |rosters|
      invariant data == PlayerData(playersInfo, pointsByPlayer, teamNameMap, rosters[..i])
      invariant taxiData == TaxiData(playersInfo, teamNameMap, rosters[..i])
    {
      var roster := rosters[i];
      var teamId := roster.rosterId;
      var teamName := Get(teamNameMap, roster.ownerId, UnknownTeam(teamId));
      var players := roster.players;
      var taxiPlayers := roster.taxi.GetOr([]);
      DataStep(playersInfo, pointsByPlayer, teamNameMap, rosters, i);
      data := AppendActive(playersInfo, pointsByPlayer, teamName, teamId, players, data);
      taxiData := AppendTaxi(playersInfo, teamName, taxiPlayers, taxiData);
    }
    assert rosters[..|rosters|] == rosters;
  }
}
