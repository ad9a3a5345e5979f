# Sleeper max-PF calculator: a Dafny model

The scripts `mpf_email.py` and `MPF_timed.py` read a Sleeper fantasy-football
league (the player catalog, the rosters, one week's matchups and the league's
users), build one record per rostered player, and compute each team's
"max possible points" (max PF). That is the best score the team could have
fielded that week in the league's fixed lineup:

- 1 QB, 2 RB, 3 WR, 1 TE, 1 K and 1 DEF;
- up to 3 FLEX slots filled from the RBs, WRs and TEs left over.

The two scripts carry the same core. Lines 54-183 of `MPF_timed.py` are
lines 67-196 of `mpf_email.py` shifted by 13. The table below cites
`mpf_email.py`, and the same model covers the timed script.

The model has seven modules:

- `Wrappers` holds `Option` and `Result`.
- `Frame` holds the pandas frame: a sequence of `Row`s, each carrying its row label, team name, team id, player, position and points. It also holds the boolean-mask selections `df[df[col] == v]`, `~index.isin(...)` and the column sum.
- `TopN` holds `nlargest(n, 'Points')` with its default keep-first tie rule. That rule amounts to taking the first row with the most points, n times over.
- `Lineup` holds one iteration of the team loop in `calculate_max_pf`: the position buckets, the eligibility guard, the required picks, the FLEX pool and picks, the total and the retagged lineup. It also proves that this greedy lineup scores at least as much as any legal lineup of the team.
- `Optimizer` holds the team loop itself. `CalculateMaxPf` is a method with a `while` loop that fills `max_pf_by_team` and `optimal_lineups`, proved equal to the function `MaxPf`. The properties of `MaxPf` are proved as lemmas.
- `Rosters` holds the pure-data part of `process_rosters_and_matchups`:
  - the owner-to-name dictionary;
  - the merged `players_points`;
  - the roster loop with its two inner loops, `AppendActive` and `AppendTaxi`, proved equal to the functions `PlayerData` and `TaxiData`;
  - the fallback strings.
- `Pipeline` holds `pd.DataFrame(data)` and the call into the optimizer, so that properties of the whole computation follow from the four API responses.

Python dictionaries become Dafny `map`s where only lookups matter. `max_pf_by_team` is an insertion-ordered sequence of `(name, total)` pairs, because its order is observable. Points are integers: whole hundredths of a fantasy point.

The model follows the code as written:

- A lineup has 9 + min(3, |FLEX pool|) rows, not always 12. A short pool is accepted.
- The FLEX pool excludes the required picks by row label.
- `pd.DataFrame(data)` of an empty list of records has no columns at all, so `df['Team Name']` raises KeyError. It is modelled as `Err(MissingTeamNameColumn)`. The frame is always built from a list of records, so it has no rows only in that case.
- `pd.concat([])` with no eligible team raises (ValueError). It is modelled as `Err(NothingToConcatenate)`.
- Points are looked up in the merged points for every active id, whether or not the id is in the player catalog.

The optimality theorem compares the greedy lineup against every *legal* lineup of the team (`Lineup.Legal`). A legal lineup:

- uses distinct rows of the team;
- uses only the six positions;
- has exactly one QB, one K and one DEF;
- has at least 2 RB, 3 WR and 1 TE;
- has as many RB/WR/TE rows as the team can fill of the nine offensive slots, that is min(9, its RB+WR+TE count).

The code always fills every slot it can. Points may be negative, so a lineup that left a slot empty is not comparable.

## Model

| member | source | states |
|---|---|---|
| Frame.Sum | mpf_email.py:117-123 | `rows['Points'].sum()`: the points of the rows added up (no contract of its own; `SumAppend` and `Lineup.Total` state its properties) |
| Frame.Where | mpf_email.py:75-83 | A mask selection keeps exactly the input rows the mask accepts, and no more rows than the input has |
| Frame.WhereAppend | mpf_email.py:75 | Selecting from two frames concatenated selects from each in turn, keeping frame order |
| TopN.FirstMax | mpf_email.py:91 | The first-best row's position lies inside the frame |
| TopN.FirstMaxIsFirstBest | mpf_email.py:91 | That position holds the most points, and no earlier row has as many |
| TopN.NLargest | mpf_email.py:91-106 | `nlargest(n, 'Points')` as n rounds of taking out the first best row (no contract of its own: `Sizes`, `Members`, `Descending`, `Beats`, `PicksBest` and `IsBest` state what it returns) |
| TopN.Leftover | mpf_email.py:109-111 | The rows `nlargest` leaves behind, in frame order (no contract of its own: `Sizes`, `Members` and `ExcludingPicks` state what it returns) |
| TopN.Sizes | mpf_email.py:91-106 | `nlargest(n)` returns min(n, rows) rows, and the rest are left over |
| TopN.Members | mpf_email.py:91-106 | Picks and leftovers are input rows, and every input row is one of the two |
| TopN.PartitionDistinct | mpf_email.py:91-106 | From distinct rows, the picks and the leftovers are distinct and disjoint |
| TopN.Descending | mpf_email.py:91-106 | The picks come best first |
| TopN.Beats | mpf_email.py:91-106 | A picked row has more points than any unpicked row, or as many points and an earlier place (keep-first) |
| TopN.PicksBest | mpf_email.py:91-106 | `nlargest(n)` has min(n, rows) rows, and no unpicked row outscores a picked one |
| TopN.Split | mpf_email.py:91-114 | Taking m rows is taking n rows, then m - n more from what is left |
| TopN.Cap | mpf_email.py:91-114 | Asking for more rows than exist returns all of them: only min(n, rows) matters |
| TopN.IsBest | mpf_email.py:91-114 | No choice of k distinct rows scores more than the top k rows |
| TopN.ExcludingPicks | mpf_email.py:109-111 | With unique labels, removing the picks' labels leaves exactly the left-over rows |
| Lineup.Bucket | mpf_email.py:78-83 | The six `team_df[team_df['Position'] == pos]` selections (no contract of its own: `BucketShape` states what they hold) |
| Lineup.Eligible | mpf_email.py:86 | The guard that skips a team short of 1 QB, 2 RB, 3 WR, 1 TE, 1 K or 1 DEF (a predicate; `LegalFits` ties it to legal lineups) |
| Lineup.FlexPool | mpf_email.py:109-111 | The RBs, WRs and TEs whose labels the required picks did not take (no contract of its own: `PoolIsLeftovers` states what it holds) |
| Lineup.Pick | mpf_email.py:91-114 | `nlargest` per slot and FLEX from the pool (no contract of its own: `RequiredBest`, `FlexBest` and `RequiredCounts` state what it picks) |
| Lineup.Concat | mpf_email.py:129 | The lineup frame in `pd.concat` order (no contract of its own: `ConcatSize`, `ConcatDistinct` and `ConcatWithin` state what it holds) |
| Lineup.Total | mpf_email.py:117-123 | The summed total equals the points of the concatenated lineup |
| Lineup.OptimizeTeam | mpf_email.py:75-131 | A team yields a result exactly when it has 1 QB, 2 RB, 3 WR, 1 TE, 1 K and 1 DEF; the result carries its name |
| Lineup.BucketShape | mpf_email.py:78-83 | Each bucket holds rows of the team at its own position; with unique labels the buckets are distinct and labelled |
| Lineup.RequiredBest | mpf_email.py:91-106 | Each required pick takes exactly its quota, and no row left in its bucket outscores a pick |
| Lineup.PoolIsLeftovers | mpf_email.py:109-111 | The FLEX pool is the RB, WR and TE leftovers of the required picks, of size RB+WR+TE-6 |
| Lineup.FlexDisjoint | mpf_email.py:109-114 | FLEX picks come from the pool, are RB/WR/TE only, and never repeat a required pick |
| Lineup.FlexBest | mpf_email.py:114 | FLEX takes min(3, pool) rows, and no pool row left out outscores a FLEX pick |
| Lineup.RequiredCounts | mpf_email.py:91-106 | The required slots hold 1 QB, 2 RB, 3 WR, 1 TE, 1 K and 1 DEF |
| Lineup.ConcatSize | mpf_email.py:129 | The lineup has 9 + min(3, pool) rows |
| Lineup.ConcatDistinct | mpf_email.py:129 | No lineup row repeats, and each lineup row is at one of the six positions |
| Lineup.ConcatWithin | mpf_email.py:129 | Every lineup row comes from the team's buckets |
| Lineup.Retag | mpf_email.py:130 | Retagging keeps every row except its Team Name, which becomes the given name |
| Lineup.SumRetag | mpf_email.py:130 | Retagging keeps the lineup's points |
| Lineup.RetagKeeps | mpf_email.py:130 | Retagging rows that already carry the name changes nothing |
| Lineup.TeamTotal | mpf_email.py:117-131 | An eligible team's total equals the points of its lineup, and every lineup row carries the team's name |
| Lineup.TeamSize | mpf_email.py:109-129 | The lineup has 9 + min(3, pool) rows, which is min(12, 3 + RB+WR+TE) when labels are unique |
| Lineup.TeamLineupUnique | mpf_email.py:129 | With unique labels in the team, no label repeats in its lineup |
| Lineup.GreedyIsLegal | mpf_email.py:91-129 | The lineup built for an eligible team is a legal lineup of that team |
| Lineup.BucketBound | mpf_email.py:91-106 | A legal lineup's rows at one position score no more than as many top rows of that bucket |
| Lineup.LegalFits | mpf_email.py:86 | A team with a legal lineup passes the eligibility guard, and the lineup's RB/WR/TE counts fit the buckets |
| Lineup.LegalBound | mpf_email.py:91-123 | A legal lineup scores no more than the top rows of each bucket in its own slot counts |
| Lineup.FlexBound | mpf_email.py:109-114 | The extra RBs, WRs and TEs a legal lineup plays score no more than the FLEX picks |
| Lineup.BestIsGreedy | mpf_email.py:91-123 | The greedy picks reach that bound for every legal split of the nine offensive slots |
| Lineup.GreedyIsOptimal | mpf_email.py:66-126 | No legal lineup of the team scores more than the total the loop stores for it |
| Optimizer.TeamNames | mpf_email.py:72 | `unique()` lists every team name of the frame exactly once |
| Optimizer.TeamNamesPrefix | mpf_email.py:72 | Names are listed in order of first appearance: a prefix of the frame lists a prefix of the names |
| Optimizer.Lookup | mpf_email.py:126 | The dictionary read `d[k]` in which the store `d[k] = v` is specified: a key has a value exactly when it is stored |
| Optimizer.Put | mpf_email.py:126 | Storing sets the key's value, leaves every other key alone, and keeps the size when the key exists |
| Optimizer.PutFresh | mpf_email.py:126 | Storing a new key appends it at the end |
| Optimizer.Outcomes | mpf_email.py:74-131 | Outcome i is the team step applied to team i's rows |
| Optimizer.LoopStep | mpf_email.py:74-131 | A skipped team changes nothing; a kept team is stored under its name and its lineup appended |
| Optimizer.FlattenContents | mpf_email.py:133 | Concatenating frames keeps their total row count, and a row is in the result exactly when some frame holds it |
| Optimizer.ConcatFrames | mpf_email.py:133 | `pd.concat` fails exactly on an empty list; otherwise it has the frames' total row count, and a row is in it exactly when some frame holds it |
| Optimizer.MaxPf | mpf_email.py:67-133 | What `calculate_max_pf(df)` returns or raises (no contract of its own: `CalculateMaxPf` is proved equal to it, and `MaxPfErrors`, `MaxPfKeys`, `MaxPfSkipped`, `MaxPfLineups` and `MaxPfOptimal` state what it returns) |
| Optimizer.CalculateMaxPf | mpf_email.py:67-133 | The loop returns what `MaxPf` specifies, the error cases included |
| Optimizer.EligibleNames | mpf_email.py:74-88 | The visited names with the skipped teams filtered out, in loop order: a name is kept exactly when its team passes the guard |
| Optimizer.KeptTeams | mpf_email.py:74-131 | The results the loop keeps carry exactly the eligible names, in loop order |
| Optimizer.GroupedFlatten | mpf_email.py:129-133 | When each team selects its own lineup from the concatenation, the concatenation is those selections in result order |
| Optimizer.TotalsInOrder | mpf_email.py:126 | With distinct names, the dictionary has one entry per kept team, in loop order |
| Optimizer.LineupOfTeam | mpf_email.py:129-133 | Selecting a team's rows from the concatenated lineups gives back that team's lineup |
| Optimizer.MaxPfErrors | mpf_email.py:72-133 | KeyError exactly on an empty frame; ValueError exactly when no team is eligible |
| Optimizer.MaxPfKeys | mpf_email.py:72-126 | The keys are distinct, and they are exactly the frame's team names whose teams are eligible |
| Optimizer.MaxPfOrder | mpf_email.py:72-133 | The keys of `max_pf_by_team` are the frame's eligible team names in order of first appearance, and the concatenated lineups are those teams' rows, team after team in that same order |
| Optimizer.MaxPfSkipped | mpf_email.py:86-88 | An ineligible team has no entry and no rows in the lineups |
| Optimizer.MaxPfLineups | mpf_email.py:117-133 | Each stored total is the points of that team's lineup rows, which form a legal lineup of the team |
| Optimizer.MaxPfOptimal | mpf_email.py:66-133 | Each stored total is at least the points of any legal lineup of that team |
| Rosters.IntToStringRoundTrip | mpf_email.py:160 | The printed roster id reads back as the same integer |
| Rosters.UnknownTeamId | mpf_email.py:160 | The fallback team name is "Unknown Team (ID: ", the roster id, then ")" |
| Rosters.TeamNameMap | mpf_email.py:145 | The map's keys are exactly the users' ids |
| Rosters.TeamNameMapLastWins | mpf_email.py:145 | An id maps to the display name of the last user listed with it |
| Rosters.MergedPoints | mpf_email.py:148-150 | The merged points hold exactly the ids some matchup lists; a matchup without `players_points` adds nothing |
| Rosters.MergedPointsLastWins | mpf_email.py:148-150 | A player's points come from the last matchup that lists the player |
| Rosters.MergePoints | mpf_email.py:148-150 | The update loop yields the merged points |
| Rosters.TeamFallback | mpf_email.py:158-160 | An owner without a user gets "Unknown Team (ID: id)"; otherwise the last matching user's display name |
| Rosters.ActiveRecord | mpf_email.py:164-177 | The record one active id contributes (no contract of its own: `ActiveFallbacks` states its fallbacks) |
| Rosters.TaxiRecordOf | mpf_email.py:180-190 | The record one taxi id contributes (no contract of its own: `TaxiFallbacks` states its fallbacks) |
| Rosters.ActiveFallbacks | mpf_email.py:164-177 | An id missing from the catalog gives "Unknown Player (ID: id)" and "Unknown Position"; missing points read 0 |
| Rosters.TaxiFallbacks | mpf_email.py:180-190 | A taxi record has the same name and position as an active one, and no points |
| Rosters.ActiveRecords | mpf_email.py:164-177 | One record per active id, in roster order |
| Rosters.TaxiRecords | mpf_email.py:180-190 | One taxi record per taxi id, in roster order |
| Rosters.PlayerData | mpf_email.py:157-177 | `data` has one record per active id over all rosters |
| Rosters.PlayerDataAppend | mpf_email.py:157-177 | The records of two runs of rosters are the first run's followed by the second's |
| Rosters.PlayerDataTeams | mpf_email.py:157-177 | A team name appears in `data` exactly when a roster of that name has an active id |
| Rosters.TaxiData | mpf_email.py:162-190 | `taxi_data` has one record per taxi id; a roster without a `taxi` key adds none |
| Rosters.AppendActive | mpf_email.py:164-177 | The inner loop appends exactly the roster's active records |
| Rosters.AppendTaxi | mpf_email.py:180-190 | The inner loop appends exactly the roster's taxi records |
| Rosters.AssembleRecords | mpf_email.py:153-190 | The roster loop yields `PlayerData` and `TaxiData` |
| Pipeline.PositionOf | mpf_email.py:78-83 | Parsing a Position string and printing it back gives the same string, so the `== 'QB'` comparisons see the text as written |
| Pipeline.ToFrame | mpf_email.py:192 | `pd.DataFrame(data)` has one row per record, labelled by its place |
| Pipeline.ToFrameRows | mpf_email.py:192 | The frame's labels are distinct, and each row reads back as its record |
| Pipeline.PlayerFrame | mpf_email.py:192 | The frame handed to `calculate_max_pf` has one row per active id over all rosters |
| Pipeline.ToFrameNames | mpf_email.py:192 | The frame's team names are those of the records |
| Pipeline.ProcessRostersAndMatchups | mpf_email.py:136-196 | The whole computation returns `MaxPf` of the assembled frame, along with the taxi records |
| Pipeline.ProcessEmpty | mpf_email.py:192-196 | The optimizer raises KeyError exactly when no roster has an active id |
| Pipeline.ProcessKeys | mpf_email.py:157-196 | A team name gets a total exactly when a roster of that name has an active id and the team is eligible |
| Pipeline.ProcessOptimal | mpf_email.py:192-196 | Every total reported for the assembled frame is the best any legal lineup of that team reaches |

## Left out

- The HTTP fetches `get_players_info`, `get_rosters`, `get_matchups` and `get_league_users` are network I/O. Their parsed JSON responses are the parameters of `ProcessRostersAndMatchups`.
- A failed rosters request makes `get_rosters` return `[]`. The model takes that list as its `rosters` input, and `Pipeline.ProcessEmpty` then gives KeyError. The other three fetches return the response body whatever the status; their failure modes are network I/O and are not modelled.
- The progress `print`s are console output, with no effect on the results.
- Writing the CSV files and building their names is file I/O.
- `send_email` is SMTP transport and is not modelled.
- `main`, the scheduled job and its threads, sleeps and interactive input are not modelled.
- Floating-point points are modelled as exact integers (hundredths). Rounding in the pandas sums is not modelled.
- The JSON keys the code reads with `[...]` (`roster_id`, `owner_id` and `players` of a roster, `user_id` and `display_name` of a user) raise KeyError in the code when missing. The model makes them mandatory fields, so that error is not modelled.
- JSON `null` values are not modelled. A missing key becomes `None`, a present one a value.
- pandas internals are replaced by sequences of rows: dtypes, the column index and the label-based alignment of `pd.concat`.
- `taxi_df` is returned as the sequence of taxi records, not as a frame.
- Lineup.GreedyIsOptimal: assumes the team's row labels are distinct. `pd.DataFrame(data)` guarantees this (`Pipeline.ToFrameRows`).
- Lineup.GreedyIsOptimal: compares only against lineups that fill min(9, RB+WR+TE) offensive slots, as the code always does.
