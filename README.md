# Quantum-Optimization lineup and AQI core, modelled in Dafny

This project models three pieces of the Quantum-Optimization scripts and
proves properties of them.

1. **The fantasy-football lineup as a QUBO** (`nfl_dwave.py`). The roster is a
   list of players (id, position, points, salary). `Qubo.BuildQubo` creates
   the coefficient table keyed by index pairs (i, j) with i <= j, all zero. It
   then changes the table in place in four passes:
   - the negated, weighted points objective;
   - the expanded square of the salary-minus-budget penalty;
   - one quota penalty per listed position;
   - the team-size penalty.

   The table is a `map<(int, int), real>`. Each pass is a method with the
   script's nested loops and their invariants. `QuboEnergy` states what the
   finished table means to a sampler that minimises
   Σ Q[(i,j)] x_i x_j over 0/1 assignments x:
   - the energy is -alpha·points + beta·S(S-2B) + gamma·Σ_t c_t(c_t-2n_t) + delta·N(N-2T);
   - each penalty is least exactly when its constraint holds;
   - feasible selections of equal salary are ranked by points.

   The report printed for the best sample (`SampleTally`) is a loop that adds
   up points and salary and counts positions over the selected indices.
2. **The same lineup as an integer program** (`nfl_pulp.py`). `LineupLp` has
   the objective, and the constraints as a feasibility predicate over a 0/1
   assignment. It also has the report built from the assignment the solver
   returns, including the `positions_count` loop.
3. **The PM2.5 to AQI conversion** (`sarima.py`). `Aqi` models
   `calculate_aqi_pm25`:
   - the if/elif chain over India's National Air Quality Index breakpoints
     for PM2.5, with the cap at 500;
   - Python's half-to-even `round`;
   - `None` for a reading that is not a number.

   The chain is proved equal to an independent breakpoint-table
   interpolation, and the conversion is proved monotone, bounded and free of
   jumps at the breakpoints.

Shared definitions are in `Lineup`:
- the player record;
- linear sums over the decision variables;
- the list of selected indices, and sums and counts over it.

`Wrappers` holds `Option`. All numbers are exact `real`s. Team size and
quotas are `int`s.

The two lineup scripts treat the salary budget differently. The integer
program asks for total salary <= budget (`nfl_pulp.py:26`). The QUBO
penalises (S - budget)^2, which is least only when salary equals the budget
(`nfl_dwave.py:37-41`). The model keeps the QUBO as written.
`QuboEnergy.SalaryMinimum` states where that penalty is least, and
`QuboEnergy.UnderBudgetPenalised` proves that every selection feasible for
the integer program and strictly under budget pays more than that least
salary penalty. `QuboEnergy.SalaryPenaltyUnderBudget` gives one such lineup.

## Model

| member | source | states |
|---|---|---|
| Qubo.ZeroTable | nfl_dwave.py:26-28 | the initial table has exactly the keys (i, j) with 0 <= i <= j < N, every value is 0, no key has i > j, and there are N + N(N-1)/2 entries |
| Qubo.UpperKeysSize | nfl_dwave.py:27-28 | twice the number of upper-triangular keys below N is N(N+1) |
| Qubo.UpperKeysMember | nfl_dwave.py:27-28 | a key is in the table's key set exactly when 0 <= i <= j < N |
| Qubo.AddObjective | nfl_dwave.py:33-34 | the key set is unchanged; each diagonal entry (i, i) decreases by alpha·points_i; every other entry is unchanged |
| Qubo.AddSalary | nfl_dwave.py:37-41 | the key set is unchanged; (i, i) gains beta·c_i² − 2·beta·budget·c_i and (i, j), i < j, gains 2·beta·c_i·c_j; keys outside the triangle are untouched |
| Qubo.AddSalaryRow | nfl_dwave.py:40-41 | the inner loop for row i: each (i, j) with j > i gains 2·beta·c_i·c_j, every other key keeps its value, and the key set is unchanged |
| Qubo.AddPositionQuota | nfl_dwave.py:45-50 | for one listed position with quota n: each player of that position gains gamma(1 − 2n) on its diagonal, and (i, j) gains 2·gamma only when both players have that position; nothing else changes |
| Qubo.AddPositional | nfl_dwave.py:43-50 | the positional pass adds, on every key, the sum over the quotas in `items()` order of the one-position contributions; the key set is unchanged |
| Qubo.AddTeamSize | nfl_dwave.py:53-57 | every diagonal gains delta(1 − 2·teamSize) and every (i, j), i < j, gains 2·delta; the key set is unchanged |
| Qubo.BuildQubo | nfl_dwave.py:25-57 | the finished table has exactly the upper-triangular keys, N + N(N-1)/2 entries, and on every key the sum of the four passes' contributions |
| Qubo.ComposePasses | nfl_dwave.py:33-57 | applied in order to the zero table, the four passes leave on each key the sum of their four contributions |
| Qubo.PositionalUnlisted | nfl_dwave.py:44-50 | a player whose position is not listed gets no positional contribution on any key it takes part in, whether as row (p, j) or as column (i, p) |
| Qubo.PositionalListed | nfl_dwave.py:44-50 | with distinct positions (dictionary keys), a player of listed position t gets gamma(1 − 2n_t) on its diagonal, and 2·gamma on (i, j) exactly when player j has the same position, else 0 |
| Qubo.ScenarioCoefficients | nfl_dwave.py:33-57 | for two players of one position with the script's weights, the passes give −1260 and −1168 on the diagonal and 800 off it, and nothing below the diagonal |
| QuboEnergy.TableEnergy | nfl_dwave.py:26-57 | the energy of a finished table is the quadratic form of the closed-form coefficients |
| QuboEnergy.EnergyIdentity | nfl_dwave.py:33-57 | the energy of any assignment under the finished table is the sum of the four passes' contributions |
| QuboEnergy.EnergyClosedForm | nfl_dwave.py:26-57 | the energy of any assignment is −alpha·P + beta·S(S − 2B) + gamma·Σ_t c_t(c_t − 2n_t) + delta·N(N − 2T) |
| QuboEnergy.PassesClosedForm | nfl_dwave.py:33-57 | the four passes' contributions sum to the closed form above |
| QuboEnergy.ObjectiveSalaryClosedForm | nfl_dwave.py:33-41 | the objective and salary passes together contribute −alpha·P + beta·S(S − 2B) |
| QuboEnergy.QuotaTeamClosedForm | nfl_dwave.py:43-57 | the positional and team-size passes together contribute gamma·Σ_t c_t(c_t − 2n_t) + delta·N(N − 2T) |
| QuboEnergy.ObjectiveQuadForm | nfl_dwave.py:33-34 | the objective pass contributes −alpha times the selected points |
| QuboEnergy.PenaltyQuadForm | nfl_dwave.py:37-41 | coefficients w_i(w_i − 2b) on the diagonal and 2w_iw_j above it give the form D(D − 2b), with D = Σ w_i x_i: the square (D − b)² less b² |
| QuboEnergy.SalaryQuadForm | nfl_dwave.py:37-41 | the salary pass contributes beta·S(S − 2·budget), with S the selected salary |
| QuboEnergy.PositionQuadForm | nfl_dwave.py:45-50 | one listed position contributes gamma·c(c − 2n), with c the number of players of that position selected |
| QuboEnergy.PositionalQuadForm | nfl_dwave.py:43-50 | the positional pass contributes gamma times Σ_t c_t(c_t − 2n_t) over the listed positions |
| QuboEnergy.TeamSizeQuadForm | nfl_dwave.py:53-57 | the team-size pass contributes delta·N(N − 2·teamSize), with N the number selected |
| QuboEnergy.PenaltyMinimum | nfl_dwave.py:37-57 | u(u − 2v) >= −v², with equality exactly when u = v: each penalty is least exactly at its target |
| QuboEnergy.SalaryMinimum | nfl_dwave.py:37-41 | for beta > 0 the salary contribution is at least −beta·B², with equality exactly when the selected salary equals the budget |
| QuboEnergy.TeamSizeMinimum | nfl_dwave.py:53-57 | for delta > 0 the team-size contribution is at least −delta·T², with equality exactly when exactly T players are selected |
| QuboEnergy.QuotaPenaltyBound | nfl_dwave.py:43-50 | Σ_t c_t(c_t − 2n_t) >= −Σ_t n_t², with equality exactly when the integer program's quota constraints hold |
| QuboEnergy.PositionalMinimum | nfl_dwave.py:43-50 | for gamma > 0 the positional contribution is at least −gamma·Σ n_t², with equality exactly when every quota is met |
| QuboEnergy.QuotasMetSplit | nfl_pulp.py:29-30 | all quotas met is the earlier quotas met and the last one met |
| QuboEnergy.QuotaPenaltyAgree | nfl_dwave.py:43-50 | selections with the same count of every listed position have the same quota penalty |
| QuboEnergy.SalaryAgree | nfl_dwave.py:37-41 | selections with the same salary get the same salary contribution |
| QuboEnergy.TeamSizeAgree | nfl_dwave.py:53-57 | selections of the same size get the same team-size contribution |
| QuboEnergy.PositionalAgree | nfl_dwave.py:43-50 | selections with the same per-position counts get the same positional contribution |
| QuboEnergy.FeasibleEnergyGap | nfl_dwave.py:33-57 | between two selections feasible for the integer program, the energy gap is just the gap in the objective and salary contributions |
| QuboEnergy.ObjectiveGap | nfl_dwave.py:33-34 | the objective contributions of two selections differ by −alpha times their difference in points |
| QuboEnergy.EqualSalaryGap | nfl_dwave.py:33-57 | between feasible selections of equal salary, only the objective pass tells them apart |
| QuboEnergy.FeasibleGapIsObjective | nfl_dwave.py:33-57 | between feasible selections of equal salary, the energy gap is −alpha times the points gap |
| QuboEnergy.FeasibleRanking | nfl_dwave.py:33-57 | with alpha > 0, among feasible selections of equal salary the energy is lower exactly when the points are higher |
| QuboEnergy.UnderBudgetPenalised | nfl_dwave.py:37-41 | for beta > 0, a selection feasible for the integer program whose salary is strictly under budget has a salary contribution strictly above its least value −beta·B² |
| QuboEnergy.FeasibleAtMinimum | nfl_dwave.py:43-57 | a selection meeting the integer program's constraints has, for any weights, positional contribution −gamma·Σ n_t² and team-size contribution −delta·T², their least values |
| QuboEnergy.QuotasAtMinimum | nfl_dwave.py:43-50 | with every quota met, the positional contribution is −gamma·Σ n_t² |
| QuboEnergy.TeamSizeAtMinimum | nfl_dwave.py:53-57 | with exactly T players selected, the team-size contribution is −delta·T² |
| QuboEnergy.RankingFromGap | nfl_dwave.py:33-34 | an energy gap of −alpha times the points gap, with alpha > 0, means lower energy exactly when more points |
| QuboEnergy.SalaryPenaltyUnderBudget | nfl_dwave.py:37-41 | a lineup that satisfies the integer program by staying under budget still pays a positive salary penalty (S − B)² |
| Lineup.SelectedExactly | nfl_dwave.py:68 | the selected list holds exactly the indices whose sample value is 1, in strictly ascending order |
| Lineup.SelectedFromExactly | nfl_dwave.py:68 | the same for the indices from i on |
| Lineup.DotIsSumOverSelected | nfl_pulp.py:40-42 | a linear sum over the decision variables equals the sum over the selected list, whose indices are valid |
| Lineup.CountIsIndicatorSum | nfl_pulp.py:29-30 | the number of selected players of a position is the sum of that position's indicator over the selection |
| Lineup.OnesSumIsLength | nfl_pulp.py:34 | the sum of the constant 1 over the selection is its length |
| Lineup.CountStep | nfl_dwave.py:76-77 | `positions.get(pos, 0) + 1` turns correct counts, keys and total for the first t picks into those for the first t + 1 |
| Lineup.SumAtStep | nfl_dwave.py:78-79 | the running sum after pick t + 1 is the sum after pick t plus that player's value |
| Lineup.PositionsOfSnoc | nfl_pulp.py:46-51 | the positions seen after pick t + 1 are those after pick t and that player's position |
| Lineup.CountAbsent | nfl_pulp.py:48-51 | a position not yet seen has count 0 |
| Lineup.SumValuesUpdate | nfl_pulp.py:48-51 | setting a key of a count map changes the total of its values by the new value less the old one |
| LineupLp.ObjectiveIsSelectedPoints | nfl_pulp.py:23 | the objective's value is the total points of the selected players, the `total_points` of line 41 |
| LineupLp.FeasibleIffSelection | nfl_pulp.py:20-34 | a binary assignment is feasible exactly when the selected salary is within budget, every listed position has exactly its quota among the selected, and exactly teamSize players are selected |
| LineupLp.CountPositions | nfl_pulp.py:46-51 | the loop's map has as keys exactly the positions among the selected, each value is that position's count, and the values sum to the number selected |
| LineupLp.Report | nfl_pulp.py:40-51 | the report lists exactly the indices with value 1, in ascending order; the totals are the sums over them and equal the objective and the salary expression; the counts are as above |
| SampleTally.Tally | nfl_dwave.py:72-79 | the loop's totals are the points and salary sums over the selected list; the positions map has exactly the positions seen as keys, their counts as values, and values summing to the list's length |
| SampleTally.Report | nfl_dwave.py:68-79 | for a sample, the selection is exactly the indices with value 1, ascending, and the tally is as above |
| Aqi.RoundHalfEven | sarima.py:32 | the result is within 1/2 of the value, and even whenever the value lies exactly half way |
| Aqi.RoundHalfEvenUnique | sarima.py:32 | no other integer meets those two conditions, so they define Python's rounding |
| Aqi.RoundInteger | sarima.py:32 | rounding an integer gives it back |
| Aqi.RoundMonotone | sarima.py:32 | rounding preserves order |
| Aqi.RawAqi | sarima.py:19-31 | the value before rounding is never above 500, not negative for a non-negative concentration, and negative for a negative one |
| Aqi.AqiPm25 | sarima.py:15-32 | a missing reading gives a missing index, and a present (finite) one always gives an index |
| Aqi.AqiBounds | sarima.py:19-32 | the index is at most 500, lies in [0, 500] for a non-negative concentration, and is at most 0 for a negative one |
| Aqi.RawAqiIsTable | sarima.py:16-31 | the if/elif chain equals linear interpolation in the breakpoint table (0,0), (30,50), (60,100), (90,200), (120,300), (250,400), (500,500), capped at 500 |
| Aqi.BreakpointValues | sarima.py:19-32 | each breakpoint concentration maps to its index value, both before and after rounding |
| Aqi.RawAqiSlopes | sarima.py:19-31 | the value rises by at most 10/3 per unit of concentration, so there is no jump at a breakpoint; up to 500 it rises by at least 2/5 per unit |
| Aqi.RawAqiMonotone | sarima.py:19-31 | the value before rounding never decreases, and strictly increases up to 500 |
| Aqi.AqiMonotone | sarima.py:15-32 | the rounded index never decreases as the concentration grows |
| Aqi.AqiCap | sarima.py:29-32 | the value before rounding is 500 exactly from 500 on; the index is 500 exactly from 498.75 on |

## Left out

- The D-Wave sampler, the `dimod` model and `response.first` (`nfl_dwave.py:61-66`) are remote calls into a foreign SDK. The sample is an arbitrary input to the tally.
- The PuLP problem and variable objects and `prob.solve()` (`nfl_pulp.py:17-20`, `36`, `39`) are an external solver. Nothing claims that the returned assignment is optimal or feasible; the model has only the predicate and objective the solver is given.
- All `print` output is console I/O. The roster (`nfl_pulp.py:5-9`) and the script constants (`nfl_dwave.py:12-22`, `nfl_pulp.py:12-14`) are parameters. `nfl_dwave.py` never defines `players`, so it is a parameter there too.
- Floating point: points, salaries, weights and concentrations are exact reals. The inexact `50/30` and `100/130`, and the float comparisons, are not modelled. Infinite readings are not modelled: `pd.isna` does not catch them, `+inf` reaches the last band and is capped to 500, and `-inf` reaches the first band, where `round(-inf)` raises (`sarima.py:17-20`, `32`).
- The tests `best_sample[i] == 1` and `x[i].value() == 1` are read on integers. A solver value such as 0.9999 that is not exactly 1 is not modelled.
- `nfl_pulp.py:47-49` mixes tabs and spaces, which Python 3 rejects. The model follows the evident logic: increment a seen position, start a new one at 1.
- Python dictionaries keep insertion order, but the model's maps do not. The order of `Q` and of the `positions`/`positions_count` dictionaries affects only printed output (`nfl_dwave.py:59`, `83`; `nfl_pulp.py:56`) and the variable order of the sampler's model (`nfl_dwave.py:63`). All of these are left out.
- The quota dictionary is a sequence in `items()` order. Distinct keys are assumed only where a lemma needs them (`Qubo.PositionalListed`).
- `preprocess_data`, `fit_and_forecast` and the station loop of `sarima.py` (lines 34-153) are left out. They are CSV reading, pandas resampling, SARIMAX fitting, plotting and file output.
- `pd.isna` is modelled only as "the reading is missing" (`None`).
